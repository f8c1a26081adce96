/** The fixed sizes of the compiler and of the machine, in numbers: what just fits, and what does not. */
module Limits {
  import opened Wrappers
  import opened Values
  import opened Syntax
  import opened Bytecode
  import opened Emitter
  import M = Machine
  import S = Scheduling

  // ---- the compiler ----

  /** A function has at most 2^17 instructions. */
  lemma CodeFitsIff(st: Emission, c: Code)
    ensures Put(st, c).Success? <==> |st.code| + |c| <= 131072
  {
  }

  /** At most 1024 breaks and continues of a function are entered in its list of pending jumps. */
  lemma PendingFitsIff(st: Emission, kind: JumpKind)
    ensures PutPending(st, kind).Success? <==> |st.jumps| < 1024 && |st.code| < 131072
  {
    CodeFitsIff(st, [JMP(UNRESOLVED)]);
  }

  function Labels(cases: Cases): nat {
    match cases case NoCases => 0 case Case(test, _, rest) => (if test.Some? then 1 else 0) + Labels(rest)
  }

  lemma {:induction false} LabelsFit(d: Expr, cases: Cases, jnz: seq<nat>, st: Emission)
    requires |jnz| <= 256 && EmitTests(d, cases, jnz, st).Success?
    ensures |jnz| + Labels(cases) <= 256
    decreases cases
  {
    if cases.Case? {
      if cases.test.None? {
        LabelsFit(d, cases.rest, jnz, st);
      } else {
        var (at, s1) := EmitTest(d, cases.test.value, |jnz|, st).value;
        LabelsFit(d, cases.rest, jnz + [at], s1);
      }
    }
  }

  /** A switch that is compiled has at most 256 labels. */
  lemma SwitchFits(d: Expr, cases: Cases, st: Emission)
    requires EmitStmt(Switch(d, cases), st).Success?
    ensures Labels(cases) <= 256
  {
    LabelsFit(d, cases, [], OpenScope(st, Scope(true, false)).value);
  }

  /** The 256th label is compiled, and the next one is not. */
  lemma LabelFitsIff(d: Literal, tag: Literal, n: nat, st: Emission)
    requires |st.code| < 100000
    ensures EmitTest(Lit(d), Lit(tag), n, st).Success? <==> n < 256
    ensures n >= 256 ==> EmitTest(Lit(d), Lit(tag), n, st) == Failure(TooManyCases)
  {
    var s1 := Put(st, [PUSH(d)]).value;
    var s2 := Put(s1, [PUSH(tag)]).value;
    CodeFitsIff(s2, [BINOP(Equal), TEST, JNZ(UNRESOLVED)]);
  }

  // ---- the machine ----

  /** A thread has at most 256 operands. */
  lemma OperandFitsIff(prog: M.Program, t: M.Thread, l: Literal)
    ensures M.Execute(prog, t, PUSH(l)).Running? <==> |t.stack| < 256
    ensures |t.stack| >= 256 ==> M.Execute(prog, t, PUSH(l)) == M.Failed(StackOverflow)
  {
  }

  /** A call needs a frame, of which there are 32, and its locals one, which holds 256. */
  lemma CallFitsIff(prog: M.Program, t: M.Thread, callee: string, n: nat, m: bool)
    requires |t.stack| >= n + 2 && n < 256 && t.stack[|t.stack| - 1] == Int(n) && Lower(callee) in prog
    ensures var r, locals := M.Execute(prog, t, CALL(callee, n, m)), prog[Lower(callee)].locals;
            && (r.Running? <==> |t.callers| <= 30 && |locals| <= 256)
            && (|t.callers| > 30 ==> r == M.Failed(FrameOverflow))
            && (|t.callers| <= 30 && |locals| > 256 ==> r == M.Failed(LocalsOverflow))
  {
  }

  // ---- the scheduler ----

  /** A thread has at most 8 names that end it. */
  lemma NameFitsIff(w: S.World, self: nat, name: nat)
    requires self < |w.records|
    ensures S.Perform(w, self, S.EndOn(name)).Success? <==> |w.records[self].endon| < 8
  {
  }
}
