/** Runs of the machine: where they lead, and how single instructions move them. */
module Runs {
  import opened Wrappers
  import opened Values
  import opened Syntax
  import opened Bytecode
  import opened Emitter
  import opened Machine

  /** What a run is claimed to do: arrive in a state, fail, or go on for at least `k` steps. */
  datatype Goal = Arrive(thread: Thread) | Abort(fault: Fault) | Last(k: nat)

  /** The run ends in one of the machine's fixed limits. */
  ghost predicate HitsLimit(prog: Program, t: Thread) {
    exists n: nat :: Run(prog, t, n).Failed? && Run(prog, t, n).fault.IsLimit()
  }

  ghost predicate Attains(prog: Program, t: Thread, g: Goal) {
    match g
    case Arrive(u) => exists n: nat :: Run(prog, t, n) == Running(u)
    case Abort(f) => exists n: nat :: Run(prog, t, n) == Failed(f)
    case Last(k) => Run(prog, t, k).Running?
  }

  ghost predicate Leads(prog: Program, t: Thread, g: Goal) {
    Attains(prog, t, g) || HitsLimit(prog, t)
  }

  lemma {:induction false} RunAdd(prog: Program, t: Thread, m: nat, u: Thread, n: nat)
    requires Run(prog, t, m) == Running(u)
    ensures Run(prog, t, m + n) == Run(prog, u, n)
    decreases m
  {
    if m > 0 {
      RunAdd(prog, Step(prog, t).thread, m - 1, u, n);
    }
  }

  lemma {:induction false} RunShorter(prog: Program, t: Thread, m: nat, n: nat)
    requires m <= n && Run(prog, t, n).Running?
    ensures Run(prog, t, m).Running?
    decreases m
  {
    if m > 0 {
      RunShorter(prog, Step(prog, t).thread, m - 1, n - 1);
    }
  }

  /** Runs compose. */
  lemma LeadsVia(prog: Program, t: Thread, u: Thread, g: Goal)
    requires Leads(prog, t, Arrive(u)) && Leads(prog, u, g)
    ensures Leads(prog, t, g)
  {
    if !HitsLimit(prog, t) {
      var m: nat :| Run(prog, t, m) == Running(u);
      if HitsLimit(prog, u) {
        var n: nat :| Run(prog, u, n).Failed? && Run(prog, u, n).fault.IsLimit();
        RunAdd(prog, t, m, u, n);
        assert false;
      }
      match g {
        case Arrive(w) =>
          var n: nat :| Run(prog, u, n) == Running(w);
          RunAdd(prog, t, m, u, n);
        case Abort(f) =>
          var n: nat :| Run(prog, u, n) == Failed(f);
          RunAdd(prog, t, m, u, n);
        case Last(k) =>
          RunAdd(prog, t, m, u, k);
          RunShorter(prog, t, k, m + k);
      }
    }
  }

  lemma LeadsNowhere(prog: Program, t: Thread)
    ensures Leads(prog, t, Arrive(t)) && Leads(prog, t, Last(0))
  {
    assert Run(prog, t, 0) == Running(t);
  }

  /** One step. */
  lemma LeadsStep(prog: Program, t: Thread)
    ensures match Step(prog, t)
            case Running(u) => Leads(prog, t, Arrive(u))
            case Failed(f) => Leads(prog, t, Abort(f)) && (f.IsLimit() ==> forall g :: Leads(prog, t, g))
            case Finished(_) => true
  {
    assert Run(prog, t, 1) == Step(prog, t) by {
      if Step(prog, t).Running? {
        assert Run(prog, Step(prog, t).thread, 0) == Step(prog, t);
      }
    }
  }

  /** A step makes a long run longer. */
  lemma LastsLonger(prog: Program, t: Thread, u: Thread, k: nat)
    requires Step(prog, t) == Running(u) && Leads(prog, u, Last(k))
    ensures Leads(prog, t, Last(k + 1))
  {
    if HitsLimit(prog, u) {
      LeadsStep(prog, t);
      LeadsVia(prog, t, u, Last(k));
      var n: nat :| Run(prog, u, n).Failed? && Run(prog, u, n).fault.IsLimit();
      assert Run(prog, t, n + 1) == Run(prog, u, n);
    }
  }

  // ---- code at the instruction pointer ----

  /** `c` stands in the running function `n` instructions from the next one. */
  predicate CodeAt(t: Thread, n: nat, c: Code) {
    var ip := t.top.ip + n;
    0 <= ip && ip + |c| <= |t.top.code| && t.top.code[ip..ip + |c|] == c
  }

  lemma CodeAtParts(t: Thread, n: nat, a: Code, b: Code)
    requires CodeAt(t, n, a + b)
    ensures CodeAt(t, n, a) && CodeAt(t, n + |a|, b)
  {
    var ip, code := t.top.ip + n, t.top.code;
    var c := code[ip..ip + |a| + |b|];
    assert c == a + b;
    assert code[ip..ip + |a|] == c[..|a|] == a;
    assert code[ip + |a|..ip + |a| + |b|] == c[|a|..] == b;
  }

  lemma CodeAtThree(t: Thread, n: nat, a: Code, b: Code, c: Code)
    requires CodeAt(t, n, a + b + c)
    ensures CodeAt(t, n, a) && CodeAt(t, n + |a|, b) && CodeAt(t, n + |a| + |b|, c)
  {
    CodeAtParts(t, n, a + b, c);
    CodeAtParts(t, n, a, b);
  }

  /** The next instruction. */
  lemma Fetched(t: Thread, c: Code)
    requires CodeAt(t, 0, c) && c != []
    ensures 0 <= t.top.ip < |t.top.code| && t.top.code[t.top.ip] == c[0]
    ensures CodeAt(t, 1, c[1..])
  {
    var ip, code := t.top.ip, t.top.code;
    assert code[ip..ip + |c|][0] == c[0];
    assert code[ip + 1..ip + |c|] == code[ip..ip + |c|][1..];
  }

  /** A thread further on in the same function. */
  function At(t: Thread, stack: seq<Value>, locals: seq<Value>, n: int, flag: bool): Thread {
    Thread(stack, t.callers, Frame(t.top.code, locals, t.top.ip + n), flag)
  }

  lemma PushStep(prog: Program, t: Thread, ins: Instruction, v: Value)
    requires CodeAt(t, 0, [ins]) && Execute(prog, Jump(t, 1), ins) == Push(Jump(t, 1), v)
    ensures Leads(prog, t, Arrive(At(t, t.stack + [v], t.top.locals, 1, t.flag)))
  {
    Fetched(t, [ins]);
    LeadsStep(prog, t);
  }

  lemma ResultStep(prog: Program, t: Thread, ins: Instruction, s: seq<Value>, r: Result<Value, Fault>)
    requires CodeAt(t, 0, [ins])
    requires Execute(prog, Jump(t, 1), ins) == PushResult(Jump(t, 1).(stack := s), r)
    ensures Leads(prog, t, match r case Success(v) => Arrive(At(t, s + [v], t.top.locals, 1, t.flag)) case Failure(f) => Abort(f))
  {
    Fetched(t, [ins]);
    LeadsStep(prog, t);
  }

  lemma BinopStep(prog: Program, t: Thread, s: seq<Value>, a: Value, b: Value, op: BinaryOp)
    requires CodeAt(t, 0, [BINOP(op)]) && t.stack == s + [a] + [b]
    ensures Leads(prog, t, match Binop(op, a, b)
                           case Success(v) => Arrive(At(t, s + [v], t.top.locals, 1, t.flag))
                           case Failure(f) => Abort(f))
  {
    assert Drop(Jump(t, 1), 2).stack == s;
    ResultStep(prog, t, BINOP(op), s, Binop(op, a, b));
  }

  lemma UnaryStep(prog: Program, t: Thread, s: seq<Value>, a: Value, op: UnaryOp)
    requires CodeAt(t, 0, [UNARY(op)]) && t.stack == s + [a]
    ensures Leads(prog, t, match Unary(op, a)
                           case Success(v) => Arrive(At(t, s + [v], t.top.locals, 1, t.flag))
                           case Failure(f) => Abort(f))
  {
    assert Drop(Jump(t, 1), 1).stack == s;
    ResultStep(prog, t, UNARY(op), s, Unary(op, a));
  }

  lemma PopStep(prog: Program, t: Thread, s: seq<Value>, a: Value)
    requires CodeAt(t, 0, [POP]) && t.stack == s + [a]
    ensures Leads(prog, t, Arrive(At(t, s, t.top.locals, 1, t.flag)))
  {
    Fetched(t, [POP]);
    assert Drop(Jump(t, 1), 1).stack == s;
    LeadsStep(prog, t);
  }

  /** TEST and the conditional jump after it: `rel` is added when the condition says so. */
  lemma TestStep(prog: Program, t: Thread, s: seq<Value>, a: Value, jump: Instruction)
    requires jump.JZ? || jump.JNZ?
    requires CodeAt(t, 0, [TEST, jump]) && t.stack == s + [a]
    ensures Leads(prog, t, match Test(a)
                           case Success(c) =>
                             Arrive(At(t, s, t.top.locals, if c == jump.JNZ? then 2 + jump.rel else 2, c))
                           case Failure(f) => Abort(f))
  {
    Fetched(t, [TEST, jump]);
    LeadsStep(prog, t);
    if Test(a).Success? {
      var u := At(t, s, t.top.locals, 1, Test(a).value);
      assert Drop(Jump(t, 1), 1).stack == s;
      assert Step(prog, t) == Running(u);
      assert [TEST, jump][1..] == [jump];
      Fetched(u, [jump]);
      LeadsStep(prog, u);
      LeadsVia(prog, t, u, Arrive(Step(prog, u).thread));
    }
  }

  lemma JumpStep(prog: Program, t: Thread, rel: int)
    requires CodeAt(t, 0, [JMP(rel)])
    ensures Step(prog, t) == Running(At(t, t.stack, t.top.locals, 1 + rel, t.flag))
    ensures Leads(prog, t, Arrive(At(t, t.stack, t.top.locals, 1 + rel, t.flag)))
  {
    Fetched(t, [JMP(rel)]);
    LeadsStep(prog, t);
  }

  /** REF and STORE: the value on top is assigned to a local and stays on top. */
  lemma StoreStep(prog: Program, t: Thread, s: seq<Value>, v: Value, slot: nat)
    requires CodeAt(t, 0, [REF(slot), STORE]) && t.stack == s + [v] && slot < |t.top.locals|
    ensures Leads(prog, t, Arrive(At(t, s + [v], t.top.locals[slot := v], 2, t.flag)))
  {
    CodeAtParts(t, 0, [REF(slot)], [STORE]);
    assert [REF(slot)] + [STORE] == [REF(slot), STORE];
    PushStep(prog, t, REF(slot), Ref(|t.callers|, slot));
    var u := At(t, s + [v] + [Ref(|t.callers|, slot)], t.top.locals, 1, t.flag);
    Fetched(u, [STORE]);
    assert Drop(Jump(u, 1), 2).stack == s;
    LeadsStep(prog, u);
    LeadsVia(prog, t, u, Arrive(At(t, s + [v], t.top.locals[slot := v], 2, t.flag)));
  }
}
