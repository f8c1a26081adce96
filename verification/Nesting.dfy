/** How deep loops and switches may be nested: the scopes of the compiler are a fixed array. */
module Nesting {
  import opened Wrappers
  import opened Values
  import opened Syntax
  import opened Bytecode
  import opened Emitter
  import opened Slots

  function Max(a: nat, b: nat): nat {
    if a < b then b else a
  }

  /** The loops and switches around the innermost statement. A `default` that is overridden is not compiled. */
  function Nested(s: Stmt): nat
    decreases s, 1
  {
    match s
    case Block(body) => AllNested(body)
    case If(_, a, b) => Max(Nested(a), match b case None => 0 case Some(b) => Nested(b))
    case While(_, loop) => 1 + Nested(loop)
    case For(_, _, _, loop) => 1 + Nested(loop)
    case Switch(_, cases) => 1 + Max(LabelledNested(cases), DefaultNested(cases))
    case _ => 0
  }

  function AllNested(ss: Stmts): nat
    decreases ss, 0
  {
    match ss case Nil => 0 case Cons(s, rest) => Max(Nested(s), AllNested(rest))
  }

  function LabelledNested(cases: Cases): nat
    decreases cases, 0
  {
    match cases
    case NoCases => 0
    case Case(test, body, rest) => Max(if test.Some? then AllNested(body) else 0, LabelledNested(rest))
  }

  function DefaultNested(cases: Cases): nat
    decreases cases, 1
  {
    match DefaultBody(cases) case None => 0 case Some(body) => AllNested(body)
  }

  /** Code with `n` nested scopes, in `k` open ones: it runs out of scopes only if there are too many, and never fits then. */
  predicate Tells<T>(r: Result<T, CompileError>, k: nat, n: nat) {
    && (r == Failure(ScopeArrayOverrun) ==> k + n >= COMPILER_MAX_SCOPES)
    && (r.Success? && n > 0 ==> k + n < COMPILER_MAX_SCOPES)
  }

  // ---- expressions have no scopes ----

  lemma {:induction false} ExprHasNoScope(e: Expr, st: Emission)
    ensures EmitExpr(e, st) != Failure(ScopeArrayOverrun)
    decreases e, 1
  {
    match e
    case Lit(_) =>
    case Self =>
    case Id(_) =>
    case Group(a) => ExprHasNoScope(a, st);
    case Negate(a) => ExprHasNoScope(a, st);
    case Prefix(_, a) => ExprHasNoScope(a, st);
    case Postfix(_, a) =>
      ExprHasNoScope(a, st);
      var s := EmitExpr(a, st);
      if s.Success? { ExprHasNoScope(a, s.value); }
    case Assign(_, r) => ExprHasNoScope(r, st);
    case OpAssign(_, l, r) =>
      ExprHasNoScope(l, st);
      var s := EmitExpr(l, st);
      if s.Success? { ExprHasNoScope(r, s.value); }
    case Binary(_, l, r) =>
      ExprHasNoScope(l, st);
      var s := EmitExpr(l, st);
      if s.Success? { ExprHasNoScope(r, s.value); }
    case And(_, _) => LogicalHasNoScope(e, JZ(UNRESOLVED), LogicalAnd, st);
    case Or(_, _) => LogicalHasNoScope(e, JNZ(UNRESOLVED), LogicalOr, st);
    case Ternary(_, _, b) =>
      ConsequentHasNoScope(e, st);
      var s := EmitConsequent(e, st);
      if s.Success? { ExprHasNoScope(b, s.value); }
    case Call(receiver, _, arguments) =>
      ArgumentsHaveNoScope(arguments, st);
      var s := EmitArguments(arguments, st);
      if s.Success? && receiver.Some? { ExprHasNoScope(receiver.value, s.value); }
  }

  lemma {:induction false} LogicalHasNoScope(e: Expr, jump: Instruction, op: BinaryOp, st: Emission)
    requires e.And? || e.Or?
    ensures EmitLogical(e, jump, op, st) != Failure(ScopeArrayOverrun)
    decreases e, 0
  {
    ExprHasNoScope(e.lhs, st);
    var s1 := EmitExpr(e.lhs, st);
    if s1.Success? {
      var s2 := Put(s1.value, [TEST, jump, CONST(e.And?)]);
      if s2.Success? {
        ExprHasNoScope(e.rhs, s2.value);
        RightHasNoScope(e, jump, op, s1.value, s2.value);
      }
    }
  }

  lemma RightHasNoScope(e: Expr, jump: Instruction, op: BinaryOp, st: Emission, s1: Emission)
    requires (e.And? || e.Or?) && Put(st, [TEST, jump, CONST(e.And?)]) == Success(s1)
    requires EmitExpr(e.rhs, s1) != Failure(ScopeArrayOverrun)
    ensures EmitRight(e, jump, op, st) != Failure(ScopeArrayOverrun)
  {
    var s2 := EmitExpr(e.rhs, s1);
    if s2.Success? { FinishHasNoScope(s2.value, |st.code| + 1, op, !e.And?); }
  }

  lemma FinishHasNoScope(st: Emission, jump: nat, op: BinaryOp, shortcut: bool)
    ensures FinishLogical(st, jump, op, shortcut) != Failure(ScopeArrayOverrun)
  {
  }

  lemma {:induction false} ConsequentHasNoScope(e: Expr, st: Emission)
    requires e.Ternary?
    ensures EmitConsequent(e, st) != Failure(ScopeArrayOverrun)
    decreases e, 0
  {
    ExprHasNoScope(e.test, st);
    var s1 := EmitExpr(e.test, st);
    if s1.Success? {
      var s2 := Put(s1.value, [TEST, JZ(UNRESOLVED)]);
      if s2.Success? { ExprHasNoScope(e.consequent, s2.value); }
    }
  }

  lemma {:induction false} ArgumentsHaveNoScope(es: seq<Expr>, st: Emission)
    ensures EmitArguments(es, st) != Failure(ScopeArrayOverrun)
    decreases es, 0
  {
    if es != [] {
      ArgumentsHaveNoScope(es[1..], st);
      var s := EmitArguments(es[1..], st);
      if s.Success? { ExprHasNoScope(es[0], s.value); }
    }
  }

  lemma OptionHasNoScope(e: Option<Expr>, st: Emission)
    ensures EmitGuard(e, st) != Failure(ScopeArrayOverrun) && EmitDiscarded(e, st) != Failure(ScopeArrayOverrun)
  {
    if e.Some? {
      ExprHasNoScope(e.value, st);
    }
  }

  // ---- statements ----

  lemma {:induction false} StmtTells(s: Stmt, st: Emission)
    ensures Tells(EmitStmt(s, st), |st.scopes|, Nested(s))
    decreases s, 1
  {
    match s
    case Empty =>
    case ExprStmt(e) => OptionHasNoScope(Some(e), st);
    case Return(value) => OptionHasNoScope(value, st);
    case Block(body) => StmtsTell(body, st);
    case If(_, _, _) => IfTells(s, st);
    case While(guard, loop) => LoopTells(guard, loop, None, st);
    case For(init, guard, update, loop) =>
      OptionHasNoScope(init, st);
      OptionGrows(init, st);
      var s1 := EmitDiscarded(init, st);
      if s1.Success? { LoopTells(guard, loop, update, s1.value); }
    case Switch(_, _) => SwitchTells(s, st);
    case Break =>
    case Continue =>
  }

  lemma {:induction false} IfTells(s: Stmt, st: Emission)
    requires s.If?
    ensures Tells(EmitStmt(s, st), |st.scopes|, Nested(s))
    decreases s, 0
  {
    ExprHasNoScope(s.test, st);
    ExprGrows(s.test, st);
    var s1 := EmitExpr(s.test, st);
    if s1.Success? {
      var s2 := Put(s1.value, [TEST, JZ(UNRESOLVED)]);
      if s2.Success? {
        StmtTells(s.consequent, s2.value);
        StmtGrows(s.consequent, s2.value);
        var s3 := EmitStmt(s.consequent, s2.value);
        if s3.Success? && s.alternative.Some? {
          var s4 := BeginElse(s3.value, |s1.value.code| + 1);
          if s4.Success? { StmtTells(s.alternative.value, s4.value); }
        }
      }
    }
  }

  lemma {:induction false} LoopTells(guard: Option<Expr>, loop: Stmt, update: Option<Expr>, st: Emission)
    ensures Tells(EmitLoop(guard, loop, update, st), |st.scopes|, 1 + Nested(loop))
    decreases loop, 3
  {
    var s0 := OpenScope(st, Scope(true, true));
    if s0.Success? {
      OptionHasNoScope(guard, s0.value);
      OptionGrows(guard, s0.value);
      var s1 := EmitGuard(guard, s0.value);
      if s1.Success? { LoopBodyTells(|st.code|, loop, update, s1.value); }
    }
  }

  lemma {:induction false} LoopBodyTells(begin: nat, loop: Stmt, update: Option<Expr>, st: Emission)
    ensures Tells(EmitLoopBody(begin, loop, update, st), |st.scopes|, Nested(loop))
    decreases loop, 2
  {
    var s1 := Put(st, [TEST, JZ(UNRESOLVED)]);
    if s1.Success? {
      StmtTells(loop, s1.value);
      BodyTellsAll(begin, loop, update, st, s1.value, EmitStmt(loop, s1.value));
    }
  }

  lemma BodyTellsAll(begin: nat, loop: Stmt, update: Option<Expr>, st: Emission, s1: Emission, r: Emitted)
    requires Put(st, [TEST, JZ(UNRESOLVED)]) == Success(s1) && r == EmitStmt(loop, s1) && Tells(r, |s1.scopes|, Nested(loop))
    ensures Tells(EmitLoopBody(begin, loop, update, st), |st.scopes|, Nested(loop))
  {
    if r.Success? { OptionHasNoScope(update, r.value); }
  }

  lemma {:induction false} StmtsTell(ss: Stmts, st: Emission)
    ensures Tells(EmitStmts(ss, st), |st.scopes|, AllNested(ss))
    decreases ss, 0
  {
    if ss.Cons? {
      StmtTells(ss.head, st);
      StmtGrows(ss.head, st);
      var s1 := EmitStmt(ss.head, st);
      if s1.Success? { StmtsTell(ss.tail, s1.value); }
    }
  }

  lemma {:induction false} TestsHaveNoScope(d: Expr, cases: Cases, jnz: seq<nat>, st: Emission)
    ensures EmitTests(d, cases, jnz, st) != Failure(ScopeArrayOverrun)
    decreases cases
  {
    if cases.Case? {
      if cases.test.None? {
        TestsHaveNoScope(d, cases.rest, jnz, st);
      } else {
        TestHasNoScope(d, cases.test.value, |jnz|, st);
        var r := EmitTest(d, cases.test.value, |jnz|, st);
        if r.Success? { TestsHaveNoScope(d, cases.rest, jnz + [r.value.0], r.value.1); }
      }
    }
  }

  lemma TestHasNoScope(d: Expr, test: Expr, n: nat, st: Emission)
    ensures EmitTest(d, test, n, st) != Failure(ScopeArrayOverrun)
  {
    ExprHasNoScope(d, st);
    var s1 := EmitExpr(d, st);
    if s1.Success? { ExprHasNoScope(test, s1.value); }
  }

  lemma {:induction false} BodiesTell(cases: Cases, jnz: seq<nat>, n: nat, st: Emission)
    ensures Tells(EmitBodies(cases, jnz, n, st), |st.scopes|, LabelledNested(cases))
    decreases cases, 0
  {
    if cases.Case? {
      if cases.test.None? {
        BodiesTell(cases.rest, jnz, n, st);
      } else {
        var s0 := PatchHere(st, if n < |jnz| then jnz[n] else UNRESOLVED);
        StmtsTell(cases.consequent, s0);
        StmtsGrow(cases.consequent, s0);
        var s1 := EmitStmts(cases.consequent, s0);
        if s1.Success? { BodiesTell(cases.rest, jnz, n + 1, s1.value); }
      }
    }
  }

  lemma {:induction false} DefaultTells(cases: Cases, jump: nat, st: Emission)
    ensures Tells(EmitDefault(cases, jump, st), |st.scopes|, DefaultNested(cases))
    decreases cases, 1
  {
    if DefaultBody(cases).Some? {
      StmtsTell(DefaultBody(cases).value, PatchHere(st, jump));
    }
  }

  lemma {:induction false} SwitchTells(s: Stmt, st: Emission)
    requires s.Switch?
    ensures Tells(EmitStmt(s, st), |st.scopes|, Nested(s))
    decreases s, 0
  {
    var s1 := OpenScope(st, Scope(true, false));
    if s1.Success? {
      TestsHaveNoScope(s.discriminant, s.cases, [], s1.value);
      TestsGrow(s.discriminant, s.cases, [], s1.value);
      var r := EmitTests(s.discriminant, s.cases, [], s1.value);
      if r.Success? {
        var s3 := Put(r.value.1, if DefaultBody(s.cases).None? then [] else [JMP(UNRESOLVED)]);
        if s3.Success? { BothTell(s.cases, r.value.0, |r.value.1.code|, s3.value); }
      }
    }
  }

  lemma {:induction false} BothTell(cases: Cases, jnz: seq<nat>, jump: nat, st: Emission)
    ensures var r := EmitBodies(cases, jnz, 0, st);
            Tells(if r.Success? then EmitDefault(cases, jump, r.value) else r, |st.scopes|,
                  Max(LabelledNested(cases), DefaultNested(cases)))
    decreases cases, 2
  {
    BodiesTell(cases, jnz, 0, st);
    BodiesGrow(cases, jnz, 0, st);
    var r := EmitBodies(cases, jnz, 0, st);
    if r.Success? { DefaultTells(cases, jump, r.value); }
  }

  // ---- functions ----

  /** With up to 31 nested scopes the array is never overrun; with more, nothing is compiled. */
  lemma ScopesSuffice(parameters: seq<string>, body: Stmt)
    ensures Nested(body) <= 31 ==> CompileFunction(parameters, body) != Failure(ScopeArrayOverrun)
    ensures Nested(body) >= 32 ==> CompileFunction(parameters, body).Failure?
  {
    var names := DefineParameters(parameters, ["self"]);
    ParametersHaveNoScope(parameters, ["self"]);
    if names.Success? {
      StmtTells(body, Emission([], [], [], names.value));
    }
  }

  lemma {:induction false} ParametersHaveNoScope(parameters: seq<string>, names: seq<string>)
    ensures DefineParameters(parameters, names) != Failure(ScopeArrayOverrun)
    decreases |parameters|
  {
    if parameters != [] {
      ParametersHaveNoScope(parameters[1..], names + [Lower(parameters[0])]);
    }
  }

  // ---- the limit is met ----

  /** `for (;;) for (;;) ... ;` */
  function Loops(n: nat): (s: Stmt)
    ensures Nested(s) == n
  {
    if n == 0 then Empty else While(None, Loops(n - 1))
  }

  /** 31 of them compile, and the 32nd writes behind the array. */
  lemma ThirtyTwoScopesOverrun(n: nat)
    ensures n <= 31 ==> CompileFunction([], Loops(n)).Success?
    ensures n >= 32 ==> CompileFunction([], Loops(n)) == Failure(ScopeArrayOverrun)
  {
    var st := Emission([], [], [], ["self"]);
    assert DefineParameters([], ["self"]) == Success(["self"]);
    if n <= 31 {
      LoopsFit(n, st);
    } else {
      LoopsOverrun(n, st);
    }
  }

  /** The state in which the body of `for (;;)` is emitted. */
  function Inside(st: Emission): Emission {
    st.(code := st.code + [CONST(true)] + [TEST, JZ(UNRESOLVED)], scopes := st.scopes + [Scope(true, true)])
  }

  lemma ForeverIsEmitted(loop: Stmt, st: Emission)
    requires |st.scopes| < 31 && |st.code| <= 1000
    ensures match EmitStmt(loop, Inside(st))
            case Failure(x) => EmitStmt(While(None, loop), st) == Failure(x)
            case Success(s3) =>
              EmitStmt(While(None, loop), st) == FinishLoop(s3, |st.code|, |st.code| + 2, |s3.code|)
  {
    var s0 := OpenScope(st, Scope(true, true)).value;
    var s1 := EmitGuard(None, s0).value;
    assert Put(s1, [TEST, JZ(UNRESOLVED)]) == Success(Inside(st));
    WhileEmits(loop, st);
    GuardEmitted(loop, st, s0, s1);
    BareBody(|st.code|, loop, s1, Inside(st), EmitStmt(loop, Inside(st)));
  }

  lemma WhileEmits(loop: Stmt, st: Emission)
    ensures EmitStmt(While(None, loop), st) == EmitLoop(None, loop, None, st)
  {
  }

  lemma GuardEmitted(loop: Stmt, st: Emission, s0: Emission, s1: Emission)
    requires OpenScope(st, Scope(true, true)) == Success(s0) && EmitGuard(None, s0) == Success(s1)
    ensures EmitLoop(None, loop, None, st) == EmitLoopBody(|st.code|, loop, None, s1)
  {
  }

  lemma BareBody(begin: nat, loop: Stmt, s1: Emission, s2: Emission, r: Emitted)
    requires Put(s1, [TEST, JZ(UNRESOLVED)]) == Success(s2) && r == EmitStmt(loop, s2)
    ensures EmitLoopBody(begin, loop, None, s1) ==
            if r.Success? then FinishLoop(r.value, begin, |s1.code| + 1, |r.value.code|) else r
  {
    if r.Success? {
      assert EmitDiscarded(None, r.value) == r;
    }
  }

  lemma {:induction false} LoopsFit(n: nat, st: Emission)
    requires |st.scopes| + n <= 31 && |st.code| + 4 * n <= 1000
    ensures var r := EmitStmt(Loops(n), st);
            r.Success? && |r.value.code| == |st.code| + 4 * n && r.value.scopes == st.scopes
    decreases n
  {
    if n > 0 {
      LoopsFit(n - 1, Inside(st));
      ForeverIsEmitted(Loops(n - 1), st);
    }
  }

  lemma {:induction false} LoopsOverrun(n: nat, st: Emission)
    requires |st.scopes| + n >= 32 && |st.scopes| <= 31 && |st.code| <= 3 * |st.scopes|
    ensures EmitStmt(Loops(n), st) == Failure(ScopeArrayOverrun)
    decreases n
  {
    if |st.scopes| < 31 {
      LoopsOverrun(n - 1, Inside(st));
      ForeverIsEmitted(Loops(n - 1), st);
    } else {
      ForeverOverruns(Loops(n - 1), st);
    }
  }

  lemma ForeverOverruns(loop: Stmt, st: Emission)
    requires |st.scopes| >= 31
    ensures EmitStmt(While(None, loop), st) == Failure(ScopeArrayOverrun)
  {
  }
}
