/**
 * What every visitor keeps: names are only appended, each folded name once, so slots are stable;
 * code is only appended, and scopes are closed as they were opened.
 */
module Slots {
  import opened Wrappers
  import opened Values
  import opened Syntax
  import opened Bytecode
  import opened Emitter
  import opened Placement
  import opened Locals

  /** The names after emission are the earlier ones and new ones after them, still each once. */
  ghost predicate Extends(names: seq<string>, later: seq<string>) {
    names <= later && (Distinct(names) ==> Distinct(later))
  }

  ghost predicate Follows(st: Emission, r: Emission) {
    Extends(st.names, r.names) && |st.code| <= |r.code| && r.scopes == st.scopes
  }

  ghost predicate Grows(st: Emission, r: Emitted) {
    r.Success? ==> Follows(st, r.value)
  }

  lemma DefineKeepsDistinct(names: seq<string>, x: string)
    ensures Extends(names, Define(names, x))
  {
    var later := Define(names, x);
    if Distinct(names) {
      forall i, j | 0 <= i < j < |later| ensures later[i] != later[j] {
        if j == |names| {
          assert names[i] in names;
        }
      }
    }
  }

  lemma {:induction false} ExprGrows(e: Expr, st: Emission)
    ensures Grows(st, EmitExpr(e, st))
    decreases e, 1
  {
    match e
    case Lit(_) =>
    case Self =>
    case Id(x) => DefineKeepsDistinct(st.names, x);
    case Group(a) => ExprGrows(a, st);
    case Negate(a) => ExprGrows(a, st);
    case Prefix(_, a) => ExprGrows(a, st);
    case Postfix(_, a) => PostfixGrows(e, st);
    case Assign(l, r) =>
      ExprGrows(r, st);
      var s := EmitExpr(r, st);
      if s.Success? { LvalueGrows(l, s.value); }
    case OpAssign(_, _, _) => OpAssignGrows(e, st);
    case Binary(_, l, r) =>
      ExprGrows(l, st);
      var s := EmitExpr(l, st);
      if s.Success? { ExprGrows(r, s.value); }
    case And(_, _) => LogicalGrows(e, JZ(UNRESOLVED), LogicalAnd, st);
    case Or(_, _) => LogicalGrows(e, JNZ(UNRESOLVED), LogicalOr, st);
    case Ternary(_, _, b) =>
      ConsequentGrows(e, st);
      var s := EmitConsequent(e, st);
      if s.Success? { ExprGrows(b, s.value); }
    case Call(receiver, _, arguments) =>
      ArgumentsGrow(arguments, st);
      var s := EmitArguments(arguments, st);
      if s.Success? && receiver.Some? { ExprGrows(receiver.value, s.value); }
  }

  lemma LvalueGrows(l: Expr, st: Emission)
    ensures Grows(st, EmitLvalue(l, st))
  {
    if l.Id? {
      DefineKeepsDistinct(st.names, l.name);
    }
  }

  lemma {:induction false} PostfixGrows(e: Expr, st: Emission)
    requires e.Postfix?
    ensures Grows(st, EmitExpr(e, st))
    decreases e, 0
  {
    var a := e.argument;
    ExprGrows(a, st);
    var s1 := EmitExpr(a, st);
    if s1.Success? {
      ExprGrows(a, s1.value);
      var s2 := EmitExpr(a, s1.value);
      if s2.Success? {
        var s3 := Put(s2.value, [CONST(true), BINOP(if e.increment then Add else Sub)]);
        if s3.Success? { LvalueGrows(a, s3.value); }
      }
    }
  }

  lemma {:induction false} OpAssignGrows(e: Expr, st: Emission)
    requires e.OpAssign?
    ensures Grows(st, EmitExpr(e, st))
    decreases e, 0
  {
    ExprGrows(e.lhs, st);
    var s1 := EmitExpr(e.lhs, st);
    if s1.Success? {
      ExprGrows(e.rhs, s1.value);
      var s2 := EmitExpr(e.rhs, s1.value);
      if s2.Success? {
        var s3 := Put(s2.value, [BINOP(e.aop)]);
        if s3.Success? { LvalueGrows(e.lhs, s3.value); }
      }
    }
  }

  lemma {:induction false} LogicalGrows(e: Expr, jump: Instruction, op: BinaryOp, st: Emission)
    requires e.And? || e.Or?
    ensures Grows(st, EmitLogical(e, jump, op, st))
    decreases e, 0
  {
    ExprGrows(e.lhs, st);
    var s1 := EmitExpr(e.lhs, st);
    if s1.Success? {
      var s2 := Put(s1.value, [TEST, jump, CONST(e.And?)]);
      if s2.Success? {
        ExprGrows(e.rhs, s2.value);
        RightGrows(e, jump, op, s1.value, s2.value);
      }
    }
  }

  lemma RightGrows(e: Expr, jump: Instruction, op: BinaryOp, st: Emission, s1: Emission)
    requires (e.And? || e.Or?) && Put(st, [TEST, jump, CONST(e.And?)]) == Success(s1) && Grows(s1, EmitExpr(e.rhs, s1))
    ensures Grows(st, EmitRight(e, jump, op, st))
  {
    var s2 := EmitExpr(e.rhs, s1);
    if s2.Success? { FinishLogicalNames(s2.value, |st.code| + 1, op, !e.And?); }
  }

  lemma FinishLogicalNames(st: Emission, jump: nat, op: BinaryOp, shortcut: bool)
    ensures var r := FinishLogical(st, jump, op, shortcut); r.Success? ==> Follows(st, r.value)
  {
  }

  lemma {:induction false} ConsequentGrows(e: Expr, st: Emission)
    requires e.Ternary?
    ensures Grows(st, EmitConsequent(e, st))
    decreases e, 0
  {
    ExprGrows(e.test, st);
    var s1 := EmitExpr(e.test, st);
    if s1.Success? {
      var s2 := Put(s1.value, [TEST, JZ(UNRESOLVED)]);
      if s2.Success? { ExprGrows(e.consequent, s2.value); }
    }
  }

  lemma {:induction false} ArgumentsGrow(es: seq<Expr>, st: Emission)
    ensures Grows(st, EmitArguments(es, st))
    decreases es, 0
  {
    if es != [] {
      ArgumentsGrow(es[1..], st);
      var s := EmitArguments(es[1..], st);
      if s.Success? { ExprGrows(es[0], s.value); }
    }
  }

  lemma OptionGrows(e: Option<Expr>, st: Emission)
    ensures Grows(st, EmitGuard(e, st)) && Grows(st, EmitDiscarded(e, st))
  {
    if e.Some? {
      ExprGrows(e.value, st);
    }
  }

  lemma {:induction false} StmtGrows(s: Stmt, st: Emission)
    ensures Grows(st, EmitStmt(s, st))
    decreases s, 1
  {
    match s
    case Empty =>
    case ExprStmt(e) => OptionGrows(Some(e), st);
    case Return(value) => OptionGrows(value, st);
    case Block(body) => StmtsGrow(body, st);
    case If(_, _, _) => IfGrows(s, st);
    case While(guard, loop) => LoopGrows(guard, loop, None, st);
    case For(init, guard, update, loop) =>
      OptionGrows(init, st);
      var s1 := EmitDiscarded(init, st);
      if s1.Success? { LoopGrows(guard, loop, update, s1.value); }
    case Switch(_, _) => SwitchGrows(s, st);
    case Break =>
    case Continue =>
  }

  lemma {:induction false} IfGrows(s: Stmt, st: Emission)
    requires s.If?
    ensures Grows(st, EmitStmt(s, st))
    decreases s, 0
  {
    ExprGrows(s.test, st);
    var s1 := EmitExpr(s.test, st);
    if s1.Success? {
      var s2 := Put(s1.value, [TEST, JZ(UNRESOLVED)]);
      if s2.Success? {
        StmtGrows(s.consequent, s2.value);
        var s3 := EmitStmt(s.consequent, s2.value);
        if s3.Success? && s.alternative.Some? {
          var s4 := BeginElse(s3.value, |s1.value.code| + 1);
          if s4.Success? { StmtGrows(s.alternative.value, s4.value); }
        }
      }
    }
  }

  lemma {:induction false} LoopGrows(guard: Option<Expr>, loop: Stmt, update: Option<Expr>, st: Emission)
    ensures Grows(st, EmitLoop(guard, loop, update, st))
    decreases loop, 3
  {
    var s0 := OpenScope(st, Scope(true, true));
    if s0.Success? {
      OptionGrows(guard, s0.value);
      var s1 := EmitGuard(guard, s0.value);
      if s1.Success? { LoopBodyGrows(loop, update, st, s0.value, s1.value); }
    }
  }

  lemma {:induction false} LoopBodyGrows(loop: Stmt, update: Option<Expr>, st: Emission, s0: Emission, s1: Emission)
    requires OpenScope(st, Scope(true, true)) == Success(s0) && Follows(s0, s1)
    ensures Grows(st, EmitLoopBody(|st.code|, loop, update, s1))
    decreases loop, 2
  {
    var s2 := Put(s1, [TEST, JZ(UNRESOLVED)]);
    if s2.Success? {
      StmtGrows(loop, s2.value);
      BodyAndUpdateGrow(loop, update, st, s0, s1, s2.value, EmitStmt(loop, s2.value));
    }
  }

  lemma BodyAndUpdateGrow(loop: Stmt, update: Option<Expr>, st: Emission, s0: Emission, s1: Emission, s2: Emission, r: Emitted)
    requires OpenScope(st, Scope(true, true)) == Success(s0) && Follows(s0, s1)
    requires Put(s1, [TEST, JZ(UNRESOLVED)]) == Success(s2) && r == EmitStmt(loop, s2) && Grows(s2, r)
    ensures Grows(st, EmitLoopBody(|st.code|, loop, update, s1))
  {
    if r.Success? { UpdateGrows(update, st, s0, r.value, |s1.code| + 1); }
  }

  lemma UpdateGrows(update: Option<Expr>, st: Emission, s0: Emission, s3: Emission, jz: nat)
    requires OpenScope(st, Scope(true, true)) == Success(s0) && Follows(s0, s3)
    ensures Grows(st, EmitUpdate(|st.code|, jz, update, s3))
  {
    OptionGrows(update, s3);
    var s4 := EmitDiscarded(update, s3);
    if s4.Success? {
      LoopEndGrows(st, s0, s4.value, |st.code|, jz, |s3.code|);
    }
  }

  lemma LoopEndGrows(st: Emission, s0: Emission, s4: Emission, begin: nat, jz: nat, continueOffset: nat)
    requires OpenScope(st, Scope(true, true)) == Success(s0) && Follows(s0, s4)
    ensures Grows(st, FinishLoop(s4, begin, jz, continueOffset))
  {
  }

  lemma {:induction false} StmtsGrow(ss: Stmts, st: Emission)
    ensures Grows(st, EmitStmts(ss, st))
    decreases ss, 0
  {
    if ss.Cons? {
      StmtGrows(ss.head, st);
      var s1 := EmitStmt(ss.head, st);
      if s1.Success? { StmtsGrow(ss.tail, s1.value); }
    }
  }

  lemma TestGrows(d: Expr, test: Expr, n: nat, st: Emission)
    ensures var r := EmitTest(d, test, n, st); r.Success? ==> Follows(st, r.value.1)
  {
    ExprGrows(d, st);
    var s1 := EmitExpr(d, st);
    if s1.Success? { ExprGrows(test, s1.value); }
  }

  lemma {:induction false} TestsGrow(d: Expr, cases: Cases, jnz: seq<nat>, st: Emission)
    ensures var r := EmitTests(d, cases, jnz, st); r.Success? ==> Follows(st, r.value.1)
    decreases cases
  {
    if cases.Case? {
      if cases.test.None? {
        TestsGrow(d, cases.rest, jnz, st);
      } else {
        TestGrows(d, cases.test.value, |jnz|, st);
        var r := EmitTest(d, cases.test.value, |jnz|, st);
        if r.Success? { TestsGrow(d, cases.rest, jnz + [r.value.0], r.value.1); }
      }
    }
  }

  lemma {:induction false} BodiesGrow(cases: Cases, jnz: seq<nat>, n: nat, st: Emission)
    ensures Grows(st, EmitBodies(cases, jnz, n, st))
    decreases cases, 0
  {
    if cases.Case? {
      if cases.test.None? {
        BodiesGrow(cases.rest, jnz, n, st);
      } else {
        var s0 := PatchHere(st, if n < |jnz| then jnz[n] else UNRESOLVED);
        StmtsGrow(cases.consequent, s0);
        var s1 := EmitStmts(cases.consequent, s0);
        if s1.Success? { BodiesGrow(cases.rest, jnz, n + 1, s1.value); }
      }
    }
  }

  lemma {:induction false} DefaultGrows(cases: Cases, jump: nat, st: Emission)
    ensures Grows(st, EmitDefault(cases, jump, st))
    decreases cases, 1
  {
    if DefaultBody(cases).Some? {
      StmtsGrow(DefaultBody(cases).value, PatchHere(st, jump));
    }
  }

  lemma {:induction false} SwitchGrows(s: Stmt, st: Emission)
    requires s.Switch?
    ensures Grows(st, EmitStmt(s, st))
    decreases s, 0
  {
    var s1 := OpenScope(st, Scope(true, false));
    if s1.Success? {
      TestsGrow(s.discriminant, s.cases, [], s1.value);
      var t := EmitTests(s.discriminant, s.cases, [], s1.value);
      if t.Success? {
        AfterTestsGrow(s, t.value.0, t.value.1);
      }
    }
  }

  lemma {:induction false} AfterTestsGrow(s: Stmt, jnz: seq<nat>, s2: Emission)
    requires s.Switch?
    ensures var s3 := Put(s2, if DefaultBody(s.cases).None? then [] else [JMP(UNRESOLVED)]);
            s3.Success? ==>
              var s4 := EmitBodies(s.cases, jnz, 0, s3.value);
              Grows(s2, s4) && (s4.Success? ==> Grows(s2, EmitDefault(s.cases, |s2.code|, s4.value)))
    decreases s.cases, 2
  {
    var s3 := Put(s2, if DefaultBody(s.cases).None? then [] else [JMP(UNRESOLVED)]);
    if s3.Success? {
      BodiesGrow(s.cases, jnz, 0, s3.value);
      var s4 := EmitBodies(s.cases, jnz, 0, s3.value);
      if s4.Success? { DefaultGrows(s.cases, |s2.code|, s4.value); }
    }
  }

  // ---- parameters ----

  /** Parameters get the slots after the names that are there, in order; a repeated one is refused. */
  lemma {:induction false} DefineParametersInOrder(parameters: seq<string>, names: seq<string>)
    requires Distinct(names) && DefineParameters(parameters, names).Success?
    ensures var r := DefineParameters(parameters, names).value;
            && Distinct(r) && |r| == |names| + |parameters| && names <= r
            && forall i :: 0 <= i < |parameters| ==> r[|names| + i] == Lower(parameters[i])
    decreases |parameters|
  {
    if parameters != [] {
      var x := Lower(parameters[0]);
      var more := names + [x];
      forall i, j | 0 <= i < j < |more| ensures more[i] != more[j] {
        if j == |names| {
          assert names[i] in names;
        }
      }
      DefineParametersInOrder(parameters[1..], more);
      var r := DefineParameters(parameters, names).value;
      forall i | 0 <= i < |parameters| ensures r[|names| + i] == Lower(parameters[i]) {
        if i == 0 {
          assert r[|names|] == more[|names|];
        } else {
          assert r[|more| + (i - 1)] == Lower(parameters[1..][i - 1]);
        }
      }
    }
  }

  /** In a compiled function, self is slot 0, parameters are slots 1, 2, ... in order, and names are distinct. */
  lemma CompiledSlots(parameters: seq<string>, body: Stmt)
    requires CompileFunction(parameters, body).Success?
    ensures var f := CompileFunction(parameters, body).value;
            FrameNames(f.locals, parameters) && f.parameterCount == |parameters|
  {
    assert Distinct(["self"]);
    DefineParametersInOrder(parameters, ["self"]);
    var names := DefineParameters(parameters, ["self"]).value;
    StmtGrows(body, Emission([], [], [], names));
  }
}
