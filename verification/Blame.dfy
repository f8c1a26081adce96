/** The faults of a meaning: wrong types, undefined arithmetic, or a function that does not exist. */
module Blame {
  import opened Wrappers
  import opened Values
  import opened Syntax
  import opened Placement
  import opened Statements
  import opened Machine
  import opened Semantics

  predicate Sensible(f: Fault) {
    f == TypeFault || f == ArithmeticFault || f == NoFunction
  }

  /** The variables of every function are among its local variables, and it assigns to nothing else. */
  predicate Known(src: Source, prog: Program) {
    src.Keys == prog.Keys && forall f :: f in src ==> StmtBound(src[f].body, prog[f].locals)
  }

  predicate Blames<T>(r: Effect<T>) {
    r.Failure? && r.error.Fault? ==> Sensible(r.error.fault)
  }

  lemma ArithmeticBlames(op: BinaryOp, a: Value, b: Value)
    ensures Blames(Lift(Binop(op, a, b)))
  {
  }

  lemma UnaryBlames(op: UnaryOp, a: Value)
    ensures Blames(Lift(Unary(op, a))) && Blames(Lift(Test(a)))
  {
  }

  lemma {:induction false} EvalBlames(src: Source, prog: Program, names: seq<string>, e: Expr, store: Store, fuel: nat)
    requires Known(src, prog) && ExprBound(e, names)
    ensures Blames(Eval(src, e, store, fuel))
    decreases fuel, e, 2
  {
    match e
    case Lit(_) =>
    case Self =>
    case Id(_) =>
    case Group(a) => EvalBlames(src, prog, names, a, store, fuel);
    case Negate(_) => OneBlames(src, prog, names, e, store, fuel);
    case Prefix(_, _) => OneBlames(src, prog, names, e, store, fuel);
    case Assign(_, _) => AssignBlames(src, prog, names, e, store, fuel);
    case Postfix(_, _) => PostfixBlames(src, prog, names, e, store, fuel);
    case OpAssign(_, _, _) => OpAssignBlames(src, prog, names, e, store, fuel);
    case Binary(_, _, _) => BinaryBlames(src, prog, names, e, store, fuel);
    case And(_, _) => LogicalBlames(src, prog, names, e, store, fuel);
    case Or(_, _) => LogicalBlames(src, prog, names, e, store, fuel);
    case Ternary(_, _, _) => TernaryBlames(src, prog, names, e, store, fuel);
    case Call(_, _, _) => CallBlames(src, prog, names, e, store, fuel);
  }

  lemma {:induction false} OneBlames(src: Source, prog: Program, names: seq<string>, e: Expr, store: Store, fuel: nat)
    requires (e.Negate? || e.Prefix?) && Known(src, prog) && ExprBound(e, names)
    ensures Blames(Eval(src, e, store, fuel))
    decreases fuel, e, 0
  {
    EvalBlames(src, prog, names, e.argument, store, fuel);
    var r := Eval(src, e.argument, store, fuel);
    if r.Success? {
      ArithmeticBlames(Sub, r.value.0, Int(0));
      if e.Prefix? { UnaryBlames(e.op, r.value.0); }
    }
  }

  lemma {:induction false} AssignBlames(src: Source, prog: Program, names: seq<string>, e: Expr, store: Store, fuel: nat)
    requires e.Assign? && Known(src, prog) && ExprBound(e, names)
    ensures Blames(Eval(src, e, store, fuel))
    decreases fuel, e, 0
  {
    EvalBlames(src, prog, names, e.rhs, store, fuel);
  }

  lemma {:induction false} PostfixBlames(src: Source, prog: Program, names: seq<string>, e: Expr, store: Store, fuel: nat)
    requires e.Postfix? && Known(src, prog) && ExprBound(e, names)
    ensures Blames(Eval(src, e, store, fuel))
    decreases fuel, e, 0
  {
    EvalBlames(src, prog, names, e.argument, store, fuel);
    var r := Eval(src, e.argument, store, fuel);
    if r.Success? {
      EvalBlames(src, prog, names, e.argument, r.value.1, fuel);
      var q := Eval(src, e.argument, r.value.1, fuel);
      if q.Success? { ArithmeticBlames(if e.increment then Add else Sub, q.value.0, Int(1)); }
    }
  }

  lemma {:induction false} BothBlame(src: Source, prog: Program, names: seq<string>, e: Expr, l: Expr, r: Expr, store: Store,
                                     fuel: nat)
    requires l < e && r < e && Known(src, prog) && ExprBound(l, names) && ExprBound(r, names)
    ensures var x := Eval(src, l, store, fuel);
            Blames(x) && (x.Success? ==> Blames(Eval(src, r, x.value.1, fuel)))
    decreases fuel, e, 0
  {
    EvalBlames(src, prog, names, l, store, fuel);
    var x := Eval(src, l, store, fuel);
    if x.Success? { EvalBlames(src, prog, names, r, x.value.1, fuel); }
  }

  lemma {:induction false} OpAssignBlames(src: Source, prog: Program, names: seq<string>, e: Expr, store: Store, fuel: nat)
    requires e.OpAssign? && Known(src, prog) && ExprBound(e, names)
    ensures Blames(Eval(src, e, store, fuel))
    decreases fuel, e, 1
  {
    BothBlame(src, prog, names, e, e.lhs, e.rhs, store, fuel);
    var x := Eval(src, e.lhs, store, fuel);
    if x.Success? {
      var y := Eval(src, e.rhs, x.value.1, fuel);
      if y.Success? { ArithmeticBlames(e.aop, x.value.0, y.value.0); }
    }
  }

  lemma {:induction false} BinaryBlames(src: Source, prog: Program, names: seq<string>, e: Expr, store: Store, fuel: nat)
    requires e.Binary? && Known(src, prog) && ExprBound(e, names)
    ensures Blames(Eval(src, e, store, fuel))
    decreases fuel, e, 1
  {
    BothBlame(src, prog, names, e, e.lhs, e.rhs, store, fuel);
    var x := Eval(src, e.lhs, store, fuel);
    if x.Success? {
      var y := Eval(src, e.rhs, x.value.1, fuel);
      if y.Success? { ArithmeticBlames(e.bop, x.value.0, y.value.0); }
    }
  }

  lemma {:induction false} LogicalBlames(src: Source, prog: Program, names: seq<string>, e: Expr, store: Store, fuel: nat)
    requires (e.And? || e.Or?) && Known(src, prog) && ExprBound(e, names)
    ensures Blames(Eval(src, e, store, fuel))
    decreases fuel, e, 1
  {
    BothBlame(src, prog, names, e, e.lhs, e.rhs, store, fuel);
    var x := Eval(src, e.lhs, store, fuel);
    if x.Success? {
      LogicalOperandsBlame(x.value.0, Eval(src, e.rhs, x.value.1, fuel));
    }
  }

  lemma LogicalOperandsBlame(a: Value, r: Effect<(Value, Store)>)
    requires Blames(r)
    ensures Blames(Lift(Test(a)))
    ensures r.Success? ==>
      Blames(Lift(Binop(LogicalAnd, Int(1), r.value.0))) && Blames(Lift(Binop(LogicalOr, Int(0), r.value.0)))
  {
    UnaryBlames(Not, a);
    if r.Success? {
      ArithmeticBlames(LogicalAnd, Int(1), r.value.0);
      ArithmeticBlames(LogicalOr, Int(0), r.value.0);
    }
  }

  lemma {:induction false} TernaryBlames(src: Source, prog: Program, names: seq<string>, e: Expr, store: Store, fuel: nat)
    requires e.Ternary? && Known(src, prog) && ExprBound(e, names)
    ensures Blames(Eval(src, e, store, fuel))
    decreases fuel, e, 1
  {
    BothBlame(src, prog, names, e, e.test, e.consequent, store, fuel);
    BothBlame(src, prog, names, e, e.test, e.alternative, store, fuel);
    var x := Eval(src, e.test, store, fuel);
    if x.Success? { UnaryBlames(Not, x.value.0); }
  }

  lemma {:induction false} CallBlames(src: Source, prog: Program, names: seq<string>, e: Expr, store: Store, fuel: nat)
    requires e.Call? && Known(src, prog) && ExprBound(e, names)
    ensures Blames(Eval(src, e, store, fuel))
    decreases fuel, e, 0
  {
    ArgumentsBlame(src, prog, names, e.arguments, store, fuel);
    var a := EvalArguments(src, e.arguments, store, fuel);
    if a.Success? {
      if e.receiver.Some? { EvalBlames(src, prog, names, e.receiver.value, a.value.1, fuel); }
      var r := EvalReceiver(src, e.receiver, a.value.1, fuel);
      var f := Lower(e.callee);
      if r.Success? && f in src && fuel > 0 { ApplyBlames(src, prog, f, r.value.0, a.value.0, fuel - 1); }
    }
  }

  lemma {:induction false} ArgumentsBlame(src: Source, prog: Program, names: seq<string>, es: seq<Expr>, store: Store, fuel: nat)
    requires Known(src, prog) && ExprsBound(es, names)
    ensures Blames(EvalArguments(src, es, store, fuel))
    decreases fuel, es, 0
  {
    if es != [] {
      ArgumentsBlame(src, prog, names, es[1..], store, fuel);
      var a := EvalArguments(src, es[1..], store, fuel);
      if a.Success? { EvalBlames(src, prog, names, es[0], a.value.1, fuel); }
    }
  }

  lemma {:induction false} ApplyBlames(src: Source, prog: Program, f: string, self: Value, args: seq<Value>, fuel: nat)
    requires Known(src, prog) && f in src
    ensures Blames(Apply(src, f, self, args, fuel))
    decreases fuel
  {
    ExecBlames(src, prog, prog[f].locals, src[f].body, Entry(self, src[f].parameters, args), fuel);
  }

  lemma {:induction false} OptionBlames(src: Source, prog: Program, names: seq<string>, e: Option<Expr>, store: Store, fuel: nat)
    requires Known(src, prog) && OptionBound(e, names)
    ensures Blames(EvalGuard(src, e, store, fuel)) && Blames(EvalDiscarded(src, e, store, fuel))
    decreases fuel, e, 0
  {
    if e.Some? { EvalBlames(src, prog, names, e.value, store, fuel); }
  }

  lemma {:induction false} ExecBlames(src: Source, prog: Program, names: seq<string>, s: Stmt, store: Store, fuel: nat)
    requires Known(src, prog) && StmtBound(s, names)
    ensures Blames(Exec(src, s, store, fuel))
    decreases fuel, s, 3
  {
    match s
    case ExprStmt(e) => EvalBlames(src, prog, names, e, store, fuel);
    case Return(value) => OptionBlames(src, prog, names, value, store, fuel);
    case Block(body) => AllBlame(src, prog, names, body, store, fuel);
    case If(t, a, b) =>
      EvalBlames(src, prog, names, t, store, fuel);
      var x := Eval(src, t, store, fuel);
      if x.Success? {
        UnaryBlames(Not, x.value.0);
        ExecBlames(src, prog, names, a, x.value.1, fuel);
        if b.Some? { ExecBlames(src, prog, names, b.value, x.value.1, fuel); }
      }
    case While(guard, loop) => LoopBlames(src, prog, names, s, guard, loop, None, store, fuel);
    case For(init, guard, update, loop) =>
      OptionBlames(src, prog, names, init, store, fuel);
      var x := EvalDiscarded(src, init, store, fuel);
      if x.Success? { LoopBlames(src, prog, names, s, guard, loop, update, x.value, fuel); }
    case Switch(_, _) => SwitchBlames(src, prog, names, s, store, fuel);
    case _ =>
  }

  lemma {:induction false} AllBlame(src: Source, prog: Program, names: seq<string>, ss: Stmts, store: Store, fuel: nat)
    requires Known(src, prog) && StmtsBound(ss, names)
    ensures Blames(ExecAll(src, ss, store, fuel))
    decreases fuel, ss, 0
  {
    if ss.Cons? {
      ExecBlames(src, prog, names, ss.head, store, fuel);
      var r := Exec(src, ss.head, store, fuel);
      if r.Success? && r.value.Normal? { AllBlame(src, prog, names, ss.tail, r.value.store, fuel); }
    }
  }

  lemma {:induction false} LoopBlames(src: Source, prog: Program, names: seq<string>, s: Stmt, guard: Option<Expr>, loop: Stmt,
                                      update: Option<Expr>, store: Store, fuel: nat)
    requires Known(src, prog) && OptionBound(guard, names) && StmtBound(loop, names) && OptionBound(update, names)
    requires (s decreases to guard) && (s decreases to loop) && (update.Some? ==> (s decreases to update))
    ensures Blames(ExecLoop(src, s, guard, loop, update, store, fuel))
    decreases fuel, s, 2
  {
    OptionBlames(src, prog, names, guard, store, fuel);
    var g := EvalGuard(src, guard, store, fuel);
    if g.Success? {
      UnaryBlames(Not, g.value.0);
      ExecBlames(src, prog, names, loop, g.value.1, fuel);
      var r := Exec(src, loop, g.value.1, fuel);
      if r.Success? && (r.value.Normal? || r.value.Continued?) {
        UpdateAndLoopBlame(src, prog, names, s, guard, loop, update, r.value.store, fuel);
      }
      LoopBlamesFrom(src, s, guard, loop, update, store, fuel, g.value.0, g.value.1, r);
    }
  }

  /** The loop has no faults that its parts do not have. */
  lemma LoopBlamesFrom(src: Source, s: Stmt, guard: Option<Expr>, loop: Stmt, update: Option<Expr>, store: Store, fuel: nat,
                       v: Value, s1: Store, r: Effect<Flow>)
    requires (s decreases to guard) && (s decreases to loop) && (update.Some? ==> (s decreases to update))
    requires EvalGuard(src, guard, store, fuel) == Success((v, s1)) && Blames(Lift(Test(v)))
    requires r == Exec(src, loop, s1, fuel) && Blames(r)
    requires r.Success? && (r.value.Normal? || r.value.Continued?) ==>
               var u := EvalDiscarded(src, update, r.value.store, fuel);
               Blames(u) && (u.Success? && fuel > 0 ==> Blames(ExecLoop(src, s, guard, loop, update, u.value, fuel - 1)))
    ensures Blames(ExecLoop(src, s, guard, loop, update, store, fuel))
  {
  }

  lemma {:induction false} UpdateAndLoopBlame(src: Source, prog: Program, names: seq<string>, s: Stmt, guard: Option<Expr>,
                                              loop: Stmt, update: Option<Expr>, store: Store, fuel: nat)
    requires Known(src, prog) && OptionBound(guard, names) && StmtBound(loop, names) && OptionBound(update, names)
    requires (s decreases to guard) && (s decreases to loop) && (update.Some? ==> (s decreases to update))
    ensures var u := EvalDiscarded(src, update, store, fuel);
            Blames(u) && (u.Success? && fuel > 0 ==> Blames(ExecLoop(src, s, guard, loop, update, u.value, fuel - 1)))
    decreases fuel, s, 1
  {
    if update.Some? { OptionBlames(src, prog, names, update, store, fuel); }
    var u := EvalDiscarded(src, update, store, fuel);
    if u.Success? && fuel > 0 { LoopBlames(src, prog, names, s, guard, loop, update, u.value, fuel - 1); }
  }

  lemma {:induction false} ChooseBlames(src: Source, prog: Program, names: seq<string>, s: Stmt, cases: Cases, store: Store,
                                        fuel: nat)
    requires Known(src, prog) && s.Switch? && (s decreases to cases) && CasesBound(s.discriminant, cases, names)
    ensures Blames(Choose(src, s, cases, store, fuel))
    ensures var r := Choose(src, s, cases, store, fuel);
            r.Success? && r.value.0.Some? ==> CasesBound(s.discriminant, r.value.0.value, names)
    decreases fuel, s, 1, cases
  {
    if cases.Case? {
      if cases.test.None? {
        ChooseBlames(src, prog, names, s, cases.rest, store, fuel);
      } else {
        EvalBlames(src, prog, names, s.discriminant, store, fuel);
        var a := Eval(src, s.discriminant, store, fuel);
        if a.Success? {
          EvalBlames(src, prog, names, cases.test.value, a.value.1, fuel);
          var b := Eval(src, cases.test.value, a.value.1, fuel);
          if b.Success? {
            ArithmeticBlames(Equal, a.value.0, b.value.0);
            var q := Binop(Equal, a.value.0, b.value.0);
            if q.Success? { UnaryBlames(Not, q.value); }
            ChooseBlames(src, prog, names, s, cases.rest, b.value.1, fuel);
          }
        }
      }
    }
  }

  lemma {:induction false} BodiesBlame(src: Source, prog: Program, names: seq<string>, d: Expr, cases: Cases, store: Store,
                                       fuel: nat)
    requires Known(src, prog) && CasesBound(d, cases, names)
    ensures Blames(ExecBodies(src, cases, store, fuel))
    decreases fuel, cases, 1
  {
    if cases.Case? {
      if cases.test.None? {
        BodiesBlame(src, prog, names, d, cases.rest, store, fuel);
      } else {
        AllBlame(src, prog, names, cases.consequent, store, fuel);
        var r := ExecAll(src, cases.consequent, store, fuel);
        if r.Success? && r.value.Normal? { BodiesBlame(src, prog, names, d, cases.rest, r.value.store, fuel); }
      }
    }
  }

  lemma {:induction false} SwitchBlames(src: Source, prog: Program, names: seq<string>, s: Stmt, store: Store, fuel: nat)
    requires s.Switch? && Known(src, prog) && StmtBound(s, names)
    ensures Blames(Exec(src, s, store, fuel))
    decreases fuel, s, 2
  {
    ChooseBlames(src, prog, names, s, s.cases, store, fuel);
    var c := Choose(src, s, s.cases, store, fuel);
    if c.Success? {
      BodiesThenDefaultBlame(src, prog, names, s, c.value.0, c.value.1, fuel);
    }
  }

  lemma {:induction false} BodiesThenDefaultBlame(src: Source, prog: Program, names: seq<string>, s: Stmt,
                                                  chosen: Option<Cases>, store: Store, fuel: nat)
    requires s.Switch? && Known(src, prog) && StmtBound(s, names)
    requires chosen.Some? ==> chosen.value == s.cases || (s.cases decreases to chosen.value)
    requires chosen.Some? ==> CasesBound(s.discriminant, chosen.value, names)
    ensures Blames(ExecSwitch(src, s.cases, chosen, store, fuel))
    decreases fuel, s, 1
  {
    var default := DefaultBody(s.cases);
    if default.Some? { AllBlame(src, prog, names, default.value, store, fuel); }
    var start := if chosen.Some? then chosen.value else s.cases;
    BodiesBlame(src, prog, names, s.discriminant, start, store, fuel);
    var r := ExecBodies(src, start, store, fuel);
    if r.Success? && r.value.Normal? && default.Some? {
      AllBlame(src, prog, names, default.value, r.value.store, fuel);
    }
  }
}
