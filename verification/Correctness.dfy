/** Compiler correctness: every compiled function does what its source means, whatever the fuel. */
module Correctness {
  import opened Wrappers
  import opened Values
  import opened Syntax
  import opened Bytecode
  import opened Emitter
  import opened Pieces
  import opened Shapes
  import opened Layout
  import opened Placement
  import opened Statements
  import opened Machine
  import opened Semantics
  import opened Runs
  import opened Locals
  import opened Linking
  import opened Glue
  import opened Runners
  import opened Calling
  import opened Flowing
  import opened Looping
  import opened Switching
  import opened Simulation
  import opened Behaviour

  // ---- loops ----

  /** A loop of the statement `s`; `guard`, `loop` and `update` are parts of `s`. */
  predicate LoopOf(s: Stmt, guard: Option<Expr>, loop: Stmt, update: Option<Expr>) {
    || (s.While? && guard == s.guard && loop == s.loop && update == None)
    || (s.For? && guard == s.guard && loop == s.loop && update == s.update)
  }

  function ExLoop(src: Source, s: Stmt, guard: Option<Expr>, loop: Stmt, update: Option<Expr>, fuel: nat): FlowMeaning
    requires LoopOf(s, guard, loop, update)
  {
    store => ExecLoop(src, s, guard, loop, update, store, fuel)
  }

  function LoopPieceOf(w: Context, guard: Option<Expr>, loop: Stmt, update: Option<Expr>): Piece {
    LoopPiece(GuardCode(guard, w.names), StmtPiece(loop, w.names), DiscardedCode(update, w.names))
  }

  ghost predicate LoopObeys(src: Source, w: Context, s: Stmt, guard: Option<Expr>, loop: Stmt, update: Option<Expr>, fuel: nat)
    requires LoopOf(s, guard, loop, update)
  {
    StmtDoes(w, LoopPieceOf(w, guard, loop, update), false, false, ExLoop(src, s, guard, loop, update, fuel), fuel)
  }

  /** The loop again, with less fuel; not used without fuel. */
  function NextLoop(src: Source, s: Stmt, guard: Option<Expr>, loop: Stmt, update: Option<Expr>, fuel: nat): FlowMeaning
    requires LoopOf(s, guard, loop, update)
  {
    if fuel == 0 then store => Failure(OutOfFuel) else ExLoop(src, s, guard, loop, update, fuel - 1)
  }

  lemma LoopMeans(src: Source, s: Stmt, guard: Option<Expr>, loop: Stmt, update: Option<Expr>, store: Store, fuel: nat)
    requires LoopOf(s, guard, loop, update)
    ensures ExecLoop(src, s, guard, loop, update, store, fuel) ==
            LoopMeaning(EvGuard(src, guard, fuel), Ex(src, loop, fuel), EvDiscarded(src, update, fuel),
                        NextLoop(src, s, guard, loop, update, fuel), fuel, store)
  {
  }

  lemma LoopCase(src: Source, w: Context, s: Stmt, guard: Option<Expr>, loop: Stmt, update: Option<Expr>, fuel: nat)
    requires LoopOf(s, guard, loop, update)
    requires GuardDoes(src, w, guard, fuel) && Obeys(src, w, loop, true, true, fuel) && DiscardedDoes(src, w, update, fuel)
    requires fuel > 0 ==> LoopObeys(src, w, s, guard, loop, update, fuel - 1)
    ensures LoopObeys(src, w, s, guard, loop, update, fuel)
  {
    var p, m := LoopPieceOf(w, guard, loop, update), ExLoop(src, s, guard, loop, update, fuel);
    var next := NextLoop(src, s, guard, loop, update, fuel);
    LoopDoes(w, GuardCode(guard, w.names), EvGuard(src, guard, fuel), StmtPiece(loop, w.names), Ex(src, loop, fuel),
             DiscardedCode(update, w.names), EvDiscarded(src, update, fuel), next, fuel);
    var k := LoopFlow(EvGuard(src, guard, fuel), Ex(src, loop, fuel), EvDiscarded(src, update, fuel), next, fuel);
    forall store ensures m(store) == k(store) {
      LoopMeans(src, s, guard, loop, update, store, fuel);
    }
    SameDoes(w, p, false, false, k, m, fuel);
  }

  /** A loop never breaks or continues out of itself. */
  lemma LoopStatement(src: Source, w: Context, s: Stmt, b: bool, c: bool, fuel: nat)
    requires s.While? && LoopObeys(src, w, s, s.guard, s.loop, None, fuel)
    ensures Obeys(src, w, s, b, c, fuel)
  {
    var k := ExLoop(src, s, s.guard, s.loop, None, fuel);
    Closed(w, StmtPiece(s, w.names), b, c, k, fuel);
    SameDoes(w, StmtPiece(s, w.names), b, c, k, Ex(src, s, fuel), fuel);
  }

  lemma Closed(w: Context, p: Piece, b: bool, c: bool, m: FlowMeaning, fuel: nat)
    requires StmtDoes(w, p, false, false, m, fuel)
    ensures StmtDoes(w, p, b, c, m, fuel)
  {
    forall t, store, brk, cont | Targets(b, c, brk, cont) && Starts(w, t, store, Render(p, brk, cont))
      ensures Allowed(m(store), b, c) && Ends(w, t, Size(p), brk, cont, m(store), fuel)
    {
      assert Targets(false, false, brk, cont);
    }
  }

  lemma ForStatement(src: Source, w: Context, s: Stmt, b: bool, c: bool, fuel: nat)
    requires s.For? && DiscardedDoes(src, w, s.init, fuel) && LoopObeys(src, w, s, s.guard, s.loop, s.update, fuel)
    ensures Obeys(src, w, s, b, c, fuel)
  {
    var i, im := DiscardedCode(s.init, w.names), EvDiscarded(src, s.init, fuel);
    var q, k := LoopPieceOf(w, s.guard, s.loop, s.update), ExLoop(src, s, s.guard, s.loop, s.update, fuel);
    FixedDoes(w, i, im, b, c, fuel);
    Closed(w, q, b, c, k, fuel);
    SequelDoes(w, Fixed(i), PlainFlow(im), q, k, b, c, fuel);
    forall store ensures Ex(src, s, fuel)(store) == SequelFlow(PlainFlow(im), k)(store) {
      assert Ex(src, s, fuel)(store) == Exec(src, s, store, fuel);
    }
    SameDoes(w, StmtPiece(s, w.names), b, c, SequelFlow(PlainFlow(im), k), Ex(src, s, fuel), fuel);
  }

  // ---- switches ----

  ghost function SidesOf(src: Source, d: Expr, cases: Cases, names: seq<string>, fuel: nat): Sides {
    match cases
    case NoCases => NoSides
    case Case(test, body, rest) =>
      var sides := SidesOf(src, d, rest, names, fuel);
      if test.None? then sides
      else Side(TestCode(d, test.value, names), HitOf(src, d, test.value, fuel), StmtsPiece(body, names),
                ExAll(src, body, fuel), sides)
  }

  function HitOf(src: Source, d: Expr, test: Expr, fuel: nat): Hit {
    store => HitMeaning(Ev(src, d, fuel), Ev(src, test, fuel), store)
  }

  lemma {:induction false} ArmsOfSides(src: Source, d: Expr, cases: Cases, names: seq<string>, fuel: nat)
    ensures ArmsFrom(SidesOf(src, d, cases, names, fuel)) == ArmsOf(d, cases, names)
    decreases cases
  {
    if cases.Case? {
      ArmsOfSides(src, d, cases.rest, names, fuel);
    }
  }

  lemma HitCase(src: Source, w: Context, d: Expr, test: Expr, fuel: nat)
    requires ExprDoes(src, w, d, fuel) && ExprDoes(src, w, test, fuel)
    ensures HitDoes(w, TestCode(d, test, w.names), HitOf(src, d, test, fuel), fuel)
  {
    var code, hit := TestCode(d, test, w.names), HitOf(src, d, test, fuel);
    forall t, store | Starts(w, t, store, code) ensures Leads(w.prog, t, HitGoal(w, t, |code|, hit(store), fuel)) {
      HitRuns(w, ExprCode(d, w.names), Ev(src, d, fuel), ExprCode(test, w.names), Ev(src, test, fuel), t, store, |code|, fuel);
    }
  }

  /** What picking a side is in terms of cases. */
  ghost predicate SamePick(src: Source, d: Expr, names: seq<string>, fuel: nat, r: Effect<(Option<Cases>, Store)>,
                           q: Effect<(Sides, Store)>)
  {
    match r
    case Failure(e) => q == Failure(e)
    case Success((None, s)) => q == Success((NoSides, s))
    case Success((Some(cases), s)) =>
      cases.Case? && cases.test.Some? && q == Success((SidesOf(src, d, cases, names, fuel), s))
  }

  lemma {:induction false} ChooseIsPick(src: Source, s: Stmt, cases: Cases, names: seq<string>, store: Store, fuel: nat)
    requires s.Switch? && (s decreases to cases)
    ensures SamePick(src, s.discriminant, names, fuel, Choose(src, s, cases, store, fuel),
                     Pick(SidesOf(src, s.discriminant, cases, names, fuel), store))
    decreases cases
  {
    if cases.Case? {
      if cases.test.None? {
        ChooseIsPick(src, s, cases.rest, names, store, fuel);
      } else {
        var r := HitOf(src, s.discriminant, cases.test.value, fuel)(store);
        if r.Success? && !r.value.0 {
          ChooseIsPick(src, s, cases.rest, names, r.value.1, fuel);
        }
      }
    }
  }

  lemma {:induction false} BodiesAreFall(src: Source, d: Expr, cases: Cases, names: seq<string>, store: Store, fuel: nat)
    ensures ExecBodies(src, cases, store, fuel) == FallThrough(SidesOf(src, d, cases, names, fuel), store)
    decreases cases
  {
    if cases.Case? {
      if cases.test.None? {
        BodiesAreFall(src, d, cases.rest, names, store, fuel);
      } else {
        var r := ExecAll(src, cases.consequent, store, fuel);
        if r.Success? && r.value.Normal? {
          BodiesAreFall(src, d, cases.rest, names, r.value.store, fuel);
        }
      }
    }
  }

  function DefaultFlow(src: Source, cases: Cases, fuel: nat): FlowMeaning {
    match DefaultBody(cases) case None => store => Success(Normal(store)) case Some(body) => ExAll(src, body, fuel)
  }

  lemma ExecSwitchIsAfter(src: Source, d: Expr, cases: Cases, chosen: Option<Cases>, names: seq<string>, store: Store, fuel: nat)
    requires chosen.Some? ==> chosen.value == cases || (cases decreases to chosen.value)
    requires chosen.Some? ==> chosen.value.Case? && chosen.value.test.Some?
    ensures ExecSwitch(src, cases, chosen, store, fuel) ==
            After(SidesOf(src, d, cases, names, fuel), DefaultBody(cases).Some?, DefaultFlow(src, cases, fuel),
                  if chosen.Some? then SidesOf(src, d, chosen.value, names, fuel) else NoSides, store)
  {
    BodiesAreFall(src, d, if chosen.Some? then chosen.value else cases, names, store, fuel);
  }

  lemma SwitchMeans(src: Source, s: Stmt, names: seq<string>, store: Store, fuel: nat)
    requires s.Switch?
    ensures Exec(src, s, store, fuel) ==
            SwitchMeaning(SidesOf(src, s.discriminant, s.cases, names, fuel), DefaultBody(s.cases).Some?,
                          DefaultFlow(src, s.cases, fuel), store)
  {
    ChooseIsPick(src, s, s.cases, names, store, fuel);
    var r := Choose(src, s, s.cases, store, fuel);
    if r.Success? {
      ExecSwitchIsAfter(src, s.discriminant, s.cases, r.value.0, names, r.value.1, fuel);
    }
  }

  lemma SwitchCase(src: Source, w: Context, s: Stmt, b: bool, c: bool, fuel: nat)
    requires s.Switch? && SidesDo(w, SidesOf(src, s.discriminant, s.cases, w.names, fuel), true, c, fuel)
    requires DefaultBody(s.cases).Some? ==> AllObey(src, w, DefaultBody(s.cases).value, true, c, fuel)
    ensures Obeys(src, w, s, b, c, fuel)
  {
    var sides, default := SidesOf(src, s.discriminant, s.cases, w.names, fuel), DefaultPiece(s.cases, w.names);
    var dm := DefaultFlow(src, s.cases, fuel);
    ArmsOfSides(src, s.discriminant, s.cases, w.names, fuel);
    if default.None? {
      NothingDoes(w, true, c, fuel);
      SameDoes(w, Fixed([]), true, c, PlainFlow(Unchanged()), dm, fuel);
    }
    SwitchDoes(w, sides, default, dm, b, c, fuel);
    forall store ensures Ex(src, s, fuel)(store) == SwitchFlow(sides, default.Some?, dm)(store) {
      SwitchMeans(src, s, w.names, store, fuel);
    }
    SameDoes(w, StmtPiece(s, w.names), b, c, SwitchFlow(sides, default.Some?, dm), Ex(src, s, fuel), fuel);
  }

  function Unchanged(): Change {
    store => Success(store)
  }

  lemma NothingDoes(w: Context, b: bool, c: bool, fuel: nat)
    ensures StmtDoes(w, Fixed([]), b, c, PlainFlow(Unchanged()), fuel)
  {
    forall t, store | Starts(w, t, store, []) ensures Changes(w, t, 0, Unchanged()(store), fuel) {
      NothingRuns(w, t, store, fuel);
    }
    FixedDoes(w, [], Unchanged(), b, c, fuel);
  }

  // ---- the induction: on the fuel, and on the syntax for a given fuel ----

  ghost predicate Good(src: Source, w: Context) {
    Linked(src, w.prog) && Distinct(w.names) && HasSelf(w.names)
  }

  lemma {:induction false} ExprSim(src: Source, w: Context, e: Expr, fuel: nat)
    requires Good(src, w) && ExprBound(e, w.names)
    ensures ExprDoes(src, w, e, fuel)
    decreases fuel, e, 2
  {
    match e
    case Lit(_) => LeafCase(src, w, e, fuel);
    case Self => LeafCase(src, w, e, fuel);
    case Id(_) => LeafCase(src, w, e, fuel);
    case Group(a) => ExprSim(src, w, a, fuel); GroupCase(src, w, e, fuel);
    case Negate(a) => ExprSim(src, w, a, fuel); NegateCase(src, w, e, fuel);
    case Prefix(_, a) => ExprSim(src, w, a, fuel); PrefixCase(src, w, e, fuel);
    case Postfix(_, a) => ExprSim(src, w, a, fuel); LvalueSlot(w, a); PostfixCase(src, w, e, fuel);
    case Assign(l, r) => ExprSim(src, w, r, fuel); LvalueSlot(w, l); AssignCase(src, w, e, fuel);
    case OpAssign(_, l, r) =>
      ExprSim(src, w, l, fuel);
      ExprSim(src, w, r, fuel);
      LvalueSlot(w, l);
      OpAssignCase(src, w, e, fuel);
    case Binary(_, l, r) => ExprSim(src, w, l, fuel); ExprSim(src, w, r, fuel); BinaryCase(src, w, e, fuel);
    case And(l, r) => ExprSim(src, w, l, fuel); ExprSim(src, w, r, fuel); LogicalCase(src, w, e, fuel);
    case Or(l, r) => ExprSim(src, w, l, fuel); ExprSim(src, w, r, fuel); LogicalCase(src, w, e, fuel);
    case Ternary(t, a, b) =>
      ExprSim(src, w, t, fuel);
      ExprSim(src, w, a, fuel);
      ExprSim(src, w, b, fuel);
      TernaryCase(src, w, e, fuel);
    case Call(_, _, _) => CallSim(src, w, e, fuel);
  }

  lemma GroupCase(src: Source, w: Context, e: Expr, fuel: nat)
    requires e.Group? && ExprDoes(src, w, e.inner, fuel)
    ensures ExprDoes(src, w, e, fuel)
  {
    var c, m := ExprCode(e.inner, w.names), Ev(src, e.inner, fuel);
    forall t, store | Starts(w, t, store, c) ensures Reaches(w, t, |c|, Ev(src, e, fuel)(store), fuel) {
      var f := RunAt(w, c, m, t, t, 0, store, fuel);
    }
  }

  lemma {:induction false} OptionSim(src: Source, w: Context, e: Option<Expr>, fuel: nat)
    requires Good(src, w) && OptionBound(e, w.names)
    ensures OptionDoes(src, w, e, fuel)
    decreases fuel, e, 0
  {
    if e.Some? {
      ExprSim(src, w, e.value, fuel);
    }
  }

  lemma {:induction false} CallSim(src: Source, w: Context, e: Expr, fuel: nat)
    requires e.Call? && Good(src, w) && ExprBound(e, w.names)
    ensures ExprDoes(src, w, e, fuel)
    decreases fuel, e, 1
  {
    var f := Lower(e.callee);
    ArgumentsSim(src, w, e.arguments, fuel);
    OptionSim(src, w, e.receiver, fuel);
    ReceiverCase(src, w, e.receiver, fuel);
    if f in src && fuel > 0 {
      CalleeSim(src, w.prog, f, fuel - 1);
    }
    CallCase(src, w, e, fuel);
  }

  lemma {:induction false} ArgumentsSim(src: Source, w: Context, es: seq<Expr>, fuel: nat)
    requires Good(src, w) && ExprsBound(es, w.names)
    ensures ArgumentsDo(src, w, es, fuel)
    decreases fuel, es, 0
  {
    if es == [] {
      NoArguments(src, w, es, fuel);
    } else {
      ArgumentsSim(src, w, es[1..], fuel);
      ExprSim(src, w, es[0], fuel);
      MoreArguments(src, w, es, fuel);
    }
  }

  /** A function of the program does, when it is called, what applying it means. */
  lemma {:induction false} CalleeSim(src: Source, prog: Program, f: string, fuel: nat)
    requires Linked(src, prog) && f in src
    ensures CalleeDoes(src, prog, f, fuel)
    decreases fuel
  {
    var w := Context(prog, prog[f].locals);
    StmtSim(src, w, src[f].body, false, false, fuel);
    CalleeCase(src, w, f, fuel);
  }

  lemma CalleeCase(src: Source, w: Context, f: string, fuel: nat)
    requires f in src && f in w.prog && w.names == w.prog[f].locals && Compiled(src[f], w.prog[f])
    requires Obeys(src, w, src[f].body, false, false, fuel)
    ensures CalleeDoes(src, w.prog, f, fuel)
  {
    var r, g := src[f], w.prog[f];
    var p := StmtPiece(r.body, w.names);
    forall u: Thread, self, args |
      u.callers != [] && u.top == Frame(g.code, Represent(g.locals, Entry(self, r.parameters, args)), 0)
      ensures Answers(w.prog, u, Applied(src, f, fuel)(self, args), fuel)
    {
      var store := Entry(self, r.parameters, args);
      assert g.code[0..|g.code|] == g.code;
      BodyAnswers(w, p, Ex(src, r.body, fuel), u, store, fuel);
    }
  }

  lemma {:induction false} StmtSim(src: Source, w: Context, s: Stmt, b: bool, c: bool, fuel: nat)
    requires Good(src, w) && StmtBound(s, w.names) && WellScoped(s, b, c)
    ensures Obeys(src, w, s, b, c, fuel)
    decreases fuel, s, 2
  {
    match s
    case Empty => EmptyCase(src, w, s, b, c, fuel);
    case ExprStmt(e) =>
      ExprSim(src, w, e, fuel);
      DiscardedCase(src, w, Some(e), fuel);
      ExprStmtCase(src, w, s, b, c, fuel);
    case Return(value) => OptionSim(src, w, value, fuel); ReturnCase(src, w, s, b, c, fuel);
    case Block(body) => StmtsSim(src, w, body, b, c, fuel); BlockCase(src, w, s, b, c, fuel);
    case If(_, _, _) => IfSim(src, w, s, b, c, fuel);
    case While(guard, loop) => LoopSim(src, w, s, guard, loop, None, fuel); LoopStatement(src, w, s, b, c, fuel);
    case For(init, guard, update, loop) =>
      OptionSim(src, w, init, fuel);
      DiscardedCase(src, w, init, fuel);
      LoopSim(src, w, s, guard, loop, update, fuel);
      ForStatement(src, w, s, b, c, fuel);
    case Switch(_, _) => SwitchSim(src, w, s, b, c, fuel);
    case Break => LeaveCase(src, w, s, b, c, fuel);
    case Continue => LeaveCase(src, w, s, b, c, fuel);
  }

  lemma {:induction false} IfSim(src: Source, w: Context, s: Stmt, b: bool, c: bool, fuel: nat)
    requires s.If? && Good(src, w) && StmtBound(s, w.names) && WellScoped(s, b, c)
    ensures Obeys(src, w, s, b, c, fuel)
    decreases fuel, s, 1
  {
    ExprSim(src, w, s.test, fuel);
    StmtSim(src, w, s.consequent, b, c, fuel);
    if s.alternative.None? {
      IfCase(src, w, s, b, c, fuel);
    } else {
      StmtSim(src, w, s.alternative.value, b, c, fuel);
      ElseCase(src, w, s, b, c, fuel);
    }
  }

  lemma {:induction false} StmtsSim(src: Source, w: Context, ss: Stmts, b: bool, c: bool, fuel: nat)
    requires Good(src, w) && StmtsBound(ss, w.names) && AllScoped(ss, b, c)
    ensures AllObey(src, w, ss, b, c, fuel)
    decreases fuel, ss, 0
  {
    if ss.Nil? {
      NilCase(src, w, ss, b, c, fuel);
    } else {
      StmtSim(src, w, ss.head, b, c, fuel);
      StmtsSim(src, w, ss.tail, b, c, fuel);
      ConsCase(src, w, ss, b, c, fuel);
    }
  }

  lemma {:induction false} LoopSim(src: Source, w: Context, s: Stmt, guard: Option<Expr>, loop: Stmt, update: Option<Expr>,
                                   fuel: nat)
    requires Good(src, w) && LoopOf(s, guard, loop, update) && StmtBound(s, w.names) && WellScoped(s, false, false)
    ensures LoopObeys(src, w, s, guard, loop, update, fuel)
    decreases fuel, s, 1
  {
    OptionSim(src, w, guard, fuel);
    GuardCase(src, w, guard, fuel);
    StmtSim(src, w, loop, true, true, fuel);
    if update.Some? {
      OptionSim(src, w, update, fuel);
    }
    DiscardedCase(src, w, update, fuel);
    if fuel > 0 {
      LoopSim(src, w, s, guard, loop, update, fuel - 1);
    }
    LoopCase(src, w, s, guard, loop, update, fuel);
  }

  lemma {:induction false} SwitchSim(src: Source, w: Context, s: Stmt, b: bool, c: bool, fuel: nat)
    requires s.Switch? && Good(src, w) && StmtBound(s, w.names) && WellScoped(s, b, c)
    ensures Obeys(src, w, s, b, c, fuel)
    decreases fuel, s, 1
  {
    CasesSim(src, w, s, s.cases, c, fuel);
    if DefaultBody(s.cases).Some? {
      DefaultScoped(s.cases, c);
      StmtsSim(src, w, DefaultBody(s.cases).value, true, c, fuel);
    }
    SwitchCase(src, w, s, b, c, fuel);
  }

  lemma {:induction false} DefaultScoped(cases: Cases, c: bool)
    requires CasesScoped(cases, c) && DefaultBody(cases).Some?
    ensures AllScoped(DefaultBody(cases).value, true, c)
    decreases cases
  {
    if DefaultBody(cases.rest).Some? {
      DefaultScoped(cases.rest, c);
    }
  }

  lemma {:induction false} CasesSim(src: Source, w: Context, s: Stmt, cases: Cases, c: bool, fuel: nat)
    requires s.Switch? && (s decreases to cases) && Good(src, w)
    requires CasesBound(s.discriminant, cases, w.names) && CasesScoped(cases, c)
    ensures SidesDo(w, SidesOf(src, s.discriminant, cases, w.names, fuel), true, c, fuel)
    decreases fuel, s, 0, cases
  {
    if cases.Case? {
      CasesSim(src, w, s, cases.rest, c, fuel);
      if cases.test.Some? {
        ExprSim(src, w, s.discriminant, fuel);
        ExprSim(src, w, cases.test.value, fuel);
        HitCase(src, w, s.discriminant, cases.test.value, fuel);
        StmtsSim(src, w, cases.consequent, true, c, fuel);
      }
    }
  }
}
