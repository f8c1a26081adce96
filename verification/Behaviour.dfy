/** Statements: the resolved code does what the statement means. */
module Behaviour {
  import opened Wrappers
  import opened Values
  import opened Syntax
  import opened Bytecode
  import opened Emitter
  import opened Pieces
  import opened Shapes
  import opened Layout
  import opened Placement
  import opened Machine
  import opened Semantics
  import opened Runs
  import opened Locals
  import opened Glue
  import opened Runners
  import opened Calling
  import opened Flowing
  import opened Looping
  import opened Switching
  import opened Simulation

  function Ex(src: Source, s: Stmt, fuel: nat): FlowMeaning {
    store => Exec(src, s, store, fuel)
  }

  function ExAll(src: Source, ss: Stmts, fuel: nat): FlowMeaning {
    store => ExecAll(src, ss, store, fuel)
  }

  function EvDiscarded(src: Source, e: Option<Expr>, fuel: nat): Change {
    store => EvalDiscarded(src, e, store, fuel)
  }

  function EvGuard(src: Source, e: Option<Expr>, fuel: nat): Meaning {
    store => EvalGuard(src, e, store, fuel)
  }

  ghost predicate Obeys(src: Source, w: Context, s: Stmt, b: bool, c: bool, fuel: nat) {
    StmtDoes(w, StmtPiece(s, w.names), b, c, Ex(src, s, fuel), fuel)
  }

  ghost predicate AllObey(src: Source, w: Context, ss: Stmts, b: bool, c: bool, fuel: nat) {
    StmtDoes(w, StmtsPiece(ss, w.names), b, c, ExAll(src, ss, fuel), fuel)
  }

  ghost predicate GuardDoes(src: Source, w: Context, e: Option<Expr>, fuel: nat) {
    Does(w, GuardCode(e, w.names), EvGuard(src, e, fuel), fuel)
  }

  ghost predicate DiscardedDoes(src: Source, w: Context, e: Option<Expr>, fuel: nat) {
    CodeDoes(w, DiscardedCode(e, w.names), EvDiscarded(src, e, fuel), fuel)
  }

  ghost predicate OptionDoes(src: Source, w: Context, e: Option<Expr>, fuel: nat) {
    e.Some? ==> ExprDoes(src, w, e.value, fuel)
  }

  lemma GuardCase(src: Source, w: Context, e: Option<Expr>, fuel: nat)
    requires OptionDoes(src, w, e, fuel)
    ensures GuardDoes(src, w, e, fuel)
  {
    var c, m := GuardCode(e, w.names), EvGuard(src, e, fuel);
    forall t, store | Starts(w, t, store, c) ensures Reaches(w, t, |c|, m(store), fuel) {
      if e.Some? {
        var f := RunAt(w, c, Ev(src, e.value, fuel), t, t, 0, store, fuel);
      } else {
        PushStep(w.prog, t, CONST(true), Int(1));
        assert Leads(w.prog, t, ExprGoal(w, t, 1, m(store), fuel, t.flag));
      }
    }
  }

  lemma DiscardedCase(src: Source, w: Context, e: Option<Expr>, fuel: nat)
    requires OptionDoes(src, w, e, fuel)
    ensures DiscardedDoes(src, w, e, fuel)
  {
    var c, m := DiscardedCode(e, w.names), EvDiscarded(src, e, fuel);
    forall t, store | Starts(w, t, store, c) ensures Changes(w, t, |c|, m(store), fuel) {
      if e.Some? {
        DiscardRuns(w, ExprCode(e.value, w.names), Ev(src, e.value, fuel), t, store, fuel);
      } else {
        NothingRuns(w, t, store, fuel);
      }
    }
  }

  lemma EmptyCase(src: Source, w: Context, s: Stmt, b: bool, c: bool, fuel: nat)
    requires s.Empty?
    ensures Obeys(src, w, s, b, c, fuel)
  {
    var p, m := StmtPiece(s, w.names), Ex(src, s, fuel);
    forall t, store, brk, cont | Targets(b, c, brk, cont) && Starts(w, t, store, Render(p, brk, cont))
      ensures Allowed(m(store), b, c) && Ends(w, t, Size(p), brk, cont, m(store), fuel)
    {
      LeadsNowhere(w.prog, t);
      EndsNormally(w, t, 0, brk, cont, store, t.flag, fuel);
    }
  }

  lemma ExprStmtCase(src: Source, w: Context, s: Stmt, b: bool, c: bool, fuel: nat)
    requires s.ExprStmt? && DiscardedDoes(src, w, Some(s.expression), fuel)
    ensures Obeys(src, w, s, b, c, fuel)
  {
    var p, m := StmtPiece(s, w.names), Ex(src, s, fuel);
    var e := Some(s.expression);
    forall t, store, brk, cont | Targets(b, c, brk, cont) && Starts(w, t, store, Render(p, brk, cont))
      ensures Allowed(m(store), b, c) && Ends(w, t, Size(p), brk, cont, m(store), fuel)
    {
      FixedRuns(w, DiscardedCode(e, w.names), EvDiscarded(src, e, fuel), t, store, brk, cont, fuel);
    }
  }

  function UndefinedMeaning(): Meaning {
    store => Success((Undefined, store))
  }

  lemma UndefinedDoes(w: Context, fuel: nat)
    ensures Does(w, [UNDEF], UndefinedMeaning(), fuel)
  {
    forall t, store | Starts(w, t, store, [UNDEF]) ensures Reaches(w, t, 1, UndefinedMeaning()(store), fuel) {
      PushStep(w.prog, t, UNDEF, Undefined);
      assert Leads(w.prog, t, ExprGoal(w, t, 1, UndefinedMeaning()(store), fuel, t.flag));
    }
  }

  lemma ReturnCase(src: Source, w: Context, s: Stmt, b: bool, c: bool, fuel: nat)
    requires s.Return? && OptionDoes(src, w, s.value, fuel)
    ensures Obeys(src, w, s, b, c, fuel)
  {
    var p, m := StmtPiece(s, w.names), Ex(src, s, fuel);
    forall t, store, brk, cont | Targets(b, c, brk, cont) && Starts(w, t, store, Render(p, brk, cont))
      ensures Allowed(m(store), b, c) && Ends(w, t, Size(p), brk, cont, m(store), fuel)
    {
      if s.value.Some? {
        ReturnRuns(w, ExprCode(s.value.value, w.names), Ev(src, s.value.value, fuel), t, store, brk, cont, fuel);
      } else {
        UndefinedDoes(w, fuel);
        ReturnRuns(w, [UNDEF], UndefinedMeaning(), t, store, brk, cont, fuel);
      }
    }
  }

  lemma BlockCase(src: Source, w: Context, s: Stmt, b: bool, c: bool, fuel: nat)
    requires s.Block? && AllObey(src, w, s.body, b, c, fuel)
    ensures Obeys(src, w, s, b, c, fuel)
  {
    var p, m := StmtPiece(s, w.names), Ex(src, s, fuel);
    forall t, store, brk, cont | Targets(b, c, brk, cont) && Starts(w, t, store, Render(p, brk, cont))
      ensures Allowed(m(store), b, c) && Ends(w, t, Size(p), brk, cont, m(store), fuel)
    {
      FlowAt(w, p, b, c, ExAll(src, s.body, fuel), t, t, 0, store, brk, cont, fuel);
    }
  }

  lemma NilCase(src: Source, w: Context, ss: Stmts, b: bool, c: bool, fuel: nat)
    requires ss.Nil?
    ensures AllObey(src, w, ss, b, c, fuel)
  {
    var p, m := StmtsPiece(ss, w.names), ExAll(src, ss, fuel);
    forall t, store, brk, cont | Targets(b, c, brk, cont) && Starts(w, t, store, Render(p, brk, cont))
      ensures Allowed(m(store), b, c) && Ends(w, t, Size(p), brk, cont, m(store), fuel)
    {
      LeadsNowhere(w.prog, t);
      EndsNormally(w, t, 0, brk, cont, store, t.flag, fuel);
    }
  }

  lemma ConsCase(src: Source, w: Context, ss: Stmts, b: bool, c: bool, fuel: nat)
    requires ss.Cons? && Obeys(src, w, ss.head, b, c, fuel) && AllObey(src, w, ss.tail, b, c, fuel)
    ensures AllObey(src, w, ss, b, c, fuel)
  {
    var m, k := Ex(src, ss.head, fuel), ExAll(src, ss.tail, fuel);
    SequelDoes(w, StmtPiece(ss.head, w.names), m, StmtsPiece(ss.tail, w.names), k, b, c, fuel);
    forall store ensures ExAll(src, ss, fuel)(store) == SequelFlow(m, k)(store) {
      assert ExAll(src, ss, fuel)(store) == ExecAll(src, ss, store, fuel);
    }
    SameDoes(w, StmtsPiece(ss, w.names), b, c, SequelFlow(m, k), ExAll(src, ss, fuel), fuel);
  }

  lemma IfCase(src: Source, w: Context, s: Stmt, b: bool, c: bool, fuel: nat)
    requires s.If? && s.alternative.None? && ExprDoes(src, w, s.test, fuel) && Obeys(src, w, s.consequent, b, c, fuel)
    ensures Obeys(src, w, s, b, c, fuel)
  {
    var m, k := Ev(src, s.test, fuel), Ex(src, s.consequent, fuel);
    IfDoes(w, ExprCode(s.test, w.names), m, StmtPiece(s.consequent, w.names), k, b, c, fuel);
    forall store ensures Ex(src, s, fuel)(store) == IfFlow(m, k)(store) {
      assert Ex(src, s, fuel)(store) == Exec(src, s, store, fuel);
    }
    SameDoes(w, StmtPiece(s, w.names), b, c, IfFlow(m, k), Ex(src, s, fuel), fuel);
  }

  lemma ElseCase(src: Source, w: Context, s: Stmt, b: bool, c: bool, fuel: nat)
    requires s.If? && s.alternative.Some? && ExprDoes(src, w, s.test, fuel)
    requires Obeys(src, w, s.consequent, b, c, fuel) && Obeys(src, w, s.alternative.value, b, c, fuel)
    ensures Obeys(src, w, s, b, c, fuel)
  {
    var m, k, l := Ev(src, s.test, fuel), Ex(src, s.consequent, fuel), Ex(src, s.alternative.value, fuel);
    ElseDoes(w, ExprCode(s.test, w.names), m, StmtPiece(s.consequent, w.names), k,
             StmtPiece(s.alternative.value, w.names), l, b, c, fuel);
    forall store ensures Ex(src, s, fuel)(store) == ElseFlow(m, k, l)(store) {
      assert Ex(src, s, fuel)(store) == Exec(src, s, store, fuel);
    }
    SameDoes(w, StmtPiece(s, w.names), b, c, ElseFlow(m, k, l), Ex(src, s, fuel), fuel);
  }

  lemma LeaveCase(src: Source, w: Context, s: Stmt, b: bool, c: bool, fuel: nat)
    requires (s.Break? && b) || (s.Continue? && c)
    ensures Obeys(src, w, s, b, c, fuel)
  {
    var p, m := StmtPiece(s, w.names), Ex(src, s, fuel);
    forall t, store, brk, cont | Targets(b, c, brk, cont) && Starts(w, t, store, Render(p, brk, cont))
      ensures Allowed(m(store), b, c) && Ends(w, t, Size(p), brk, cont, m(store), fuel)
    {
      if s.Break? {
        BreakRuns(w, t, store, brk, cont, fuel);
      } else {
        ContinueRuns(w, t, store, brk, cont, fuel);
      }
    }
  }
}
