/** Runs of loops: one turn, and then the loop again with less fuel. */
module Looping {
  import opened Wrappers
  import opened Values
  import opened Syntax
  import opened Bytecode
  import opened Emitter
  import opened Pieces
  import opened Shapes
  import opened Machine
  import opened Semantics
  import opened Runs
  import opened Locals
  import opened Glue
  import opened Runners
  import opened Calling
  import opened Flowing

  /** Guard, test, body from `n`, update from `u`, jump back at `e`. */
  datatype Extents = Extents(n: nat, u: nat, e: nat, total: nat)

  predicate LoopAt(t: Thread, g: Code, body: Piece, update: Code, x: Extents) {
    && x.n == |g| + 2 && x.u == x.n + Size(body) && x.e == x.u + |update| && x.total == x.e + 1
    && CodeAt(t, 0, g) && CodeAt(t, |g|, [TEST, JZ(x.total - x.n)])
    && CodeAt(t, x.n, Render(body, Skip(Some(x.total), x.n), Skip(Some(x.u), x.n)))
    && CodeAt(t, x.u, update) && CodeAt(t, x.e, [JMP(-1 - x.e)])
  }

  lemma LoopParts(t: Thread, g: Code, body: Piece, update: Code, x: Extents, brk: Target, cont: Target)
    requires CodeAt(t, 0, Render(LoopPiece(g, body, update), brk, cont))
    requires x.n == |g| + 2 && x.u == x.n + Size(body) && x.e == x.u + |update| && x.total == x.e + 1
    ensures LoopAt(t, g, body, update, x)
  {
    var test, back := Fixed(g + [TEST, JZ(x.total - x.n)]), Fixed(update + [JMP(-1 - x.e)]);
    LoopRender(g, body, update, test, back, x, brk, cont);
    ThenAt(t, 0, test, Then(body, back), x.n, Some(x.total), Some(x.u));
    CodeAtParts(t, 0, g, [TEST, JZ(x.total - x.n)]);
    ThenAt(t, x.n, body, back, x.u, Skip(Some(x.total), x.n), Skip(Some(x.u), x.n));
    PartsAt(t, x.u, back.code, update, x.e, [JMP(-1 - x.e)]);
  }

  lemma LoopRender(g: Code, body: Piece, update: Code, test: Piece, back: Piece, x: Extents, brk: Target, cont: Target)
    requires test == Fixed(g + [TEST, JZ(x.total - x.n)]) && back == Fixed(update + [JMP(-1 - x.e)])
    requires x.n == |g| + 2 && x.u == x.n + Size(body) && x.e == x.u + |update| && x.total == x.e + 1
    ensures Render(LoopPiece(g, body, update), brk, cont) == Render(Then(test, Then(body, back)), Some(x.total), Some(x.u))
  {
  }

  // ---- the outcomes of the body ----

  /** A failure or a return goes through whatever surrounds it. */
  lemma EndsThrough(w: Context, t: Thread, n: nat, m: nat, brk: Target, cont: Target, outer: Target, next: Target,
                    r: Effect<Flow>, fuel: nat)
    requires Ends(w, t, n, brk, cont, r, fuel) && (r.Success? ==> r.value.Returned?)
    ensures Ends(w, t, m, outer, next, r, fuel)
  {
    var x: Exit :| AtReturn(t, r, x) && Leads(w.prog, t, FlowGoal(w, t, n, brk, cont, r, x, fuel));
    assert FlowGoal(w, t, n, brk, cont, r, x, fuel) == FlowGoal(w, t, m, outer, next, r, x, fuel);
  }

  /** A break arrives behind the statement it leaves. */
  lemma BrokenEnds(w: Context, t: Thread, n: nat, m: nat, brk: Target, cont: Target, outer: Target, next: Target,
                   r: Effect<Flow>, fuel: nat)
    requires Ends(w, t, n, brk, cont, r, fuel) && r.Success? && r.value.Broken? && brk == Some(m)
    ensures Ends(w, t, m, outer, next, Success(Normal(r.value.store)), fuel)
  {
    var x: Exit :| AtReturn(t, r, x) && Leads(w.prog, t, FlowGoal(w, t, n, brk, cont, r, x, fuel));
    EndsNormally(w, t, m, outer, next, r.value.store, x.flag, fuel);
  }

  /** Where a body leaves the thread when the loop goes on. */
  lemma GoesOn(w: Context, t: Thread, n: nat, brk: Target, cont: Target, r: Effect<Flow>, fuel: nat) returns (u: Thread)
    requires Ends(w, t, n, brk, cont, r, fuel) && cont == Some(n)
    requires r.Success? && (r.value.Normal? || r.value.Continued?)
    ensures Leads(w.prog, t, Arrive(u))
    ensures u.top.code == t.top.code && u.top.ip == t.top.ip + n && u.stack == t.stack && u.callers == t.callers
    ensures u.top.locals == Represent(w.names, r.value.store)
  {
    var x: Exit :| AtReturn(t, r, x) && Leads(w.prog, t, FlowGoal(w, t, n, brk, cont, r, x, fuel));
    u := At(t, t.stack, Represent(w.names, r.value.store), n, x.flag);
  }

  // ---- one turn ----

  /** The update, and the loop again. */
  function Again(um: Change, next: FlowMeaning, fuel: nat, store: Store): Effect<Flow> {
    var s :- um(store);
    if fuel == 0 then Failure(OutOfFuel) else next(s)
  }

  function Turn(um: Change, next: FlowMeaning, fuel: nat, r: Effect<Flow>): Effect<Flow> {
    var flow :- r;
    match flow
    case Returned(_) => Success(flow)
    case Broken(s) => Success(Normal(s))
    case _ => Again(um, next, fuel, flow.store)
  }

  function LoopMeaning(gm: Meaning, bm: FlowMeaning, um: Change, next: FlowMeaning, fuel: nat, store: Store): Effect<Flow> {
    var (x, s) :- Condition(gm(store));
    if !x then Success(Normal(s)) else Turn(um, next, fuel, bm(s))
  }

  /** From the same state at the start of the loop, it does what the rest of it means. */
  ghost predicate Continues(w: Context, t: Thread, next: FlowMeaning, total: nat, brk: Target, cont: Target, fuel: nat) {
    forall v: Thread, store ::
      v.top.code == t.top.code && v.top.ip == t.top.ip && v.stack == t.stack && v.callers == t.callers &&
      v.top.locals == Represent(w.names, store) ==>
      Allowed(next(store), false, false) && Ends(w, v, total, brk, cont, next(store), fuel)
  }

  lemma JumpBack(w: Context, t: Thread, y: Thread, e: nat, next: FlowMeaning, total: nat, store: Store,
                 brk: Target, cont: Target, fuel: nat)
    requires y.top.code == t.top.code && y.top.ip == t.top.ip + e && y.stack == t.stack && y.callers == t.callers
    requires CodeAt(t, e, [JMP(-1 - e)]) && y.top.locals == Represent(w.names, store)
    requires fuel > 0 && Continues(w, t, next, total, brk, cont, fuel - 1) && Leads(w.prog, t, Arrive(y))
    ensures Allowed(next(store), false, false) && Ends(w, t, total, brk, cont, next(store), fuel)
  {
    Moved(t, y, e, 0, [JMP(-1 - e)]);
    JumpStep(w.prog, y, -1 - e);
    var v := At(y, y.stack, y.top.locals, 1 + (-1 - e), y.flag);
    var r := next(store);
    assert Ends(w, v, total, brk, cont, r, fuel - 1);
    var x: Exit :| AtReturn(v, r, x) && Leads(w.prog, v, FlowGoal(w, v, total, brk, cont, r, x, fuel - 1));
    TurnBack(w, t, y, v, total, r, x, brk, cont, fuel);
    assert AtReturn(t, r, x);
  }

  lemma TurnBack(w: Context, t: Thread, y: Thread, v: Thread, total: nat, r: Effect<Flow>, x: Exit, brk: Target, cont: Target,
                 fuel: nat)
    requires fuel > 0 && Step(w.prog, y) == Running(v) && Leads(w.prog, t, Arrive(y)) && Leads(w.prog, y, Arrive(v))
    requires v.top.code == t.top.code && v.top.ip == t.top.ip && v.stack == t.stack && v.callers == t.callers
    requires Leads(w.prog, v, FlowGoal(w, v, total, brk, cont, r, x, fuel - 1))
    ensures Leads(w.prog, t, FlowGoal(w, t, total, brk, cont, r, x, fuel))
  {
    var g := FlowGoal(w, t, total, brk, cont, r, x, fuel);
    if r == Failure(OutOfFuel) {
      LastsLonger(w.prog, y, v, fuel - 1);
    } else {
      LeadsVia(w.prog, y, v, g);
    }
    LeadsVia(w.prog, t, y, g);
  }

  lemma ChangeAt(w: Context, c: Code, m: Change, t: Thread, u: Thread, n: nat, store: Store, fuel: nat)
    returns (flag: bool)
    requires CodeDoes(w, c, m, fuel) && CodeAt(t, n, c) && |t.top.code| <= MAX_INSTRUCTIONS
    requires u.top.code == t.top.code && u.top.ip == t.top.ip + n && u.top.locals == Represent(w.names, store)
    ensures Leads(w.prog, u, ChangeGoal(w, u, |c|, m(store), flag, fuel))
  {
    Moved(t, u, n, 0, c);
    assert Starts(w, u, store, c);
    flag :| Leads(w.prog, u, ChangeGoal(w, u, |c|, m(store), flag, fuel));
  }

  lemma AgainRuns(w: Context, t: Thread, y: Thread, g: Code, body: Piece, update: Code, x: Extents, um: Change,
                  next: FlowMeaning, store: Store, brk: Target, cont: Target, fuel: nat)
    requires LoopAt(t, g, body, update, x) && |t.top.code| <= MAX_INSTRUCTIONS && CodeDoes(w, update, um, fuel)
    requires fuel > 0 ==> Continues(w, t, next, x.total, brk, cont, fuel - 1)
    requires y.top.code == t.top.code && y.top.ip == t.top.ip + x.u && y.stack == t.stack && y.callers == t.callers
    requires y.top.locals == Represent(w.names, store) && Leads(w.prog, t, Arrive(y))
    ensures var r := Again(um, next, fuel, store);
            Allowed(r, false, false) && Ends(w, t, x.total, brk, cont, r, fuel)
  {
    var f := ChangeAt(w, update, um, t, y, x.u, store, fuel);
    var c, r := um(store), Again(um, next, fuel, store);
    if c.Failure? {
      LeadsVia(w.prog, t, y, EffectGoal(c, y, fuel));
      EndsStopped(w, t, x.total, brk, cont, c, r, y, fuel);
    } else {
      var z := At(y, y.stack, Represent(w.names, c.value), |update|, f);
      LeadsVia(w.prog, t, y, Arrive(z));
      if fuel == 0 {
        LeadsNowhere(w.prog, t);
        EndsStopped(w, t, x.total, brk, cont, r, r, t, 0);
      } else {
        JumpBack(w, t, z, x.e, next, x.total, c.value, brk, cont, fuel);
      }
    }
  }

  lemma TurnRuns(w: Context, t: Thread, g: Code, body: Piece, update: Code, x: Extents, r: Effect<Flow>, um: Change,
                 next: FlowMeaning, brk: Target, cont: Target, fuel: nat)
    requires LoopAt(t, g, body, update, x) && |t.top.code| <= MAX_INSTRUCTIONS && CodeDoes(w, update, um, fuel)
    requires fuel > 0 ==> Continues(w, t, next, x.total, brk, cont, fuel - 1)
    requires Ends(w, t, x.u, Some(x.total), Some(x.u), r, fuel)
    ensures var q := Turn(um, next, fuel, r);
            Allowed(q, false, false) && Ends(w, t, x.total, brk, cont, q, fuel)
  {
    if r.Failure? || r.value.Returned? {
      EndsThrough(w, t, x.u, x.total, Some(x.total), Some(x.u), brk, cont, r, fuel);
    } else if r.value.Broken? {
      BrokenEnds(w, t, x.u, x.total, Some(x.total), Some(x.u), brk, cont, r, fuel);
    } else {
      var y := GoesOn(w, t, x.u, Some(x.total), Some(x.u), r, fuel);
      AgainRuns(w, t, y, g, body, update, x, um, next, r.value.store, brk, cont, fuel);
    }
  }

  lemma LoopRuns(w: Context, t: Thread, g: Code, gm: Meaning, body: Piece, bm: FlowMeaning, update: Code, um: Change,
                 x: Extents, next: FlowMeaning, store: Store, brk: Target, cont: Target, fuel: nat)
    requires LoopAt(t, g, body, update, x) && Starts(w, t, store, g)
    requires Does(w, g, gm, fuel) && StmtDoes(w, body, true, true, bm, fuel) && CodeDoes(w, update, um, fuel)
    requires fuel > 0 ==> Continues(w, t, next, x.total, brk, cont, fuel - 1)
    ensures var r := LoopMeaning(gm, bm, um, next, fuel, store);
            Allowed(r, false, false) && Ends(w, t, x.total, brk, cont, r, fuel)
  {
    var jump, r := JZ(x.total - x.n), Condition(gm(store));
    TestRuns(w, g, gm, jump, t, store, fuel);
    if r.Failure? {
      EndsStopped(w, t, x.total, brk, cont, r, LoopMeaning(gm, bm, um, next, fuel, store), t, fuel);
    } else if r.value.0 {
      TestedRuns(w, t, |g|, jump, r, x.n, body, x.u, true, true, bm, Some(x.total), Some(x.u), fuel);
      TurnRuns(w, t, g, body, update, x, bm(r.value.1), um, next, brk, cont, fuel);
    } else {
      assert Beyond(w, t, |g|, jump, r) == At(t, t.stack, Represent(w.names, r.value.1), x.total, false);
      EndsNormally(w, t, x.total, brk, cont, r.value.1, false, fuel);
    }
  }

  function LoopFlow(gm: Meaning, bm: FlowMeaning, um: Change, next: FlowMeaning, fuel: nat): FlowMeaning {
    store => LoopMeaning(gm, bm, um, next, fuel, store)
  }

  lemma LoopContinues(w: Context, t: Thread, p: Piece, n: nat, next: FlowMeaning, brk: Target, cont: Target,
                      fuel: nat)
    requires n == Size(p) && StmtDoes(w, p, false, false, next, fuel) && CodeAt(t, 0, Render(p, brk, cont)) && |t.top.code| <= MAX_INSTRUCTIONS
    ensures Continues(w, t, next, n, brk, cont, fuel)
  {
    forall v: Thread, store |
      v.top.code == t.top.code && v.top.ip == t.top.ip && v.stack == t.stack && v.callers == t.callers &&
      v.top.locals == Represent(w.names, store)
      ensures Allowed(next(store), false, false) && Ends(w, v, n, brk, cont, next(store), fuel)
    {
      FlowAt(w, p, false, false, next, t, v, 0, store, brk, cont, fuel);
    }
  }

  lemma LoopSize(g: Code, body: Piece, update: Code)
    ensures Size(LoopPiece(g, body, update)) == |g| + 2 + Size(body) + |update| + 1
  {
    var back := Fixed(update + [JMP(-(|g| + 2 + Size(body) + |update|) - 1)]);
    var test := Fixed(g + [TEST, JZ(Size(body) + |update| + 1)]);
    assert Size(Then(body, back)) == Size(body) + |update| + 1;
    assert Size(Then(test, Then(body, back))) == |g| + 2 + Size(body) + |update| + 1;
  }

  lemma LoopFrom(w: Context, t: Thread, g: Code, gm: Meaning, body: Piece, bm: FlowMeaning, update: Code, um: Change,
                 x: Extents, next: FlowMeaning, store: Store, brk: Target, cont: Target, fuel: nat)
    requires LoopAt(t, g, body, update, x)
    requires t.top.locals == Represent(w.names, store) && |t.top.code| <= MAX_INSTRUCTIONS
    requires Does(w, g, gm, fuel) && StmtDoes(w, body, true, true, bm, fuel) && CodeDoes(w, update, um, fuel)
    requires fuel > 0 ==> Continues(w, t, next, x.total, brk, cont, fuel - 1)
    ensures var r := LoopFlow(gm, bm, um, next, fuel)(store);
            Allowed(r, false, false) && Ends(w, t, x.total, brk, cont, r, fuel)
  {
    LoopRuns(w, t, g, gm, body, bm, update, um, x, next, store, brk, cont, fuel);
  }

  /** A loop does what it means with some fuel if it does with less. */
  lemma LoopDoes(w: Context, g: Code, gm: Meaning, body: Piece, bm: FlowMeaning, update: Code, um: Change,
                 next: FlowMeaning, fuel: nat)
    requires Does(w, g, gm, fuel) && StmtDoes(w, body, true, true, bm, fuel) && CodeDoes(w, update, um, fuel)
    requires fuel > 0 ==> StmtDoes(w, LoopPiece(g, body, update), false, false, next, fuel - 1)
    ensures StmtDoes(w, LoopPiece(g, body, update), false, false, LoopFlow(gm, bm, um, next, fuel), fuel)
  {
    var p, m := LoopPiece(g, body, update), LoopFlow(gm, bm, um, next, fuel);
    var n := |g| + 2;
    var x := Extents(n, n + Size(body), n + Size(body) + |update|, n + Size(body) + |update| + 1);
    assert Size(p) == x.total by { LoopSize(g, body, update); }
    forall t, store, brk, cont | Targets(false, false, brk, cont) && Starts(w, t, store, Render(p, brk, cont))
      ensures Allowed(m(store), false, false) && EndsAt(w, t, x.total, brk, cont, m(store), fuel)
    {
      if fuel > 0 {
        LoopContinues(w, t, p, x.total, next, brk, cont, fuel - 1);
      }
      LoopParts(t, g, body, update, x, brk, cont);
      LoopFrom(w, t, g, gm, body, bm, update, um, x, next, store, brk, cont, fuel);
    }
    Sized(w, p, x.total, false, false, m, fuel);
  }
}
