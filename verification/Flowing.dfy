/** Runs of compound statements, put together from the runs of their parts. */
module Flowing {
  import opened Wrappers
  import opened Values
  import opened Syntax
  import opened Bytecode
  import opened Emitter
  import opened Pieces
  import opened Shapes
  import opened Machine
  import opened Semantics
  import opened Runs
  import opened Locals
  import opened Glue
  import opened Runners
  import opened Calling

  // ---- the code of pieces ----

  lemma RenderThen(p: Piece, q: Piece, brk: Target, cont: Target)
    ensures Render(Then(p, q), brk, cont) == Render(p, brk, cont) + Render(q, Skip(brk, Size(p)), Skip(cont, Size(p)))
  {
  }

  lemma PartsAt(t: Thread, n: nat, x: Code, a: Code, m: nat, b: Code)
    requires CodeAt(t, n, x) && x == a + b && m == n + |a|
    ensures CodeAt(t, n, a) && CodeAt(t, m, b)
  {
    CodeAtParts(t, n, a, b);
  }

  lemma ThenAt(t: Thread, n: nat, p: Piece, q: Piece, m: nat, brk: Target, cont: Target)
    requires CodeAt(t, n, Render(Then(p, q), brk, cont)) && m == n + Size(p)
    ensures CodeAt(t, n, Render(p, brk, cont))
    ensures CodeAt(t, m, Render(q, Skip(brk, Size(p)), Skip(cont, Size(p))))
  {
    RenderThen(p, q, brk, cont);
    PartsAt(t, n, Render(Then(p, q), brk, cont), Render(p, brk, cont), m, Render(q, Skip(brk, Size(p)), Skip(cont, Size(p))));
  }

  // ---- putting a run in front of, or behind, the run of a statement ----

  /** Use what is known about a piece that stands further on. */
  lemma FlowAt(w: Context, p: Piece, b: bool, c: bool, m: FlowMeaning, t: Thread, u: Thread, n: nat, store: Store,
               brk: Target, cont: Target, fuel: nat)
    requires StmtDoes(w, p, b, c, m, fuel) && Targets(b, c, brk, cont)
    requires CodeAt(t, n, Render(p, brk, cont)) && |t.top.code| <= MAX_INSTRUCTIONS
    requires u.top.code == t.top.code && u.top.ip == t.top.ip + n && u.top.locals == Represent(w.names, store)
    ensures Allowed(m(store), b, c) && Ends(w, u, Size(p), brk, cont, m(store), fuel)
  {
    Moved(t, u, n, 0, Render(p, brk, cont));
    assert Starts(w, u, store, Render(p, brk, cont));
  }

  /** The same exit, seen from `d` instructions before. */
  function Earlier(x: Exit, d: nat): Exit {
    x.(at := x.at + d)
  }

  lemma FlowGoalEarlier(w: Context, t: Thread, u: Thread, d: nat, n: nat, brk: Target, cont: Target, r: Effect<Flow>,
                        x: Exit, fuel: nat)
    requires u.top.code == t.top.code && u.top.ip == t.top.ip + d && u.stack == t.stack && u.callers == t.callers
    requires Allowed(r, brk.Some?, cont.Some?)
    ensures FlowGoal(w, u, n, Skip(brk, d), Skip(cont, d), r, x, fuel) ==
            FlowGoal(w, t, d + n, brk, cont, r, Earlier(x, d), fuel)
  {
  }

  /** Arrive at a statement and run it. */
  lemma EndsAfter(w: Context, t: Thread, u: Thread, d: nat, n: nat, m: nat, brk: Target, cont: Target, r: Effect<Flow>, fuel: nat)
    requires u.top.code == t.top.code && u.top.ip == t.top.ip + d && u.stack == t.stack && u.callers == t.callers
    requires Allowed(r, brk.Some?, cont.Some?)
    requires Leads(w.prog, t, Arrive(u)) && Ends(w, u, n, Skip(brk, d), Skip(cont, d), r, fuel) && m == d + n
    ensures Ends(w, t, m, brk, cont, r, fuel)
  {
    var x: Exit :| AtReturn(u, r, x) && Leads(w.prog, u, FlowGoal(w, u, n, Skip(brk, d), Skip(cont, d), r, x, fuel));
    FlowGoalEarlier(w, t, u, d, n, brk, cont, r, x, fuel);
    LeadsVia(w.prog, t, u, FlowGoal(w, t, m, brk, cont, r, Earlier(x, d), fuel));
    assert AtReturn(t, r, Earlier(x, d));
  }

  /** What stops an expression stops the statement. */
  lemma EndsStopped<T>(w: Context, t: Thread, n: nat, brk: Target, cont: Target, e: Effect<T>, r: Effect<Flow>, u: Thread,
                       fuel: nat)
    requires e.Failure? && r == Failure(e.error) && Leads(w.prog, t, EffectGoal(e, u, fuel))
    ensures Ends(w, t, n, brk, cont, r, fuel)
  {
    var x := Exit(false, 0, []);
    assert FlowGoal(w, t, n, brk, cont, r, x, fuel) == EffectGoal(e, u, fuel);
    assert AtReturn(t, r, x);
  }

  lemma EndsNormally(w: Context, t: Thread, n: nat, brk: Target, cont: Target, store: Store, flag: bool, fuel: nat)
    requires Leads(w.prog, t, Arrive(At(t, t.stack, Represent(w.names, store), n, flag)))
    ensures Ends(w, t, n, brk, cont, Success(Normal(store)), fuel)
  {
    var x := Exit(flag, 0, []);
    assert AtReturn(t, Success(Normal(store)), x);
    assert Leads(w.prog, t, FlowGoal(w, t, n, brk, cont, Success(Normal(store)), x, fuel));
  }

  /** After a statement that ends normally, jump forward. */
  lemma EndsThenJump(w: Context, t: Thread, n: nat, k: nat, m: nat, brk: Target, cont: Target, r: Effect<Flow>, fuel: nat)
    requires CodeAt(t, n, [JMP(k)]) && Ends(w, t, n, brk, cont, r, fuel) && m == n + 1 + k
    ensures Ends(w, t, m, brk, cont, r, fuel)
  {
    var x: Exit :| AtReturn(t, r, x) && Leads(w.prog, t, FlowGoal(w, t, n, brk, cont, r, x, fuel));
    if r.Success? && r.value.Normal? {
      var u := At(t, t.stack, Represent(w.names, r.value.store), n, x.flag);
      Moved(t, u, n, 0, [JMP(k)]);
      JumpStep(w.prog, u, k);
      LeadsVia(w.prog, t, u, FlowGoal(w, t, m, brk, cont, r, x, fuel));
    }
    assert Leads(w.prog, t, FlowGoal(w, t, m, brk, cont, r, x, fuel));
  }

  /** Where a statement that ends normally leaves the thread. */
  lemma NormalAt(w: Context, t: Thread, n: nat, brk: Target, cont: Target, r: Effect<Flow>, fuel: nat)
    returns (u: Thread)
    requires Ends(w, t, n, brk, cont, r, fuel) && r.Success? && r.value.Normal?
    ensures Leads(w.prog, t, Arrive(u))
    ensures u.top.code == t.top.code && u.top.ip == t.top.ip + n && u.stack == t.stack && u.callers == t.callers
    ensures u.top.locals == Represent(w.names, r.value.store)
  {
    var x: Exit :| AtReturn(t, r, x) && Leads(w.prog, t, FlowGoal(w, t, n, brk, cont, r, x, fuel));
    u := At(t, t.stack, Represent(w.names, r.value.store), n, x.flag);
  }

  /** A statement that does not end normally never gets to its end. */
  lemma EndsEarly(w: Context, t: Thread, n: nat, k: nat, brk: Target, cont: Target, r: Effect<Flow>, fuel: nat)
    requires Ends(w, t, n, brk, cont, r, fuel) && !(r.Success? && r.value.Normal?)
    ensures Ends(w, t, k, brk, cont, r, fuel)
  {
    var x: Exit :| AtReturn(t, r, x) && Leads(w.prog, t, FlowGoal(w, t, n, brk, cont, r, x, fuel));
    assert FlowGoal(w, t, n, brk, cont, r, x, fuel) == FlowGoal(w, t, k, brk, cont, r, x, fuel);
  }

  // ---- straight code ----

  type Change = Store -> Effect<Store>

  ghost predicate Changes(w: Context, t: Thread, n: nat, r: Effect<Store>, fuel: nat) {
    exists flag: bool :: Leads(w.prog, t, ChangeGoal(w, t, n, r, flag, fuel))
  }

  function ChangeGoal(w: Context, t: Thread, n: nat, r: Effect<Store>, flag: bool, fuel: nat): Goal {
    EffectGoal(r, if r.Success? then At(t, t.stack, Represent(w.names, r.value), n, flag) else t, fuel)
  }

  /** The code has an effect on the variables only. */
  ghost predicate CodeDoes(w: Context, c: Code, m: Change, fuel: nat) {
    forall t, store :: Starts(w, t, store, c) ==> Changes(w, t, |c|, m(store), fuel)
  }

  function Discarded(m: Meaning, store: Store): Effect<Store> {
    var (_, s) :- m(store);
    Success(s)
  }

  lemma DiscardRuns(w: Context, c: Code, m: Meaning, t: Thread, store: Store, fuel: nat)
    requires Does(w, c, m, fuel) && Starts(w, t, store, c + [POP])
    ensures Changes(w, t, |c| + 1, Discarded(m, store), fuel)
  {
    CodeAtParts(t, 0, c, [POP]);
    var f := RunAt(w, c, m, t, t, 0, store, fuel);
    var x, r := m(store), Discarded(m, store);
    if x.Success? {
      var u := At(t, t.stack + [x.value.0], Represent(w.names, x.value.1), |c|, f);
      Moved(t, u, |c|, 0, [POP]);
      PopStep(w.prog, u, t.stack, x.value.0);
      LeadsVia(w.prog, t, u, ChangeGoal(w, t, |c| + 1, r, f, fuel));
    } else {
      assert Leads(w.prog, t, ChangeGoal(w, t, |c| + 1, r, f, fuel));
    }
  }

  lemma NothingRuns(w: Context, t: Thread, store: Store, fuel: nat)
    requires Starts(w, t, store, [])
    ensures Changes(w, t, 0, Success(store), fuel)
  {
    LeadsNowhere(w.prog, t);
    assert Leads(w.prog, t, ChangeGoal(w, t, 0, Success(store), t.flag, fuel));
  }

  function Plainly(m: Change, store: Store): Effect<Flow> {
    var s :- m(store);
    Success(Normal(s))
  }

  lemma FixedRuns(w: Context, c: Code, m: Change, t: Thread, store: Store, brk: Target, cont: Target, fuel: nat)
    requires CodeDoes(w, c, m, fuel) && Starts(w, t, store, c)
    ensures Allowed(Plainly(m, store), false, false) && Ends(w, t, |c|, brk, cont, Plainly(m, store), fuel)
  {
    var r := m(store);
    var f :| Leads(w.prog, t, ChangeGoal(w, t, |c|, r, f, fuel));
    if r.Success? {
      EndsNormally(w, t, |c|, brk, cont, r.value, f, fuel);
    } else {
      EndsStopped(w, t, |c|, brk, cont, r, Plainly(m, store), t, fuel);
    }
  }

  function Returning(m: Meaning, store: Store): Effect<Flow> {
    var (v, _) :- m(store);
    Success(Returned(v))
  }

  lemma ReturnRuns(w: Context, c: Code, m: Meaning, t: Thread, store: Store, brk: Target, cont: Target, fuel: nat)
    requires Does(w, c, m, fuel) && Starts(w, t, store, c + [RET])
    ensures Allowed(Returning(m, store), false, false) && Ends(w, t, |c| + 1, brk, cont, Returning(m, store), fuel)
  {
    CodeAtParts(t, 0, c, [RET]);
    var f := RunAt(w, c, m, t, t, 0, store, fuel);
    var x, r := m(store), Returning(m, store);
    if x.Success? {
      var e := Exit(f, |c|, Represent(w.names, x.value.1));
      assert AtReturn(t, r, e);
      assert Leads(w.prog, t, FlowGoal(w, t, |c| + 1, brk, cont, r, e, fuel));
    } else {
      EndsStopped(w, t, |c| + 1, brk, cont, x, r, t, fuel);
    }
  }

  lemma BreakRuns(w: Context, t: Thread, store: Store, brk: Target, cont: Target, fuel: nat)
    requires brk.Some? && Starts(w, t, store, [Goto(brk)])
    ensures Ends(w, t, 1, brk, cont, Success(Broken(store)), fuel)
  {
    JumpStep(w.prog, t, brk.value - 1);
    var x, r := Exit(t.flag, 0, []), Success(Broken(store));
    assert AtReturn(t, r, x);
    assert Leads(w.prog, t, FlowGoal(w, t, 1, brk, cont, r, x, fuel));
  }

  lemma ContinueRuns(w: Context, t: Thread, store: Store, brk: Target, cont: Target, fuel: nat)
    requires cont.Some? && Starts(w, t, store, [Goto(cont)])
    ensures Ends(w, t, 1, brk, cont, Success(Continued(store)), fuel)
  {
    JumpStep(w.prog, t, cont.value - 1);
    var x, r := Exit(t.flag, 0, []), Success(Continued(store));
    assert AtReturn(t, r, x);
    assert Leads(w.prog, t, FlowGoal(w, t, 1, brk, cont, r, x, fuel));
  }

  // ---- one statement after another ----

  function Sequel(m: FlowMeaning, k: FlowMeaning, store: Store): Effect<Flow> {
    var f :- m(store);
    if f.Normal? then k(f.store) else Success(f)
  }

  lemma SequelRuns(w: Context, p: Piece, m: FlowMeaning, q: Piece, k: FlowMeaning, b: bool, c: bool,
                   t: Thread, store: Store, n: nat, total: nat, brk: Target, cont: Target, fuel: nat)
    requires StmtDoes(w, p, b, c, m, fuel) && StmtDoes(w, q, b, c, k, fuel) && Targets(b, c, brk, cont)
    requires n == Size(p) && total == n + Size(q)
    requires t.top.locals == Represent(w.names, store) && |t.top.code| <= MAX_INSTRUCTIONS
    requires CodeAt(t, 0, Render(p, brk, cont)) && CodeAt(t, n, Render(q, Skip(brk, n), Skip(cont, n)))
    ensures Allowed(Sequel(m, k, store), b, c) && Ends(w, t, total, brk, cont, Sequel(m, k, store), fuel)
  {
    FlowAt(w, p, b, c, m, t, t, 0, store, brk, cont, fuel);
    SequelFrom(w, n, m(store), q, k, b, c, t, total, brk, cont, fuel);
  }

  lemma SequelFrom(w: Context, n: nat, r: Effect<Flow>, q: Piece, k: FlowMeaning, b: bool, c: bool,
                   t: Thread, m: nat, brk: Target, cont: Target, fuel: nat)
    requires StmtDoes(w, q, b, c, k, fuel) && Targets(b, c, brk, cont) && |t.top.code| <= MAX_INSTRUCTIONS
    requires CodeAt(t, n, Render(q, Skip(brk, n), Skip(cont, n))) && m == n + Size(q)
    requires Allowed(r, b, c) && Ends(w, t, n, brk, cont, r, fuel)
    ensures var x := if r.Success? && r.value.Normal? then k(r.value.store) else r;
            Allowed(x, b, c) && Ends(w, t, m, brk, cont, x, fuel)
  {
    if r.Success? && r.value.Normal? {
      var u := NormalAt(w, t, n, brk, cont, r, fuel);
      FlowAt(w, q, b, c, k, t, u, n, r.value.store, Skip(brk, n), Skip(cont, n), fuel);
      EndsAfter(w, t, u, n, Size(q), m, brk, cont, k(r.value.store), fuel);
    } else {
      EndsEarly(w, t, n, m, brk, cont, r, fuel);
    }
  }

  // ---- conditional statements ----

  lemma SkipTwice(t: Target, n: nat, m: nat, k: nat)
    requires k == n + m
    ensures Skip(Skip(t, n), m) == Skip(t, k)
  {
  }

  /** After a test: a piece at the address that the test leads to. */
  lemma TestedRuns(w: Context, t: Thread, n: nat, jump: Instruction, r: Effect<(bool, Store)>, d: nat,
                   p: Piece, total: nat, b: bool, c: bool, k: FlowMeaning, brk: Target, cont: Target, fuel: nat)
    requires jump.JZ? && r.Success? && Leads(w.prog, t, TestGoal(w, t, n, jump, r, fuel))
    requires StmtDoes(w, p, b, c, k, fuel) && Targets(b, c, brk, cont) && |t.top.code| <= MAX_INSTRUCTIONS
    requires d == n + (if r.value.0 then 2 else 2 + jump.rel) && CodeAt(t, d, Render(p, Skip(brk, d), Skip(cont, d)))
    requires total == d + Size(p)
    ensures Allowed(k(r.value.1), b, c) && Ends(w, t, total, brk, cont, k(r.value.1), fuel)
  {
    var u := Beyond(w, t, n, jump, r);
    FlowAt(w, p, b, c, k, t, u, d, r.value.1, Skip(brk, d), Skip(cont, d), fuel);
    EndsAfter(w, t, u, d, Size(p), total, brk, cont, k(r.value.1), fuel);
  }

  function IfMeaning(m: Meaning, k: FlowMeaning, store: Store): Effect<Flow> {
    var (x, s) :- Condition(m(store));
    if x then k(s) else Success(Normal(s))
  }

  /** Code in two parts, and then a piece. */
  lemma FrontAt(t: Thread, code: Code, a: Code, m: nat, b: Code, q: Piece, k: nat, brk: Target, cont: Target)
    requires CodeAt(t, 0, Render(Then(Fixed(code), q), brk, cont)) && code == a + b && m == |a| && k == |code|
    ensures CodeAt(t, 0, a) && CodeAt(t, m, b) && CodeAt(t, k, Render(q, Skip(brk, k), Skip(cont, k)))
  {
    ThenAt(t, 0, Fixed(code), q, k, brk, cont);
    PartsAt(t, 0, code, a, m, b);
  }

  lemma IfParts(t: Thread, tc: Code, test: Code, p: Piece, m: nat, n: nat, brk: Target, cont: Target)
    requires CodeAt(t, 0, Render(Then(Fixed(tc + test), p), brk, cont)) && m == |tc| && n == m + |test|
    ensures CodeAt(t, 0, tc) && CodeAt(t, m, test) && CodeAt(t, n, Render(p, Skip(brk, n), Skip(cont, n)))
  {
    FrontAt(t, tc + test, tc, m, test, p, n, brk, cont);
  }

  lemma IfRuns(w: Context, tc: Code, m: Meaning, p: Piece, k: FlowMeaning, b: bool, c: bool,
               t: Thread, store: Store, n: nat, total: nat, brk: Target, cont: Target, fuel: nat)
    requires Does(w, tc, m, fuel) && StmtDoes(w, p, b, c, k, fuel) && Targets(b, c, brk, cont)
    requires Starts(w, t, store, tc) && CodeAt(t, |tc|, [TEST, JZ(Size(p))])
    requires CodeAt(t, n, Render(p, Skip(brk, n), Skip(cont, n)))
    requires n == |tc| + 2 && total == n + Size(p)
    ensures Allowed(IfMeaning(m, k, store), b, c)
    ensures Ends(w, t, total, brk, cont, IfMeaning(m, k, store), fuel)
  {
    TestRuns(w, tc, m, JZ(Size(p)), t, store, fuel);
    var r := Condition(m(store));
    if r.Failure? {
      EndsStopped(w, t, total, brk, cont, r, IfMeaning(m, k, store), t, fuel);
    } else if r.value.0 {
      TestedRuns(w, t, |tc|, JZ(Size(p)), r, n, p, total, b, c, k, brk, cont, fuel);
    } else {
      assert Beyond(w, t, |tc|, JZ(Size(p)), r) == At(t, t.stack, Represent(w.names, r.value.1), total, false);
      EndsNormally(w, t, total, brk, cont, r.value.1, false, fuel);
    }
  }

  function ElseMeaning(m: Meaning, k: FlowMeaning, l: FlowMeaning, store: Store): Effect<Flow> {
    var (x, s) :- Condition(m(store));
    if x then k(s) else l(s)
  }

  function ElsePiece(tc: Code, p: Piece, q: Piece): Piece {
    Then(Fixed(tc + [TEST, JZ(Size(p) + 1)]), Then(p, Then(Fixed([JMP(Size(q))]), q)))
  }

  /** Test, consequent from `n` to `e`, jump, alternative from `k`. */
  /** Two pieces one after the other, `n` instructions on. */
  lemma TwoAfter(t: Thread, n: nat, p: Piece, q: Piece, m: nat, brk: Target, cont: Target)
    requires CodeAt(t, n, Render(Then(p, q), Skip(brk, n), Skip(cont, n))) && m == n + Size(p)
    ensures CodeAt(t, n, Render(p, Skip(brk, n), Skip(cont, n))) && CodeAt(t, m, Render(q, Skip(brk, m), Skip(cont, m)))
  {
    ThenAt(t, n, p, q, m, Skip(brk, n), Skip(cont, n));
    SkipTwice(brk, n, Size(p), m);
    SkipTwice(cont, n, Size(p), m);
  }

  predicate ElseAt(t: Thread, tc: Code, p: Piece, q: Piece, n: nat, e: nat, k: nat, brk: Target, cont: Target) {
    && n == |tc| + 2 && e == n + Size(p) && k == e + 1
    && CodeAt(t, 0, tc) && CodeAt(t, |tc|, [TEST, JZ(Size(p) + 1)])
    && CodeAt(t, n, Render(p, Skip(brk, n), Skip(cont, n)))
    && CodeAt(t, e, [JMP(Size(q))]) && CodeAt(t, k, Render(q, Skip(brk, k), Skip(cont, k)))
  }

  lemma ElseParts(t: Thread, tc: Code, p: Piece, q: Piece, n: nat, e: nat, k: nat, brk: Target, cont: Target)
    requires CodeAt(t, 0, Render(ElsePiece(tc, p, q), brk, cont))
    requires n == |tc| + 2 && e == n + Size(p) && k == e + 1
    ensures ElseAt(t, tc, p, q, n, e, k, brk, cont)
  {
    var test, jump := [TEST, JZ(Size(p) + 1)], Fixed([JMP(Size(q))]);
    FrontAt(t, tc + test, tc, |tc|, test, Then(p, Then(jump, q)), n, brk, cont);
    TwoAfter(t, n, p, Then(jump, q), e, brk, cont);
    TwoAfter(t, e, jump, q, k, brk, cont);
  }

  lemma ElseRuns(w: Context, tc: Code, m: Meaning, p: Piece, k: FlowMeaning, q: Piece, l: FlowMeaning, b: bool, c: bool,
                 t: Thread, store: Store, n: nat, e: nat, d: nat, total: nat, brk: Target, cont: Target, fuel: nat)
    requires Does(w, tc, m, fuel) && StmtDoes(w, p, b, c, k, fuel) && StmtDoes(w, q, b, c, l, fuel)
    requires Targets(b, c, brk, cont) && Starts(w, t, store, tc) && ElseAt(t, tc, p, q, n, e, d, brk, cont)
    requires total == d + Size(q)
    ensures Allowed(ElseMeaning(m, k, l, store), b, c)
    ensures Ends(w, t, total, brk, cont, ElseMeaning(m, k, l, store), fuel)
  {
    TestRuns(w, tc, m, JZ(Size(p) + 1), t, store, fuel);
    var r := Condition(m(store));
    if r.Failure? {
      EndsStopped(w, t, total, brk, cont, r, ElseMeaning(m, k, l, store), t, fuel);
    } else if r.value.0 {
      TestedRuns(w, t, |tc|, JZ(Size(p) + 1), r, n, p, e, b, c, k, brk, cont, fuel);
      EndsThenJump(w, t, e, Size(q), total, brk, cont, k(r.value.1), fuel);
    } else {
      TestedRuns(w, t, |tc|, JZ(Size(p) + 1), r, d, q, total, b, c, l, brk, cont, fuel);
    }
  }

  // ---- for every start ----

  function IfFlow(m: Meaning, k: FlowMeaning): FlowMeaning {
    store => IfMeaning(m, k, store)
  }

  lemma IfDoes(w: Context, tc: Code, m: Meaning, p: Piece, k: FlowMeaning, b: bool, c: bool, fuel: nat)
    requires Does(w, tc, m, fuel) && StmtDoes(w, p, b, c, k, fuel)
    ensures StmtDoes(w, Then(Fixed(tc + [TEST, JZ(Size(p))]), p), b, c, IfFlow(m, k), fuel)
  {
    var all, n := Then(Fixed(tc + [TEST, JZ(Size(p))]), p), |tc| + 2;
    forall t, store, brk, cont | Targets(b, c, brk, cont) && Starts(w, t, store, Render(all, brk, cont))
      ensures Allowed(IfFlow(m, k)(store), b, c) && Ends(w, t, Size(all), brk, cont, IfFlow(m, k)(store), fuel)
    {
      IfParts(t, tc, [TEST, JZ(Size(p))], p, |tc|, n, brk, cont);
      IfRuns(w, tc, m, p, k, b, c, t, store, n, Size(all), brk, cont, fuel);
    }
  }

  function ElseFlow(m: Meaning, k: FlowMeaning, l: FlowMeaning): FlowMeaning {
    store => ElseMeaning(m, k, l, store)
  }

  lemma ElseSize(tc: Code, p: Piece, q: Piece)
    ensures Size(ElsePiece(tc, p, q)) == |tc| + 2 + Size(p) + 1 + Size(q)
  {
    var jump := Fixed([JMP(Size(q))]);
    assert Size(Then(jump, q)) == 1 + Size(q);
    assert Size(Then(p, Then(jump, q))) == Size(p) + 1 + Size(q);
  }

  lemma ElseDoes(w: Context, tc: Code, m: Meaning, p: Piece, k: FlowMeaning, q: Piece, l: FlowMeaning, b: bool, c: bool,
                 fuel: nat)
    requires Does(w, tc, m, fuel) && StmtDoes(w, p, b, c, k, fuel) && StmtDoes(w, q, b, c, l, fuel)
    ensures StmtDoes(w, ElsePiece(tc, p, q), b, c, ElseFlow(m, k, l), fuel)
  {
    var all, n := ElsePiece(tc, p, q), |tc| + 2;
    var e := n + Size(p);
    var d := e + 1;
    ElseSize(tc, p, q);
    forall t, store, brk, cont | Targets(b, c, brk, cont) && Starts(w, t, store, Render(all, brk, cont))
      ensures Allowed(ElseFlow(m, k, l)(store), b, c) && Ends(w, t, Size(all), brk, cont, ElseFlow(m, k, l)(store), fuel)
    {
      ElseParts(t, tc, p, q, n, e, d, brk, cont);
      ElseRuns(w, tc, m, p, k, q, l, b, c, t, store, n, e, d, Size(all), brk, cont, fuel);
    }
  }

  /** `Ends`, under a name of its own. */
  ghost predicate EndsAt(w: Context, t: Thread, n: nat, brk: Target, cont: Target, r: Effect<Flow>, fuel: nat) {
    Ends(w, t, n, brk, cont, r, fuel)
  }

  ghost predicate DoesSized(w: Context, p: Piece, n: nat, b: bool, c: bool, m: FlowMeaning, fuel: nat) {
    forall t, store, brk, cont ::
      Targets(b, c, brk, cont) && Starts(w, t, store, Render(p, brk, cont)) ==>
      Allowed(m(store), b, c) && EndsAt(w, t, n, brk, cont, m(store), fuel)
  }

  /** The size of the piece may be given in another way. */
  lemma Sized(w: Context, p: Piece, n: nat, b: bool, c: bool, m: FlowMeaning, fuel: nat)
    requires n == Size(p) && DoesSized(w, p, n, b, c, m, fuel)
    ensures StmtDoes(w, p, b, c, m, fuel)
  {
    forall t, store, brk, cont | Targets(b, c, brk, cont) && Starts(w, t, store, Render(p, brk, cont))
      ensures Allowed(m(store), b, c) && Ends(w, t, Size(p), brk, cont, m(store), fuel)
    {
      assert EndsAt(w, t, n, brk, cont, m(store), fuel);
    }
  }

  /** Only the meaning matters, not how it is written. */
  lemma SameDoes(w: Context, p: Piece, b: bool, c: bool, m: FlowMeaning, k: FlowMeaning, fuel: nat)
    requires StmtDoes(w, p, b, c, m, fuel) && forall s :: k(s) == m(s)
    ensures StmtDoes(w, p, b, c, k, fuel)
  {
  }

  function PlainFlow(m: Change): FlowMeaning {
    store => Plainly(m, store)
  }

  lemma FixedDoes(w: Context, code: Code, m: Change, b: bool, c: bool, fuel: nat)
    requires CodeDoes(w, code, m, fuel)
    ensures StmtDoes(w, Fixed(code), b, c, PlainFlow(m), fuel)
  {
    forall t, store, brk, cont | Targets(b, c, brk, cont) && Starts(w, t, store, Render(Fixed(code), brk, cont))
      ensures Allowed(PlainFlow(m)(store), b, c) && Ends(w, t, |code|, brk, cont, PlainFlow(m)(store), fuel)
    {
      FixedRuns(w, code, m, t, store, brk, cont, fuel);
    }
  }

  function SequelFlow(m: FlowMeaning, k: FlowMeaning): FlowMeaning {
    store => Sequel(m, k, store)
  }

  lemma SequelDoes(w: Context, p: Piece, m: FlowMeaning, q: Piece, k: FlowMeaning, b: bool, c: bool, fuel: nat)
    requires StmtDoes(w, p, b, c, m, fuel) && StmtDoes(w, q, b, c, k, fuel)
    ensures StmtDoes(w, Then(p, q), b, c, SequelFlow(m, k), fuel)
  {
    var n, total := Size(p), Size(Then(p, q));
    forall t, store, brk, cont | Targets(b, c, brk, cont) && Starts(w, t, store, Render(Then(p, q), brk, cont))
      ensures Allowed(SequelFlow(m, k)(store), b, c) && Ends(w, t, total, brk, cont, SequelFlow(m, k)(store), fuel)
    {
      ThenAt(t, 0, p, q, n, brk, cont);
      SequelRuns(w, p, m, q, k, b, c, t, store, n, total, brk, cont, fuel);
    }
  }
}
