/** Runs of switches: the chain of tests, and the bodies that fall through. */
module Switching {
  import opened Wrappers
  import opened Values
  import opened Syntax
  import opened Bytecode
  import opened Emitter
  import opened Pieces
  import opened Shapes
  import opened Machine
  import opened Semantics
  import opened Runs
  import opened Locals
  import opened Glue
  import opened Runners
  import opened Calling
  import opened Flowing
  import opened Looping

  type Hit = Store -> Effect<(bool, Store)>

  /** The cases that have a test: code and meaning of the test, code and meaning of the body. */
  datatype Sides = NoSides | Side(test: Code, hit: Hit, body: Piece, m: FlowMeaning, rest: Sides)

  ghost function ArmsFrom(sides: Sides): Arms {
    match sides case NoSides => NoArms case Side(test, _, body, _, rest) => Arm(test, body, ArmsFrom(rest))
  }

  ghost function BodiesSize(sides: Sides): (n: nat)
    ensures n == Size(BodiesPiece(ArmsFrom(sides)))
  {
    match sides case NoSides => 0 case Side(_, _, body, _, rest) => Size(body) + BodiesSize(rest)
  }

  /** Side `picked` and those after it. */
  ghost predicate IsSuffix(picked: Sides, sides: Sides) {
    picked == sides || (sides.Side? && IsSuffix(picked, sides.rest))
  }

  /** The sides from the first one whose test hits. */
  ghost function Pick(sides: Sides, store: Store): (r: Effect<(Sides, Store)>)
    ensures r.Success? && r.value.0.Side? ==> IsSuffix(r.value.0, sides)
  {
    match sides
    case NoSides => Success((NoSides, store))
    case Side(_, hit, _, _, rest) =>
      var (h, s) :- hit(store);
      if h then Success((sides, s)) else Pick(rest, s)
  }

  ghost function FallThrough(sides: Sides, store: Store): Effect<Flow> {
    match sides
    case NoSides => Success(Normal(store))
    case Side(_, _, _, m, rest) =>
      var f :- m(store);
      if f.Normal? then FallThrough(rest, f.store) else Success(f)
  }

  ghost function Fall(sides: Sides): FlowMeaning {
    s => FallThrough(sides, s)
  }

  /** The code of a test leaves its outcome in the flag. */
  ghost predicate HitDoes(w: Context, test: Code, hit: Hit, fuel: nat) {
    forall t, store :: Starts(w, t, store, test) ==> Leads(w.prog, t, HitGoal(w, t, |test|, hit(store), fuel))
  }

  function HitGoal(w: Context, t: Thread, n: nat, r: Effect<(bool, Store)>, fuel: nat): Goal {
    EffectGoal(r, if r.Success? then At(t, t.stack, Represent(w.names, r.value.1), n, r.value.0) else t, fuel)
  }

  ghost predicate SidesDo(w: Context, sides: Sides, b: bool, c: bool, fuel: nat) {
    match sides
    case NoSides => true
    case Side(test, hit, body, m, rest) =>
      HitDoes(w, test, hit, fuel) && StmtDoes(w, body, b, c, m, fuel) && SidesDo(w, rest, b, c, fuel)
  }

  // ---- one test ----

  lemma TestOnlyStep(prog: Program, t: Thread, s: seq<Value>, a: Value)
    requires CodeAt(t, 0, [TEST]) && t.stack == s + [a]
    ensures Leads(prog, t, match Test(a)
                           case Success(c) => Arrive(At(t, s, t.top.locals, 1, c))
                           case Failure(f) => Abort(f))
  {
    Fetched(t, [TEST]);
    assert Drop(Jump(t, 1), 1).stack == s;
    LeadsStep(prog, t);
  }

  lemma JnzStep(prog: Program, t: Thread, rel: int)
    requires CodeAt(t, 0, [JNZ(rel)])
    ensures Leads(prog, t, Arrive(At(t, t.stack, t.top.locals, if t.flag then 1 + rel else 1, t.flag)))
  {
    Fetched(t, [JNZ(rel)]);
    LeadsStep(prog, t);
  }

  function HitMeaning(m: Meaning, k: Meaning, store: Store): Effect<(bool, Store)> {
    Condition(Combined(Equal, InOrder(m, k, store)))
  }

  lemma HitRuns(w: Context, c: Code, m: Meaning, d: Code, k: Meaning, t: Thread, store: Store, n: nat, fuel: nat)
    requires Does(w, c, m, fuel) && Does(w, d, k, fuel) && Starts(w, t, store, c + d + [BINOP(Equal), TEST])
    requires n == |c + d| + 2
    ensures Leads(w.prog, t, HitGoal(w, t, n, HitMeaning(m, k, store), fuel))
  {
    var f := PairRuns(w, c, m, d, k, [BINOP(Equal), TEST], t, store, fuel);
    assert [BINOP(Equal), TEST] == [BINOP(Equal)] + [TEST];
    CodeAtParts(t, |c + d|, [BINOP(Equal)], [TEST]);
    CombineGlue(w, t, |c + d|, Equal, InOrder(m, k, store), fuel, f);
    HitGlue(w, t, n - 1, n, Combined(Equal, InOrder(m, k, store)), fuel, f);
  }

  lemma HitGlue(w: Context, t: Thread, i: nat, n: nat, r: Effect<(Value, Store)>, fuel: nat, flag: bool)
    requires CodeAt(t, i, [TEST]) && n == i + 1 && Leads(w.prog, t, ExprGoal(w, t, i, r, fuel, flag))
    ensures Leads(w.prog, t, HitGoal(w, t, n, Condition(r), fuel))
  {
    if r.Success? {
      var u := At(t, t.stack + [r.value.0], Represent(w.names, r.value.1), i, flag);
      Moved(t, u, i, 0, [TEST]);
      TestOnlyStep(w.prog, u, t.stack, r.value.0);
      LeadsVia(w.prog, t, u, HitGoal(w, t, n, Condition(r), fuel));
    }
  }

  // ---- the chain of tests ----

  /** At the body that was picked, or past all tests. */
  ghost function PickGoal(w: Context, t: Thread, sides: Sides, b: nat, e: nat, r: Effect<(Sides, Store)>, flag: bool,
                          fuel: nat): Goal
  {
    EffectGoal(r, if r.Success? then
                    At(t, t.stack, Represent(w.names, r.value.1),
                       if r.value.0.NoSides? then e else b + BodiesSize(sides) - BodiesSize(r.value.0), flag)
                  else t, fuel)
  }

  /** The thread `u` is the thread `t`, `n` instructions on and with other variables. */
  predicate Later(t: Thread, u: Thread, n: int) {
    u.top.code == t.top.code && u.top.ip == t.top.ip + n && u.stack == t.stack && u.callers == t.callers
  }

  /** `o` is where the tests start, `b` the first body, `d` the distance, `e` the end of the tests. */
  lemma {:induction false} TestsRun(w: Context, t: Thread, u: Thread, sides: Sides, o: nat, d: int, b: nat, e: nat,
                                    p: bool, c: bool, store: Store, fuel: nat)
    returns (flag: bool)
    requires CodeAt(t, o, TestsCode(ArmsFrom(sides), d)) && d == b - o && e == o + TestsSize(ArmsFrom(sides))
    requires SidesDo(w, sides, p, c, fuel) && |t.top.code| <= MAX_INSTRUCTIONS
    requires Later(t, u, o) && u.top.locals == Represent(w.names, store)
    ensures Leads(w.prog, u, PickGoal(w, t, sides, b, e, Pick(sides, store), flag, fuel))
    decreases sides
  {
    flag := u.flag;
    match sides
    case NoSides =>
      LeadsNowhere(w.prog, u);
    case Side(test, hit, body, _, rest) =>
      var k, rel := FirstSide(w, t, u, sides, o, d, b, p, c, store, fuel);
      var r := hit(store);
      if r.Success? {
        flag := r.value.0;
        if !r.value.0 {
          var v := At(t, t.stack, Represent(w.names, r.value.1), k, false);
          flag := TestsRun(w, t, v, rest, k, rel, b + Size(body), e, p, c, r.value.1, fuel);
          LeadsVia(w.prog, u, v, PickGoal(w, t, sides, b, e, Pick(sides, store), flag, fuel));
        }
      }
  }

  lemma FirstSide(w: Context, t: Thread, u: Thread, sides: Sides, o: nat, d: int, b: nat, p: bool, c: bool,
                  store: Store, fuel: nat)
    returns (k: nat, rel: int)
    requires sides.Side? && CodeAt(t, o, TestsCode(ArmsFrom(sides), d)) && d == b - o
    requires SidesDo(w, sides, p, c, fuel) && |t.top.code| <= MAX_INSTRUCTIONS
    requires Later(t, u, o) && u.top.locals == Represent(w.names, store)
    ensures k == o + |sides.test| + 1 && rel == b + Size(sides.body) - k
    ensures CodeAt(t, k, TestsCode(ArmsFrom(sides.rest), rel))
    ensures Leads(w.prog, u, HitOrMiss(w, t, b, k, sides.hit(store), fuel))
  {
    var n, jump := o + |sides.test|, d - (|sides.test| + 1);
    k, rel := n + 1, jump + Size(sides.body);
    FirstTestAt(t, o, n, k, sides.test, jump, TestsCode(ArmsFrom(sides.rest), rel));
    HitAt(w, t, u, sides.test, sides.hit, o, n, k, jump, b, store, fuel);
  }

  /** At `b` when the test hits, at `k` when it misses. */
  function HitOrMiss(w: Context, t: Thread, b: nat, k: nat, r: Effect<(bool, Store)>, fuel: nat): Goal {
    EffectGoal(r, if r.Success? then
                    At(t, t.stack, Represent(w.names, r.value.1), if r.value.0 then b else k, r.value.0)
                  else t, fuel)
  }

  lemma FirstTestAt(t: Thread, o: nat, n: nat, k: nat, test: Code, rel: int, more: Code)
    requires CodeAt(t, o, test + [JNZ(rel)] + more) && n == o + |test| && k == n + 1
    ensures CodeAt(t, o, test) && CodeAt(t, n, [JNZ(rel)]) && CodeAt(t, k, more)
  {
    CodeAtThree(t, o, test, [JNZ(rel)], more);
  }

  /** A test and its jump. */
  lemma HitAt(w: Context, t: Thread, u: Thread, test: Code, hit: Hit, o: nat, n: nat, k: nat, rel: int, b: nat,
              store: Store, fuel: nat)
    requires HitDoes(w, test, hit, fuel) && CodeAt(t, o, test) && CodeAt(t, n, [JNZ(rel)])
    requires n == o + |test| && k == n + 1 && b == k + rel
    requires Later(t, u, o) && u.top.locals == Represent(w.names, store) && |t.top.code| <= MAX_INSTRUCTIONS
    ensures Leads(w.prog, u, HitOrMiss(w, t, b, k, hit(store), fuel))
  {
    Moved(t, u, o, 0, test);
    assert Starts(w, u, store, test);
    var r := hit(store);
    if r.Success? {
      var v := At(u, u.stack, Represent(w.names, r.value.1), |test|, r.value.0);
      Moved(t, v, n, 0, [JNZ(rel)]);
      JnzStep(w.prog, v, rel);
      LeadsVia(w.prog, u, v, HitOrMiss(w, t, b, k, r, fuel));
    }
  }

  // ---- the bodies ----

  lemma {:induction false} BodiesRun(w: Context, sides: Sides, b: bool, c: bool, fuel: nat)
    requires SidesDo(w, sides, b, c, fuel)
    ensures StmtDoes(w, BodiesPiece(ArmsFrom(sides)), b, c, Fall(sides), fuel)
    decreases sides
  {
    var p := BodiesPiece(ArmsFrom(sides));
    if sides.Side? {
      BodiesRun(w, sides.rest, b, c, fuel);
      var q := BodiesPiece(ArmsFrom(sides.rest));
      SequelDoes(w, sides.body, sides.m, q, Fall(sides.rest), b, c, fuel);
      SameDoes(w, p, b, c, SequelFlow(sides.m, Fall(sides.rest)), Fall(sides), fuel);
      return;
    }
    forall t, store, brk, cont | Targets(b, c, brk, cont) && Starts(w, t, store, Render(p, brk, cont))
      ensures Allowed(Fall(sides)(store), b, c) && Ends(w, t, Size(p), brk, cont, Fall(sides)(store), fuel)
    {
      LeadsNowhere(w.prog, t);
      EndsNormally(w, t, 0, brk, cont, store, t.flag, fuel);
    }
  }

  lemma {:induction false} SuffixDoes(w: Context, picked: Sides, sides: Sides, b: bool, c: bool, fuel: nat)
    requires IsSuffix(picked, sides) && SidesDo(w, sides, b, c, fuel)
    ensures SidesDo(w, picked, b, c, fuel) && BodiesSize(picked) <= BodiesSize(sides)
    decreases sides
  {
    if picked != sides {
      SuffixDoes(w, picked, sides.rest, b, c, fuel);
    }
  }

  /** Where the code of the picked bodies is. */
  lemma {:induction false} SuffixAt(t: Thread, picked: Sides, sides: Sides, n: nat, m: nat, brk: Target, cont: Target)
    requires IsSuffix(picked, sides) && m == n + BodiesSize(sides) - BodiesSize(picked)
    requires CodeAt(t, n, Render(BodiesPiece(ArmsFrom(sides)), Skip(brk, n), Skip(cont, n)))
    ensures CodeAt(t, m, Render(BodiesPiece(ArmsFrom(picked)), Skip(brk, m), Skip(cont, m)))
    decreases sides
  {
    if picked != sides {
      var k, i := n + Size(sides.body), Size(sides.body);
      ThenAt(t, n, sides.body, BodiesPiece(ArmsFrom(sides.rest)), k, Skip(brk, n), Skip(cont, n));
      SkipTwice(brk, n, i, k);
      SkipTwice(cont, n, i, k);
      SuffixAt(t, picked, sides.rest, k, m, brk, cont);
    }
  }

  // ---- the whole switch ----

  /** Tests up to `e`, the jump to the default, bodies from `k`, the default from `f`. */
  datatype Plan = Plan(e: nat, k: nat, f: nat, total: nat)

  ghost predicate SwitchAt(t: Thread, sides: Sides, default: Option<Piece>, x: Plan, cont: Target) {
    var brk := Some(x.total);
    && Planned(sides, default, x)
    && CodeAt(t, 0, TestsCode(ArmsFrom(sides), x.k)) && CodeAt(t, x.e, DefaultJump(ArmsFrom(sides), default))
    && CodeAt(t, x.k, Render(BodiesPiece(ArmsFrom(sides)), Skip(brk, x.k), Skip(cont, x.k)))
    && CodeAt(t, x.f, Render(DefaultOrNothing(default), Skip(brk, x.f), Skip(cont, x.f)))
  }

  ghost predicate Planned(sides: Sides, default: Option<Piece>, x: Plan) {
    && x.e == TestsSize(ArmsFrom(sides)) && x.k == x.e + (if default.None? then 0 else 1)
    && x.f == x.k + BodiesSize(sides) && x.total == x.f + Size(DefaultOrNothing(default))
  }

  lemma SwitchParts(t: Thread, sides: Sides, default: Option<Piece>, x: Plan, brk: Target, cont: Target)
    requires CodeAt(t, 0, Render(SwitchPiece(ArmsFrom(sides), default), brk, cont)) && Planned(sides, default, x)
    ensures SwitchAt(t, sides, default, x, cont)
  {
    var arms := ArmsFrom(sides);
    ArmsAt(t, arms, default, x, brk, cont);
  }

  lemma ArmsAt(t: Thread, arms: Arms, default: Option<Piece>, x: Plan, brk: Target, cont: Target)
    requires x.e == TestsSize(arms) && x.k == x.e + |DefaultJump(arms, default)|
    requires x.f == x.k + Size(BodiesPiece(arms)) && x.total == x.f + Size(DefaultOrNothing(default))
    requires CodeAt(t, 0, Render(SwitchPiece(arms, default), brk, cont))
    ensures CodeAt(t, 0, TestsCode(arms, x.k)) && CodeAt(t, x.e, DefaultJump(arms, default))
    ensures CodeAt(t, x.k, Render(BodiesPiece(arms), Skip(Some(x.total), x.k), Skip(cont, x.k)))
    ensures CodeAt(t, x.f, Render(DefaultOrNothing(default), Skip(Some(x.total), x.f), Skip(cont, x.f)))
  {
    var tests, j, bodies, last := TestsCode(arms, x.k), DefaultJump(arms, default), BodiesPiece(arms), DefaultOrNothing(default);
    SwitchRender(arms, default, x, brk, cont);
    assert |tests| == x.e by { TestsCodeSize(arms, x.k); }
    FourAt(t, tests, j, bodies, last, x, Some(x.total), cont);
  }

  lemma FourAt(t: Thread, tests: Code, j: Code, bodies: Piece, last: Piece, x: Plan, brk: Target, cont: Target)
    requires CodeAt(t, 0, Render(Then(Fixed(tests + j), Then(bodies, last)), brk, cont))
    requires x.e == |tests| && x.k == x.e + |j| && x.f == x.k + Size(bodies)
    ensures CodeAt(t, 0, tests) && CodeAt(t, x.e, j)
    ensures CodeAt(t, x.k, Render(bodies, Skip(brk, x.k), Skip(cont, x.k)))
    ensures CodeAt(t, x.f, Render(last, Skip(brk, x.f), Skip(cont, x.f)))
  {
    FrontAt(t, tests + j, tests, x.e, j, Then(bodies, last), x.k, brk, cont);
    TwoAfter(t, x.k, bodies, last, x.f, brk, cont);
  }

  lemma SwitchRender(arms: Arms, default: Option<Piece>, x: Plan, brk: Target, cont: Target)
    requires x.e == TestsSize(arms) && x.k == x.e + |DefaultJump(arms, default)|
    requires x.f == x.k + Size(BodiesPiece(arms)) && x.total == x.f + Size(DefaultOrNothing(default))
    ensures Render(SwitchPiece(arms, default), brk, cont) ==
            Render(Then(Fixed(TestsCode(arms, x.k) + DefaultJump(arms, default)),
                        Then(BodiesPiece(arms), DefaultOrNothing(default))), Some(x.total), cont)
  {
    TestsCodeSize(arms, x.k);
  }

  function Unbroken(r: Effect<Flow>): Effect<Flow> {
    if r.Success? && r.value.Broken? then Success(Normal(r.value.store)) else r
  }

  /** Once the side is picked: its body and the later ones, and the default's. */
  ghost function After(sides: Sides, has: bool, dm: FlowMeaning, picked: Sides, store: Store): Effect<Flow> {
    if picked.NoSides? && has then dm(store)
    else Sequel(Fall(if picked.Side? then picked else sides), dm, store)
  }

  ghost function SwitchMeaning(sides: Sides, has: bool, dm: FlowMeaning, store: Store): Effect<Flow> {
    var (picked, s) :- Pick(sides, store);
    Unbroken(After(sides, has, dm, picked, s))
  }

  lemma UnbrokenEnds(w: Context, t: Thread, total: nat, brk: Target, cont: Target, r: Effect<Flow>, c: bool, fuel: nat)
    requires Allowed(r, true, c) && Ends(w, t, total, Some(total), cont, r, fuel)
    ensures Allowed(Unbroken(r), false, c) && Ends(w, t, total, brk, cont, Unbroken(r), fuel)
  {
    var x: Exit :| AtReturn(t, r, x) && Leads(w.prog, t, FlowGoal(w, t, total, Some(total), cont, r, x, fuel));
    assert AtReturn(t, Unbroken(r), x);
    assert FlowGoal(w, t, total, Some(total), cont, r, x, fuel) == FlowGoal(w, t, total, brk, cont, Unbroken(r), x, fuel);
  }

  /** From the start of the picked bodies, or of all of them. */
  lemma BodiesFrom(w: Context, t: Thread, u: Thread, sides: Sides, default: Option<Piece>, dm: FlowMeaning, x: Plan,
                   start: Sides, m: nat, c: bool, store: Store, cont: Target, fuel: nat)
    requires SwitchAt(t, sides, default, x, cont) && SidesDo(w, sides, true, c, fuel) && IsSuffix(start, sides)
    requires StmtDoes(w, DefaultOrNothing(default), true, c, dm, fuel) && (c ==> cont.Some?)
    requires |t.top.code| <= MAX_INSTRUCTIONS && m == x.k + BodiesSize(sides) - BodiesSize(start)
    requires Later(t, u, m) && u.top.locals == Represent(w.names, store) && Leads(w.prog, t, Arrive(u))
    ensures var r := Sequel(Fall(start), dm, store);
            Allowed(r, true, c) && Ends(w, t, x.total, Some(x.total), cont, r, fuel)
  {
    SuffixDoes(w, start, sides, true, c, fuel);
    BodiesRun(w, start, true, c, fuel);
    SuffixAt(t, start, sides, x.k, m, Some(x.total), cont);
    TwoFrom(w, t, u, BodiesPiece(ArmsFrom(start)), Fall(start), m, DefaultOrNothing(default), dm, x.f, x.total, c, store,
            Some(x.total), cont, fuel);
  }

  /** From `u`, which has come to the first of two pieces, on through both. */
  lemma TwoFrom(w: Context, t: Thread, u: Thread, p: Piece, pm: FlowMeaning, m: nat, q: Piece, qm: FlowMeaning, n: nat,
                total: nat, c: bool, store: Store, brk: Target, cont: Target, fuel: nat)
    requires StmtDoes(w, p, true, c, pm, fuel) && StmtDoes(w, q, true, c, qm, fuel) && Targets(true, c, brk, cont)
    requires n == m + Size(p) && total == n + Size(q) && |t.top.code| <= MAX_INSTRUCTIONS
    requires CodeAt(t, m, Render(p, Skip(brk, m), Skip(cont, m))) && CodeAt(t, n, Render(q, Skip(brk, n), Skip(cont, n)))
    requires Later(t, u, m) && u.top.locals == Represent(w.names, store) && Leads(w.prog, t, Arrive(u))
    ensures var r := Sequel(pm, qm, store); Allowed(r, true, c) && Ends(w, t, total, brk, cont, r, fuel)
  {
    FlowAt(w, p, true, c, pm, t, u, m, store, Skip(brk, m), Skip(cont, m), fuel);
    EndsAfter(w, t, u, m, Size(p), n, brk, cont, pm(store), fuel);
    SequelFrom(w, n, pm(store), q, qm, true, c, t, total, brk, cont, fuel);
  }

  /** Past all tests: jump to the default, or go into the first body. */
  lemma NonePicked(w: Context, t: Thread, u: Thread, sides: Sides, default: Option<Piece>, dm: FlowMeaning, x: Plan,
                   c: bool, store: Store, cont: Target, fuel: nat)
    requires SwitchAt(t, sides, default, x, cont) && SidesDo(w, sides, true, c, fuel)
    requires StmtDoes(w, DefaultOrNothing(default), true, c, dm, fuel) && (c ==> cont.Some?)
    requires |t.top.code| <= MAX_INSTRUCTIONS
    requires Later(t, u, x.e) && u.top.locals == Represent(w.names, store) && Leads(w.prog, t, Arrive(u))
    ensures var r := After(sides, default.Some?, dm, NoSides, store);
            Allowed(r, true, c) && Ends(w, t, x.total, Some(x.total), cont, r, fuel)
  {
    if default.None? {
      BodiesFrom(w, t, u, sides, default, dm, x, sides, x.k, c, store, cont, fuel);
    } else {
      DefaultRuns(w, t, u, Size(BodiesPiece(ArmsFrom(sides))), default.value, dm, x, c, store, cont, fuel);
    }
  }

  lemma DefaultRuns(w: Context, t: Thread, u: Thread, k: nat, last: Piece, dm: FlowMeaning, x: Plan, c: bool,
                    store: Store, cont: Target, fuel: nat)
    requires x.f == x.e + 1 + k && x.total == x.f + Size(last)
    requires CodeAt(t, x.e, [JMP(k)]) && CodeAt(t, x.f, Render(last, Skip(Some(x.total), x.f), Skip(cont, x.f)))
    requires StmtDoes(w, last, true, c, dm, fuel) && (c ==> cont.Some?) && |t.top.code| <= MAX_INSTRUCTIONS
    requires Later(t, u, x.e) && u.top.locals == Represent(w.names, store) && Leads(w.prog, t, Arrive(u))
    ensures Allowed(dm(store), true, c) && Ends(w, t, x.total, Some(x.total), cont, dm(store), fuel)
  {
    Moved(t, u, x.e, 0, [JMP(k)]);
    JumpStep(w.prog, u, k);
    var v := At(u, u.stack, u.top.locals, 1 + k, u.flag);
    LeadsVia(w.prog, t, u, Arrive(v));
    FlowAt(w, last, true, c, dm, t, v, x.f, store, Skip(Some(x.total), x.f), Skip(cont, x.f), fuel);
    EndsAfter(w, t, v, x.f, Size(last), x.total, Some(x.total), cont, dm(store), fuel);
  }

  lemma SwitchRuns(w: Context, t: Thread, sides: Sides, default: Option<Piece>, dm: FlowMeaning, x: Plan,
                   c: bool, store: Store, brk: Target, cont: Target, fuel: nat)
    requires SwitchAt(t, sides, default, x, cont) && SidesDo(w, sides, true, c, fuel)
    requires StmtDoes(w, DefaultOrNothing(default), true, c, dm, fuel) && (c ==> cont.Some?)
    requires t.top.locals == Represent(w.names, store) && |t.top.code| <= MAX_INSTRUCTIONS
    ensures var r := SwitchMeaning(sides, default.Some?, dm, store);
            Allowed(r, false, c) && Ends(w, t, x.total, brk, cont, r, fuel)
  {
    var r := Pick(sides, store);
    var flag := TestsRun(w, t, t, sides, 0, x.k, x.k, x.e, true, c, store, fuel);
    if r.Failure? {
      EndsStopped(w, t, x.total, brk, cont, r, SwitchMeaning(sides, default.Some?, dm, store), t, fuel);
    } else {
      var (picked, s) := r.value;
      PickedRuns(w, t, sides, default, dm, x, picked, c, s, flag, cont, fuel);
      UnbrokenEnds(w, t, x.total, brk, cont, After(sides, default.Some?, dm, picked, s), c, fuel);
    }
  }

  lemma PickedAt(w: Context, t: Thread, sides: Sides, x: Plan, picked: Sides, store: Store, flag: bool, fuel: nat)
    returns (m: nat, u: Thread)
    requires picked.Side? && BodiesSize(picked) <= BodiesSize(sides)
    requires Leads(w.prog, t, PickGoal(w, t, sides, x.k, x.e, Success((picked, store)), flag, fuel))
    ensures m == x.k + BodiesSize(sides) - BodiesSize(picked)
    ensures Later(t, u, m) && u.top.locals == Represent(w.names, store) && Leads(w.prog, t, Arrive(u))
  {
    m := x.k + BodiesSize(sides) - BodiesSize(picked);
    u := At(t, t.stack, Represent(w.names, store), m, flag);
  }

  lemma PickedRuns(w: Context, t: Thread, sides: Sides, default: Option<Piece>, dm: FlowMeaning, x: Plan, picked: Sides,
                   c: bool, store: Store, flag: bool, cont: Target, fuel: nat)
    requires SwitchAt(t, sides, default, x, cont) && SidesDo(w, sides, true, c, fuel)
    requires StmtDoes(w, DefaultOrNothing(default), true, c, dm, fuel) && (c ==> cont.Some?)
    requires |t.top.code| <= MAX_INSTRUCTIONS && (picked.Side? ==> IsSuffix(picked, sides))
    requires Leads(w.prog, t, PickGoal(w, t, sides, x.k, x.e, Success((picked, store)), flag, fuel))
    ensures var r := After(sides, default.Some?, dm, picked, store);
            Allowed(r, true, c) && Ends(w, t, x.total, Some(x.total), cont, r, fuel)
  {
    if picked.NoSides? {
      var u := At(t, t.stack, Represent(w.names, store), x.e, flag);
      NonePicked(w, t, u, sides, default, dm, x, c, store, cont, fuel);
    } else {
      SuffixDoes(w, picked, sides, true, c, fuel);
      var m, u := PickedAt(w, t, sides, x, picked, store, flag, fuel);
      BodiesFrom(w, t, u, sides, default, dm, x, picked, m, c, store, cont, fuel);
    }
  }

  ghost function SwitchFlow(sides: Sides, has: bool, dm: FlowMeaning): FlowMeaning {
    store => SwitchMeaning(sides, has, dm, store)
  }

  lemma ThreeSize(scope: Scope, at: nat, tests: Code, bodies: Piece, last: Piece)
    ensures Size(Scoped(scope, at, Then(Fixed(tests), Then(bodies, last)))) == |tests| + Size(bodies) + Size(last)
  {
    assert Size(Then(bodies, last)) == Size(bodies) + Size(last);
    assert Size(Then(Fixed(tests), Then(bodies, last))) == |tests| + Size(bodies) + Size(last);
  }

  lemma SwitchSize(arms: Arms, default: Option<Piece>)
    ensures Size(SwitchPiece(arms, default)) ==
            TestsSize(arms) + |DefaultJump(arms, default)| + Size(BodiesPiece(arms)) + Size(DefaultOrNothing(default))
  {
    var j := DefaultJump(arms, default);
    var tests := TestsCode(arms, TestsSize(arms) + |j|);
    assert |tests| == TestsSize(arms) by { TestsCodeSize(arms, TestsSize(arms) + |j|); }
    ThreeSize(Scope(true, false), 0, tests + j, BodiesPiece(arms), DefaultOrNothing(default));
  }

  lemma PlanSize(sides: Sides, default: Option<Piece>, x: Plan)
    requires Planned(sides, default, x)
    ensures Size(SwitchPiece(ArmsFrom(sides), default)) == x.total
  {
    SwitchSize(ArmsFrom(sides), default);
  }

  lemma SwitchDoes(w: Context, sides: Sides, default: Option<Piece>, dm: FlowMeaning, b: bool, c: bool, fuel: nat)
    requires SidesDo(w, sides, true, c, fuel) && StmtDoes(w, DefaultOrNothing(default), true, c, dm, fuel)
    ensures StmtDoes(w, SwitchPiece(ArmsFrom(sides), default), b, c, SwitchFlow(sides, default.Some?, dm), fuel)
  {
    var x := PlanOf(sides, default);
    PlanSize(sides, default, x);
    SwitchEvery(w, sides, default, dm, x, b, c, fuel);
    Sized(w, SwitchPiece(ArmsFrom(sides), default), x.total, b, c, SwitchFlow(sides, default.Some?, dm), fuel);
  }

  lemma SwitchEvery(w: Context, sides: Sides, default: Option<Piece>, dm: FlowMeaning, x: Plan, b: bool, c: bool, fuel: nat)
    requires SidesDo(w, sides, true, c, fuel) && StmtDoes(w, DefaultOrNothing(default), true, c, dm, fuel)
    requires Planned(sides, default, x)
    ensures DoesSized(w, SwitchPiece(ArmsFrom(sides), default), x.total, b, c, SwitchFlow(sides, default.Some?, dm), fuel)
  {
    var p, m := SwitchPiece(ArmsFrom(sides), default), SwitchFlow(sides, default.Some?, dm);
    forall t, store, brk, cont | Targets(b, c, brk, cont) && Starts(w, t, store, Render(p, brk, cont))
      ensures Allowed(m(store), b, c) && EndsAt(w, t, x.total, brk, cont, m(store), fuel)
    {
      SwitchFrom(w, t, p, m, sides, default, dm, x, b, c, store, brk, cont, fuel);
    }
  }

  lemma SwitchFrom(w: Context, t: Thread, p: Piece, m: FlowMeaning, sides: Sides, default: Option<Piece>, dm: FlowMeaning,
                   x: Plan, b: bool, c: bool, store: Store, brk: Target, cont: Target, fuel: nat)
    requires p == SwitchPiece(ArmsFrom(sides), default) && m == SwitchFlow(sides, default.Some?, dm)
    requires Starts(w, t, store, Render(p, brk, cont)) && Targets(b, c, brk, cont)
    requires Planned(sides, default, x) && SidesDo(w, sides, true, c, fuel)
    requires StmtDoes(w, DefaultOrNothing(default), true, c, dm, fuel)
    ensures Allowed(m(store), b, c) && EndsAt(w, t, x.total, brk, cont, m(store), fuel)
  {
    SwitchParts(t, sides, default, x, brk, cont);
    SwitchRuns(w, t, sides, default, dm, x, c, store, brk, cont, fuel);
  }

  ghost function PlanOf(sides: Sides, default: Option<Piece>): (x: Plan)
    ensures Planned(sides, default, x)
  {
    var e := TestsSize(ArmsFrom(sides));
    var k := e + (if default.None? then 0 else 1);
    var f := k + BodiesSize(sides);
    Plan(e, k, f, f + Size(DefaultOrNothing(default)))
  }
}
