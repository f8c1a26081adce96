/**
 * Every address of a compiled function has one operand-stack depth, whatever way leads there: expressions
 * add one value, statements none, and a function returns with exactly one.
 */
module Depths {
  import opened Wrappers
  import opened Values
  import opened Syntax
  import opened Bytecode
  import opened Emitter
  import opened Pieces
  import opened Shapes
  import opened Layout
  import opened Jumps

  /** How many operands an instruction takes; a call takes the arguments, self and their number. */
  function Pops(ins: Instruction): nat {
    match ins
    case POP | UNARY(_) | RET | TEST => 1
    case STORE | BINOP(_) => 2
    case CALL(_, nargs, _) => nargs + 2
    case _ => 0
  }

  function Pushes(ins: Instruction): nat {
    match ins
    case POP | RET | TEST | JMP(_) | JZ(_) | JNZ(_) => 0
    case _ => 1
  }

  predicate FallsThrough(ins: Instruction) {
    !ins.JMP? && !ins.RET?
  }

  /** What an address is for: some are reached from the instruction before them only, and find what it pushed. */
  datatype Due = Anything | StoreDue | CallDue(nargs: nat)

  datatype Spot = Spot(depth: int, due: Due)

  function Plain(depth: int): Spot {
    Spot(depth, Anything)
  }

  /** The depth before every instruction of a piece of code, and after the last one. */
  type Profile = seq<Spot>

  /** Places outside the code with the depth that they have. */
  type Outside = set<(int, int)>

  predicate Lands(ds: Profile, t: int, d: int, outside: Outside) {
    (0 <= t < |ds| && ds[t] == Plain(d)) || (t, d) in outside
  }

  /** A store comes right after a reference, a call right after its number of arguments, and no reference without a store. */
  predicate Expects(due: Due, ins: Instruction) {
    match due
    case Anything => !ins.STORE? && !ins.CALL?
    case StoreDue => ins.STORE?
    case CallDue(n) => ins.CALL? && ins.nargs == n
  }

  predicate Prepares(ins: Instruction, due: Due) {
    match due
    case Anything => !ins.REF?
    case StoreDue => ins.REF?
    case CallDue(n) => ins == PUSH(PushCount(n))
  }

  /** The operands are there, and whatever comes next has the depth that the instruction leaves. */
  predicate StepsRight(ins: Instruction, i: nat, ds: Profile, outside: Outside)
    requires i + 1 < |ds|
  {
    && ds[i].depth >= Pops(ins) && Expects(ds[i].due, ins)
    && (FallsThrough(ins) ==> ds[i + 1].depth == ds[i].depth - Pops(ins) + Pushes(ins) && Prepares(ins, ds[i + 1].due))
    && (ins.IsJump() ==> Lands(ds, i + 1 + ins.rel, ds[i].depth, outside))
    && (ins.RET? ==> ds[i].depth == 1)
  }

  predicate Steady(c: Code, ds: Profile, outside: Outside) {
    |ds| == |c| + 1 && forall i :: 0 <= i < |c| ==> StepsRight(c[i], i, ds, outside)
  }

  /** The places outside a part are places of the whole, of which the part starts at `n`. */
  predicate Covered(ds: Profile, part: Outside, n: int, outside: Outside) {
    forall x :: x in part ==> Lands(ds, x.0 + n, x.1, outside)
  }

  function Joint(da: Profile, db: Profile): Profile {
    if da == [] then db else da[..|da| - 1] + db
  }

  lemma PartsSteady(a: Code, da: Profile, oa: Outside, b: Code, db: Profile, ob: Outside, n: nat, ds: Profile, outside: Outside)
    requires Steady(a, da, oa) && Steady(b, db, ob) && n == |a| && da[n] == db[0] && ds == Joint(da, db)
    requires Covered(ds, oa, 0, outside) && Covered(ds, ob, n, outside)
    ensures Steady(a + b, ds, outside)
  {
    assert |ds| == |a| + |b| + 1;
    forall i | 0 <= i < |a + b| ensures StepsRight((a + b)[i], i, ds, outside) {
      if i < n {
        FirstPart(a, da, oa, n, ds, i, outside);
      } else {
        SecondPart(b, db, ob, n, ds, i - n, outside);
      }
    }
  }

  lemma FirstPart(a: Code, da: Profile, oa: Outside, n: nat, ds: Profile, i: nat, outside: Outside)
    requires Steady(a, da, oa) && n == |a| && i < n < |ds| && Covered(ds, oa, 0, outside)
    requires forall j :: 0 <= j <= n ==> ds[j] == da[j]
    ensures StepsRight(a[i], i, ds, outside)
  {
    assert StepsRight(a[i], i, da, oa);
    if a[i].IsJump() && (i + 1 + a[i].rel, da[i].depth) in oa {
      assert Lands(ds, i + 1 + a[i].rel + 0, da[i].depth, outside);
    }
  }

  lemma SecondPart(b: Code, db: Profile, ob: Outside, n: nat, ds: Profile, i: nat, outside: Outside)
    requires Steady(b, db, ob) && i < |b| && |ds| == n + |b| + 1 && Covered(ds, ob, n, outside)
    requires forall j :: 0 <= j <= |b| ==> ds[n + j] == db[j]
    ensures StepsRight(b[i], n + i, ds, outside)
  {
    assert StepsRight(b[i], i, db, ob);
    assert ds[n + i] == db[i] && ds[n + (i + 1)] == db[i + 1];
    if b[i].IsJump() {
      var t := i + 1 + b[i].rel;
      if (t, db[i].depth) in ob {
        assert Lands(ds, t + n, db[i].depth, outside);
      } else {
        assert ds[n + t] == db[t];
      }
    }
  }

  /** Code that stays inside itself, and takes the depth from `k` to `m`. */
  predicate Climbs(c: Code, ds: Profile, k: int, m: int) {
    Steady(c, ds, {}) && ds[0] == Plain(k) && ds[|c|] == Plain(m)
  }

  ghost predicate Climb(c: Code, k: int, m: int) {
    exists ds :: Climbs(c, ds, k, m)
  }

  lemma ClimbJoined(a: Code, b: Code, k: int, l: int, m: int)
    requires Climb(a, k, l) && Climb(b, l, m)
    ensures Climb(a + b, k, m)
  {
    var da :| Climbs(a, da, k, l);
    var db :| Climbs(b, db, l, m);
    PartsSteady(a, da, {}, b, db, {}, |a|, Joint(da, db), {});
    assert Climbs(a + b, Joint(da, db), k, m);
  }

  lemma ClimbNothing(k: int)
    ensures Climb([], k, k)
  {
    assert Climbs([], [Plain(k)], k, k);
  }

  /** No jump, no return, and not half of a pair. */
  predicate Single(ins: Instruction) {
    !ins.IsJump() && !ins.RET? && !ins.REF? && !ins.STORE? && !ins.CALL?
  }

  lemma ClimbMore(c: Code, ins: Instruction, k: int, l: int, m: int)
    requires Climb(c, k, l) && Single(ins) && l >= Pops(ins) && m == l - Pops(ins) + Pushes(ins)
    ensures Climb(c + [ins], k, m)
  {
    assert Climbs([ins], [Plain(l), Plain(m)], l, m);
    ClimbJoined(c, [ins], k, l, m);
  }

  lemma ClimbOne(ins: Instruction, k: int)
    requires Single(ins) && k >= Pops(ins)
    ensures Climb([ins], k, k - Pops(ins) + Pushes(ins))
  {
    var m := k - Pops(ins) + Pushes(ins);
    assert Climbs([ins], [Plain(k), Plain(m)], k, m);
  }

  /** A reference and the store through it. */
  lemma ClimbStore(c: Code, lvalue: Instruction, k: int, l: int)
    requires Climb(c, k, l) && lvalue.REF? && l >= 1
    ensures Climb(c + [lvalue, STORE], k, l)
  {
    assert Climbs([lvalue, STORE], [Plain(l), Spot(l + 1, StoreDue), Plain(l)], l, l);
    ClimbJoined(c, [lvalue, STORE], k, l, l);
  }

  /** A number of arguments and the call. */
  lemma ClimbCall(c: Code, call: Instruction, k: int, l: int, m: int)
    requires Climb(c, k, l) && call.CALL? && l >= call.nargs + 1 && m == l - call.nargs
    ensures Climb(c + [PUSH(PushCount(call.nargs)), call], k, m)
  {
    var pair := [PUSH(PushCount(call.nargs)), call];
    assert Climbs(pair, [Plain(l), Spot(l + 1, CallDue(call.nargs)), Plain(m)], l, m);
    ClimbJoined(c, pair, k, l, m);
  }

  // ---- operators with jumps ----

  /** `[TEST, JZ(r)]` and its like: the depth at the target is that after the test. */
  lemma TestSteady(jump: Instruction, r: int, k: nat)
    requires (jump.JZ? || jump.JNZ?) && jump.rel == r
    ensures Steady([TEST, jump], [Plain(k + 1), Plain(k), Plain(k)], {(r + 2, k)})
  {
  }

  lemma LogicalParts(jump: Instruction, one: bool, n: nat, op: BinaryOp, k: nat)
    requires jump.JZ? || jump.JNZ?
    ensures Steady([TEST, jump.WithRel(n + 3), CONST(one)], [Plain(k + 1), Plain(k), Plain(k), Plain(k + 1)], {(n + 5, k)})
    ensures Steady([BINOP(op), JMP(1), CONST(!one)], [Plain(k + 2), Plain(k + 1), Plain(k), Plain(k + 1)], {})
  {
  }

  lemma LogicalClimbs(l: Code, jump: Instruction, one: bool, r: Code, op: BinaryOp, k: nat)
    requires Climb(l, k, k + 1) && Climb(r, k + 1, k + 2) && (jump.JZ? || jump.JNZ?)
    ensures Climb(LogicalCode(l, jump, one, r, op), k, k + 1)
  {
    var dr :| Climbs(r, dr, k + 1, k + 2);
    LogicalRest(jump, one, r, dr, |r|, op, k);
    var rest := [TEST, jump.WithRel(|r| + 3), CONST(one)] + (r + [BINOP(op), JMP(1), CONST(!one)]);
    ClimbJoined(l, rest, k, k + 1, k + 1);
    LogicalShape(l, jump, one, r, op);
  }

  lemma LogicalShape(l: Code, jump: Instruction, one: bool, r: Code, op: BinaryOp)
    requires jump.JZ? || jump.JNZ?
    ensures LogicalCode(l, jump, one, r, op)
         == l + ([TEST, jump.WithRel(|r| + 3), CONST(one)] + (r + [BINOP(op), JMP(1), CONST(!one)]))
  {
  }

  lemma LogicalRest(jump: Instruction, one: bool, r: Code, dr: Profile, n: nat, op: BinaryOp, k: nat)
    requires Climbs(r, dr, k + 1, k + 2) && n == |r| && (jump.JZ? || jump.JNZ?)
    ensures Climb([TEST, jump.WithRel(n + 3), CONST(one)] + (r + [BINOP(op), JMP(1), CONST(!one)]), k + 1, k + 1)
  {
    var test, tail := [TEST, jump.WithRel(n + 3), CONST(one)], [BINOP(op), JMP(1), CONST(!one)];
    var dt, de := [Plain(k + 1), Plain(k), Plain(k), Plain(k + 1)], [Plain(k + 2), Plain(k + 1), Plain(k), Plain(k + 1)];
    var rest, x, y := Joint(dr, de), n + 2, n + 5;
    LogicalParts(jump, one, n, op, k);
    PartsSteady(r, dr, {}, tail, de, {}, n, rest, {});
    JointAt(dr, de, n, 2, x);
    JointAt(dt, rest, 3, x, y);
    PartsSteady(test, dt, {(y, k)}, r + tail, rest, {}, 3, Joint(dt, rest), {});
    assert Climbs(test + (r + tail), Joint(dt, rest), k + 1, k + 1);
  }

  lemma BranchClimbs(t: Code, a: Code, b: Code, k: nat)
    requires Climb(t, k, k + 1) && Climb(a, k, k + 1) && Climb(b, k, k + 1)
    ensures Climb(BranchCode(t, a, b), k, k + 1)
  {
    var da :| Climbs(a, da, k, k + 1);
    var db :| Climbs(b, db, k, k + 1);
    var m, n := |a|, |b|;
    var second := Joint([Plain(k + 1), Plain(k)], db);
    SecondBranch(b, db, k, n);
    FirstBranch(a, da, [JMP(n)] + b, second, k, m);
    ClimbJoined(t, [TEST, JZ(m + 1)] + (a + ([JMP(n)] + b)), k, k + 1, k + 1);
    BranchShape(t, a, b);
  }

  lemma BranchShape(t: Code, a: Code, b: Code)
    ensures BranchCode(t, a, b) == t + ([TEST, JZ(|a| + 1)] + (a + ([JMP(|b|)] + b)))
  {
  }

  lemma SecondBranch(b: Code, db: Profile, k: nat, n: nat)
    requires Climbs(b, db, k, k + 1) && n == |b|
    ensures var ds := Joint([Plain(k + 1), Plain(k)], db);
            Steady([JMP(n)] + b, ds, {}) && ds[0] == Plain(k + 1) && ds[1] == Plain(k) && ds[n + 1] == Plain(k + 1)
  {
    var ds, o := Joint([Plain(k + 1), Plain(k)], db), {(n + 1, k + 1)};
    assert Steady([JMP(n)], [Plain(k + 1), Plain(k)], o);
    assert ds[n + 1] == Plain(k + 1);
    PartsSteady([JMP(n)], [Plain(k + 1), Plain(k)], o, b, db, {}, 1, ds, {});
  }

  lemma FirstBranch(a: Code, da: Profile, rest: Code, dr: Profile, k: nat, m: nat)
    requires Climbs(a, da, k, k + 1) && m == |a| && |rest| > 0
    requires Steady(rest, dr, {}) && dr[0] == Plain(k + 1) && dr[1] == Plain(k) && dr[|rest|] == Plain(k + 1)
    ensures Climb([TEST, JZ(m + 1)] + (a + rest), k + 1, k + 1)
  {
    var both := Joint(da, dr);
    PartsSteady(a, da, {}, rest, dr, {}, m, both, {});
    var all, o := Joint([Plain(k + 1), Plain(k), Plain(k)], both), {(m + 3, k)};
    assert both[m + 1] == dr[1];
    assert all[m + 3] == both[m + 1];
    TestSteady(JZ(m + 1), m + 1, k);
    PartsSteady([TEST, JZ(m + 1)], [Plain(k + 1), Plain(k), Plain(k)], o, a + rest, both, {}, 2, all, {});
    assert Climbs([TEST, JZ(m + 1)] + (a + rest), all, k + 1, k + 1);
  }

  // ---- the expression syntax ----

  lemma {:induction false} ExprClimbs(e: Expr, names: seq<string>, k: nat)
    ensures Climb(ExprCode(e, names), k, k + 1)
    decreases e, 1
  {
    match e
    case Lit(l) => ClimbOne(PUSH(l), k);
    case Self => ClimbOne(LOAD(0), k);
    case Id(x) => ClimbOne(LOAD(Slot(names, x)), k);
    case Group(a) => ExprClimbs(a, names, k);
    case Negate(a) => ExprClimbs(a, names, k); NegateClimbs(ExprCode(a, names), k);
    case Prefix(op, a) => ExprClimbs(a, names, k); ClimbMore(ExprCode(a, names), UNARY(op), k, k + 1, k + 1);
    case Postfix(increment, a) =>
      ExprClimbs(a, names, k);
      ExprClimbs(a, names, k + 1);
      PostfixClimbs(ExprCode(a, names), if increment then Add else Sub, LvalueCode(a, names), k);
    case Assign(l, r) =>
      ExprClimbs(r, names, k);
      StoreClimbs(ExprCode(r, names), LvalueCode(l, names), k);
    case OpAssign(op, l, r) =>
      ExprClimbs(l, names, k);
      ExprClimbs(r, names, k + 1);
      BinaryClimbs(ExprCode(l, names), ExprCode(r, names), op, k);
      var c := ExprCode(l, names) + ExprCode(r, names) + [BINOP(op)];
      StoreClimbs(c, LvalueCode(l, names), k);
      assert c + [LvalueCode(l, names), STORE] == ExprCode(e, names);
    case Binary(op, l, r) =>
      ExprClimbs(l, names, k);
      ExprClimbs(r, names, k + 1);
      BinaryClimbs(ExprCode(l, names), ExprCode(r, names), op, k);
    case And(l, r) =>
      ExprClimbs(l, names, k);
      ExprClimbs(r, names, k + 1);
      LogicalClimbs(ExprCode(l, names), JZ(0), true, ExprCode(r, names), LogicalAnd, k);
    case Or(l, r) =>
      ExprClimbs(l, names, k);
      ExprClimbs(r, names, k + 1);
      LogicalClimbs(ExprCode(l, names), JNZ(0), false, ExprCode(r, names), LogicalOr, k);
    case Ternary(t, a, b) =>
      ExprClimbs(t, names, k);
      ExprClimbs(a, names, k);
      ExprClimbs(b, names, k);
      BranchClimbs(ExprCode(t, names), ExprCode(a, names), ExprCode(b, names), k);
    case Call(receiver, callee, arguments) =>
      ArgumentsClimb(arguments, names, k);
      var n := |arguments|;
      match receiver {
        case Some(r) => ExprClimbs(r, names, k + n);
        case None => ClimbOne(LOAD(0), k + n);
      }
      CallClimbs(ArgumentsCode(arguments, names), ReceiverCode(receiver, names), CALL(callee, n, receiver.Some?), k, k + n);
  }

  lemma {:induction false} ArgumentsClimb(es: seq<Expr>, names: seq<string>, k: nat)
    ensures Climb(ArgumentsCode(es, names), k, k + |es|)
    decreases es, 0
  {
    if es == [] {
      ClimbNothing(k);
    } else {
      var n := k + |es| - 1;
      ArgumentsClimb(es[1..], names, k);
      ExprClimbs(es[0], names, n);
      ClimbJoined(ArgumentsCode(es[1..], names), ExprCode(es[0], names), k, n, n + 1);
    }
  }

  lemma NegateClimbs(c: Code, k: nat)
    requires Climb(c, k, k + 1)
    ensures Climb(c + [CONST(false), BINOP(Sub)], k, k + 1)
  {
    ClimbMore(c, CONST(false), k, k + 1, k + 2);
    ClimbMore(c + [CONST(false)], BINOP(Sub), k, k + 2, k + 1);
    assert c + [CONST(false)] + [BINOP(Sub)] == c + [CONST(false), BINOP(Sub)];
  }

  lemma StoreClimbs(c: Code, lvalue: Instruction, k: nat)
    requires Climb(c, k, k + 1) && lvalue.REF?
    ensures Climb(c + [lvalue, STORE], k, k + 1)
  {
    ClimbStore(c, lvalue, k, k + 1);
  }

  lemma BinaryClimbs(l: Code, r: Code, op: BinaryOp, k: nat)
    requires Climb(l, k, k + 1) && Climb(r, k + 1, k + 2)
    ensures Climb(l + r + [BINOP(op)], k, k + 1)
  {
    ClimbJoined(l, r, k, k + 1, k + 2);
    ClimbMore(l + r, BINOP(op), k, k + 2, k + 1);
  }

  lemma PostfixClimbs(c: Code, op: BinaryOp, lvalue: Instruction, k: nat)
    requires Climb(c, k, k + 1) && Climb(c, k + 1, k + 2) && lvalue.REF?
    ensures Climb(c + c + [CONST(true), BINOP(op), lvalue, STORE, POP], k, k + 1)
  {
    ClimbJoined(c, c, k, k + 1, k + 2);
    ClimbMore(c + c, CONST(true), k, k + 2, k + 3);
    ClimbMore(c + c + [CONST(true)], BINOP(op), k, k + 3, k + 2);
    ClimbStore(c + c + [CONST(true)] + [BINOP(op)], lvalue, k, k + 2);
    ClimbMore(c + c + [CONST(true)] + [BINOP(op)] + [lvalue, STORE], POP, k, k + 2, k + 1);
    assert c + c + [CONST(true)] + [BINOP(op)] + [lvalue, STORE] + [POP]
        == c + c + [CONST(true), BINOP(op), lvalue, STORE, POP];
  }

  lemma CallClimbs(a: Code, r: Code, call: Instruction, k: nat, n: nat)
    requires Climb(a, k, n) && Climb(r, n, n + 1) && call.CALL? && n == k + call.nargs
    ensures Climb(a + r + [PUSH(PushCount(call.nargs)), call], k, k + 1)
  {
    ClimbJoined(a, r, k, n, n + 1);
    ClimbCall(a + r, call, k, n + 1, k + 1);
  }

  // ---- statements ----

  /** The targets of breaks and continues, where nothing is on the stack. */
  function Exits(brk: Target, cont: Target): Outside {
    (if brk.Some? then {(brk.value, 0)} else {}) + (if cont.Some? then {(cont.value, 0)} else {})
  }

  predicate Zero(ds: Profile, x: int) {
    0 <= x < |ds| && ds[x] == Plain(0)
  }

  /**
   * Nothing is on the stack where breaks and continues are and may lead: at and after a jump, at the end of a
   * scope and where a loop continues. The piece starts at `x`.
   */
  predicate Marked(p: Piece, ds: Profile, x: nat) {
    match p
    case Fixed(_) => true
    case Then(a, b) => Marked(a, ds, x) && Marked(b, ds, x + Size(a))
    case Leave(_) => Zero(ds, x) && Zero(ds, x + 1)
    case Scoped(scope, at, body) =>
      Marked(body, ds, x) && Zero(ds, x + Size(body)) && (scope.allowsContinue ==> Zero(ds, x + at))
  }

  lemma {:induction false} MarkedThere(p: Piece, da: Profile, x: nat, ds: Profile, n: nat, y: nat)
    requires Marked(p, da, x) && y == n + x && n + |da| <= |ds|
    requires forall i :: 0 <= i < |da| ==> ds[n + i] == da[i]
    ensures Marked(p, ds, y)
    decreases p
  {
    match p
    case Then(a, b) =>
      MarkedThere(a, da, x, ds, n, y);
      MarkedThere(b, da, x + Size(a), ds, n, y + Size(a));
    case Scoped(_, _, body) => MarkedThere(body, da, x, ds, n, y);
    case _ =>
  }

  lemma MarkedBoth(a: Piece, da: Profile, b: Piece, db: Profile, n: nat)
    requires |da| == n + 1 && |db| > 0 && da[n] == db[0] && Marked(a, da, 0) && Marked(b, db, 0)
    ensures Marked(a, Joint(da, db), 0) && Marked(b, Joint(da, db), n)
  {
    var ds := Joint(da, db);
    forall i | 0 <= i < |da| ensures ds[0 + i] == da[i] {
    }
    MarkedThere(a, da, 0, ds, 0, 0);
    MarkedThere(b, db, 0, ds, n, n);
  }

  /** A piece that starts and ends with nothing on the stack, and leaves only so. */
  ghost predicate Level(p: Piece, ds: Profile) {
    && |ds| == Size(p) + 1 && ds[0] == Plain(0) && ds[Size(p)] == Plain(0) && Marked(p, ds, 0)
    && forall brk, cont :: Steady(Render(p, brk, cont), ds, Exits(brk, cont))
  }

  /** The same, with nothing on the stack at `x` either. */
  ghost predicate LevelAt(p: Piece, x: nat) {
    x <= Size(p) && exists ds :: Level(p, ds) && ds[x] == Plain(0)
  }

  lemma MoreOutside(c: Code, ds: Profile, o: Outside, outside: Outside)
    requires Steady(c, ds, o) && Covered(ds, o, 0, outside)
    ensures Steady(c, ds, outside)
  {
    forall i | 0 <= i < |c| ensures StepsRight(c[i], i, ds, outside) {
      assert StepsRight(c[i], i, ds, o);
      if c[i].IsJump() && (i + 1 + c[i].rel, ds[i].depth) in o {
        assert Lands(ds, i + 1 + c[i].rel + 0, ds[i].depth, outside);
      }
    }
  }

  lemma FixedLevel(c: Code)
    requires Climb(c, 0, 0)
    ensures LevelAt(Fixed(c), 0)
  {
    var ds :| Climbs(c, ds, 0, 0);
    forall brk, cont ensures Steady(Render(Fixed(c), brk, cont), ds, Exits(brk, cont)) {
      MoreOutside(c, ds, {}, Exits(brk, cont));
    }
    assert Level(Fixed(c), ds);
  }

  lemma ReturnLevel(c: Code)
    requires Climb(c, 0, 1)
    ensures LevelAt(Fixed(c + [RET]), 0)
  {
    var dc :| Climbs(c, dc, 0, 1);
    var ds := Joint(dc, [Plain(1), Plain(0)]);
    PartsSteady(c, dc, {}, [RET], [Plain(1), Plain(0)], {}, |c|, ds, {});
    forall brk, cont ensures Steady(Render(Fixed(c + [RET]), brk, cont), ds, Exits(brk, cont)) {
      MoreOutside(c + [RET], ds, {}, Exits(brk, cont));
    }
    assert Level(Fixed(c + [RET]), ds);
  }

  lemma LeaveLevel(kind: JumpKind)
    ensures LevelAt(Leave(kind), 0)
  {
    var ds := [Plain(0), Plain(0)];
    forall brk, cont ensures Steady(Render(Leave(kind), brk, cont), ds, Exits(brk, cont)) {
      var t := if kind.BreakJump? then brk else cont;
      assert Render(Leave(kind), brk, cont) == [Goto(t)];
      assert StepsRight(Goto(t), 0, ds, Exits(brk, cont));
    }
    assert Level(Leave(kind), ds);
  }

  /** Code in front of a piece, which leads to places of the whole or to where the piece leads. */
  lemma InFront(code: Code, dc: Profile, o: Outside, q: Piece, dq: Profile, n: nat, ds: Profile, brk: Target, cont: Target)
    requires n == |code| && Steady(code, dc, o) && dc[n] == Plain(0) && Level(q, dq) && ds == Joint(dc, dq)
    requires Covered(ds, o, 0, Exits(brk, cont))
    ensures Steady(code + Render(q, Skip(brk, n), Skip(cont, n)), ds, Exits(brk, cont))
  {
    var b, c := Skip(brk, n), Skip(cont, n);
    assert Steady(Render(q, b, c), dq, Exits(b, c));
    forall x | x in Exits(b, c) ensures Lands(ds, x.0 + n, x.1, Exits(brk, cont)) {
      assert (x.0 + n, x.1) in Exits(brk, cont);
    }
    PartsSteady(code, dc, o, Render(q, b, c), dq, Exits(b, c), n, ds, Exits(brk, cont));
  }

  lemma ThenLevel(a: Piece, b: Piece, x: nat, y: nat)
    requires LevelAt(a, 0) && LevelAt(b, x) && y == Size(a) + x
    ensures LevelAt(Then(a, b), y)
  {
    var da :| Level(a, da) && da[0] == Plain(0);
    var db :| Level(b, db) && db[x] == Plain(0);
    TwoLevel(a, da, b, db);
    JointAt(da, db, Size(a), x, y);
    IsLevelAt(Then(a, b), Joint(da, db), y);
  }

  lemma JointAt(da: Profile, db: Profile, n: nat, x: nat, y: nat)
    requires |da| == n + 1 && x < |db| && y == n + x
    ensures y < |Joint(da, db)| && Joint(da, db)[y] == db[x]
  {
  }

  lemma IsLevelAt(p: Piece, ds: Profile, x: nat)
    requires Level(p, ds) && x <= Size(p) && ds[x] == Plain(0)
    ensures LevelAt(p, x)
  {
  }

  lemma TwoLevel(a: Piece, da: Profile, b: Piece, db: Profile)
    requires Level(a, da) && Level(b, db)
    ensures Level(Then(a, b), Joint(da, db))
  {
    var ds := Joint(da, db);
    forall brk, cont ensures Steady(Render(Then(a, b), brk, cont), ds, Exits(brk, cont)) {
      TwoSteady(a, da, b, db, Size(a), ds, brk, cont);
    }
    MarkedBoth(a, da, b, db, Size(a));
  }

  lemma TwoSteady(a: Piece, da: Profile, b: Piece, db: Profile, n: nat, ds: Profile, brk: Target, cont: Target)
    requires Level(a, da) && Level(b, db) && n == Size(a) && ds == Joint(da, db)
    ensures Steady(Render(Then(a, b), brk, cont), ds, Exits(brk, cont))
  {
    assert Steady(Render(a, brk, cont), da, Exits(brk, cont));
    SamePlaces(da, db, ds, Exits(brk, cont));
    InFront(Render(a, brk, cont), da, Exits(brk, cont), b, db, n, ds, brk, cont);
  }

  lemma SamePlaces(da: Profile, db: Profile, ds: Profile, o: Outside)
    ensures Covered(ds, o, 0, o)
  {
    forall x | x in o ensures Lands(ds, x.0 + 0, x.1, o) {
      assert (x.0, x.1) == x;
    }
  }

  lemma FrontLevel(code: Code, dc: Profile, t: nat, q: Piece, dq: Profile)
    requires Steady(code, dc, {(t, 0)}) && dc[0] == Plain(0) && dc[|code|] == Plain(0) && Level(q, dq)
    requires |code| <= t <= |code| + Size(q) && dq[t - |code|] == Plain(0)
    ensures Level(Then(Fixed(code), q), Joint(dc, dq))
  {
    var ds := Joint(dc, dq);
    forall brk, cont ensures Steady(Render(Then(Fixed(code), q), brk, cont), ds, Exits(brk, cont)) {
      FrontSteady(code, dc, t, q, dq, |code|, t - |code|, ds, brk, cont);
    }
    MarkedBoth(Fixed(code), dc, q, dq, |code|);
  }

  lemma FrontSteady(code: Code, dc: Profile, t: nat, q: Piece, dq: Profile, n: nat, x: nat, ds: Profile, brk: Target, cont: Target)
    requires n == |code| && t == n + x && x <= Size(q) && ds == Joint(dc, dq)
    requires Steady(code, dc, {(t, 0)}) && dc[n] == Plain(0) && Level(q, dq) && dq[x] == Plain(0)
    ensures Steady(Render(Then(Fixed(code), q), brk, cont), ds, Exits(brk, cont))
  {
    assert ds[n + x] == Plain(0);
    InFront(code, dc, {(t, 0)}, q, dq, n, ds, brk, cont);
  }

  /** A test that jumps into the piece that follows it. */
  lemma TestLevel(tc: Code, rel: nat, q: Piece)
    requires Climb(tc, 0, 1) && LevelAt(q, rel)
    ensures LevelAt(Then(Fixed(tc + [TEST, JZ(rel)]), q), 0)
  {
    var dt :| Climbs(tc, dt, 0, 1);
    var dq :| Level(q, dq) && dq[rel] == Plain(0);
    TestAfter(tc, dt, rel);
    FrontLevel(tc + [TEST, JZ(rel)], Joint(dt, [Plain(1), Plain(0), Plain(0)]), |tc| + 2 + rel, q, dq);
  }

  lemma TestAfter(tc: Code, dt: Profile, rel: nat)
    requires Climbs(tc, dt, 0, 1)
    ensures Steady(tc + [TEST, JZ(rel)], Joint(dt, [Plain(1), Plain(0), Plain(0)]), {(|tc| + 2 + rel, 0)})
  {
    TestSteady(JZ(rel), rel, 0);
    PartsSteady(tc, dt, {}, [TEST, JZ(rel)], [Plain(1), Plain(0), Plain(0)], {(rel + 2, 0)}, |tc|, Joint(dt, [Plain(1), Plain(0), Plain(0)]), {(|tc| + 2 + rel, 0)});
  }

  /** A jump over a piece. */
  lemma JumpOverLevel(q: Piece)
    requires LevelAt(q, 0)
    ensures LevelAt(Then(Fixed([JMP(Size(q))]), q), 1)
  {
    var dq :| Level(q, dq) && dq[0] == Plain(0);
    JumpOver(q, dq, Size(q), Size(q) + 1);
  }

  lemma JumpOver(q: Piece, dq: Profile, n: nat, t: nat)
    requires Level(q, dq) && n == Size(q) && t == n + 1
    ensures LevelAt(Then(Fixed([JMP(n)]), q), 1)
  {
    var code, dj := [JMP(n)], [Plain(0), Plain(0)];
    assert StepsRight(code[0], 0, dj, {(t, 0)});
    FrontLevel(code, dj, t, q, dq);
    JointAt(dj, dq, 1, 0, 1);
    IsLevelAt(Then(Fixed(code), q), Joint(dj, dq), 1);
  }

  lemma ScopedLevel(scope: Scope, at: nat, body: Piece)
    requires LevelAt(body, at)
    ensures LevelAt(Scoped(scope, at, body), 0)
  {
    var ds :| Level(body, ds) && ds[at] == Plain(0);
    var p := Scoped(scope, at, body);
    forall brk, cont ensures Steady(Render(p, brk, cont), ds, Exits(brk, cont)) {
      var end: int, next: int := Size(body), at;
      var b, c := if scope.allowsBreak then Some(end) else brk, if scope.allowsContinue then Some(next) else cont;
      assert Steady(Render(body, b, c), ds, Exits(b, c));
      MoreOutside(Render(body, b, c), ds, Exits(b, c), Exits(brk, cont));
    }
    assert Level(p, ds);
  }

  // ---- loops ----

  function LoopCode(g: Code, code: Code, u: Code, t: int, b: int): Code {
    g + [TEST, JZ(t)] + (code + (u + [JMP(b)]))
  }

  lemma LoopShape(g: Code, body: Piece, u: Code, k: nat, t: int, b: int)
    requires k == Size(body) && t == k + |u| + 1 && b == -(|g| + 2 + k + |u|) - 1
    ensures forall brk, cont :: Render(LoopPiece(g, body, u), brk, cont) == LoopCode(g, Render(body, Some(t), Some(k)), u, t, b)
  {
    LoopIs(g, body, u);
  }

  lemma LoopLevel(g: Code, body: Piece, u: Code)
    requires Climb(g, 0, 1) && LevelAt(body, 0) && Climb(u, 0, 0)
    ensures LevelAt(LoopPiece(g, body, u), 0)
  {
    var dg :| Climbs(g, dg, 0, 1);
    var db :| Level(body, db) && db[0] == Plain(0);
    var du :| Climbs(u, du, 0, 0);
    var n, k, m := |g| + 2, Size(body), |u|;
    var t, b := k + m + 1, -(n + k + m) - 1;
    var code := Render(body, Some(t), Some(k));
    BodyLeaves(body, db, t, k);
    LoopSteady(g, dg, code, db, u, du, n, k, m, t, b);
    LoopShape(g, body, u, k, t, b);
    var dt, dr := Joint(dg, [Plain(1), Plain(0), Plain(0)]), Joint(du, [Plain(0), Plain(0)]);
    LoopMarked(g, body, u, dt, db, dr, n, k, m);
    LoopAnywhere(LoopPiece(g, body, u), LoopCode(g, code, u, t, b), Joint(dt, Joint(db, dr)));
  }

  lemma LoopMarked(g: Code, body: Piece, u: Code, dt: Profile, db: Profile, dr: Profile, n: nat, k: nat, m: nat)
    requires n == |g| + 2 && k == Size(body) && m == |u| && |dt| == n + 1 && |db| == k + 1 && |dr| == m + 2
    requires dt[n] == db[0] == db[k] == dr[0] == dr[m + 1] == Plain(0) && Marked(body, db, 0)
    ensures Marked(LoopPiece(g, body, u), Joint(dt, Joint(db, dr)), 0)
  {
    var rest, at, end, l := Joint(db, dr), n + k, n + k + m + 1, k + m + 1;
    MarkedBefore(body, db, dr, k, m);
    assert rest[0] == Plain(0);
    MarkedBehind(body, dt, rest, n);
    ZeroThere(dt, rest, n, k, at);
    ZeroThere(dt, rest, n, l, end);
    LoopMarks(g, body, u, Joint(dt, rest), n, k, at, end);
  }

  lemma MarkedBefore(body: Piece, db: Profile, dr: Profile, k: nat, m: nat)
    requires |db| == k + 1 && |dr| == m + 2 && db[k] == dr[0] == dr[m + 1] == Plain(0) && Marked(body, db, 0)
    ensures var rest, l := Joint(db, dr), k + m + 1; Marked(body, rest, 0) && Zero(rest, k) && Zero(rest, l)
  {
    MarkedBoth(body, db, Fixed([]), dr, k);
    ZeroThere(db, dr, k, 0, k);
    ZeroThere(db, dr, k, m + 1, k + m + 1);
  }

  lemma MarkedBehind(body: Piece, dt: Profile, rest: Profile, n: nat)
    requires |dt| == n + 1 && |rest| > 0 && dt[n] == rest[0] && Marked(body, rest, 0)
    ensures Marked(body, Joint(dt, rest), n)
  {
    MarkedBoth(Fixed([]), dt, body, rest, n);
  }

  lemma ZeroThere(da: Profile, db: Profile, n: nat, x: nat, y: nat)
    requires |da| == n + 1 && Zero(db, x) && y == n + x
    ensures Zero(Joint(da, db), y)
  {
    JointAt(da, db, n, x, y);
  }

  lemma LoopMarks(g: Code, body: Piece, u: Code, ds: Profile, n: nat, k: nat, at: nat, end: nat)
    requires n == |g| + 2 && k == Size(body) && at == n + k && end == at + |u| + 1
    requires Marked(body, ds, n) && Zero(ds, at) && Zero(ds, end)
    ensures Marked(LoopPiece(g, body, u), ds, 0)
  {
    var front, back := Fixed(g + [TEST, JZ(k + |u| + 1)]), Fixed(u + [JMP(-(n + k + |u|) - 1)]);
    var inner := Then(front, Then(body, back));
    assert LoopPiece(g, body, u) == Scoped(Scope(true, true), at, inner);
    assert Size(front) == n && Size(Then(body, back)) == k + (|u| + 1) && Size(inner) == end;
    assert Marked(Then(body, back), ds, n);
    assert Marked(inner, ds, 0);
  }

  lemma BodyLeaves(body: Piece, db: Profile, t: int, k: int)
    requires Level(body, db)
    ensures Steady(Render(body, Some(t), Some(k)), db, {(t, 0), (k, 0)})
  {
    assert Exits(Some(t), Some(k)) == {(t, 0), (k, 0)};
  }

  lemma LoopAnywhere(p: Piece, c: Code, ds: Profile)
    requires Steady(c, ds, {}) && ds[0] == Plain(0) && ds[|c|] == Plain(0) && Marked(p, ds, 0)
    requires forall brk, cont :: Render(p, brk, cont) == c
    ensures LevelAt(p, 0)
  {
    assert Render(p, None, None) == c;
    forall brk, cont ensures Steady(Render(p, brk, cont), ds, Exits(brk, cont)) {
      MoreOutside(c, ds, {}, Exits(brk, cont));
    }
    assert Level(p, ds);
  }

  /** The end of a loop: the update, and the jump back over `n` instructions before it. */
  lemma BackSteady(u: Code, du: Profile, n: nat, b: int)
    requires Climbs(u, du, 0, 0) && b == -(n + |u|) - 1
    ensures Steady(u + [JMP(b)], Joint(du, [Plain(0), Plain(0)]), {(0 - n, 0)})
  {
    var m := |u|;
    var o := {(0 - n - m, 0)};
    assert Steady([JMP(b)], [Plain(0), Plain(0)], o);
    PartsSteady(u, du, {}, [JMP(b)], [Plain(0), Plain(0)], o, m, Joint(du, [Plain(0), Plain(0)]), {(0 - n, 0)});
  }

  lemma BodyAndBack(code: Code, db: Profile, back: Code, dr: Profile, n: nat, k: nat, t: nat)
    requires Steady(code, db, {(t, 0), (k, 0)}) && k == |code| && db[k] == Plain(0)
    requires Steady(back, dr, {(0 - (n + k), 0)}) && t == k + |back| && dr[0] == Plain(0) && dr[|back|] == Plain(0)
    ensures Steady(code + back, Joint(db, dr), {(0 - n, 0)})
  {
    var rest := Joint(db, dr);
    assert rest[t] == Plain(0) && rest[k] == Plain(0);
    PartsSteady(code, db, {(t, 0), (k, 0)}, back, dr, {(0 - (n + k), 0)}, k, rest, {(0 - n, 0)});
  }

  lemma TestAndRest(test: Code, dt: Profile, rest: Code, dr: Profile, n: nat, t: nat)
    requires Steady(test, dt, {(n + t, 0)}) && n == |test| && dt[0] == Plain(0) && dt[n] == Plain(0)
    requires Steady(rest, dr, {(0 - n, 0)}) && t == |rest| && dr[0] == Plain(0) && dr[t] == Plain(0)
    ensures Steady(test + rest, Joint(dt, dr), {})
  {
    var ds := Joint(dt, dr);
    assert ds[n + t] == Plain(0) && ds[0] == Plain(0);
    PartsSteady(test, dt, {(n + t, 0)}, rest, dr, {(0 - n, 0)}, n, ds, {});
  }

  lemma LoopSteady(g: Code, dg: Profile, code: Code, db: Profile, u: Code, du: Profile,
                   n: nat, k: nat, m: nat, t: nat, b: int)
    requires k == |code| && Steady(code, db, {(t, 0), (k, 0)}) && db[0] == Plain(0) && db[k] == Plain(0)
    requires Climbs(g, dg, 0, 1) && Climbs(u, du, 0, 0) && n == |g| + 2 && m == |u| && t == k + m + 1 && b == -(n + k + m) - 1
    ensures var c, ds := LoopCode(g, code, u, t, b), Joint(Joint(dg, [Plain(1), Plain(0), Plain(0)]), Joint(db, Joint(du, [Plain(0), Plain(0)])));
            Steady(c, ds, {}) && ds[0] == Plain(0) && ds[|c|] == Plain(0)
  {
    var back, dr := u + [JMP(b)], Joint(du, [Plain(0), Plain(0)]);
    BackSteady(u, du, n + k, b);
    BodyAndBack(code, db, back, dr, n, k, t);
    TestAfter(g, dg, t);
    TestAndRest(g + [TEST, JZ(t)], Joint(dg, [Plain(1), Plain(0), Plain(0)]), code + back, Joint(db, dr), n, t);
  }

  // ---- switches ----

  ghost predicate ArmsLevel(arms: Arms) {
    match arms case NoArms => true case Arm(test, body, rest) => Climb(test, 0, 0) && LevelAt(body, 0) && ArmsLevel(rest)
  }

  /** Where the bodies start, the first of them at `x`. */
  function Starts(arms: Arms, x: int): Outside {
    match arms case NoArms => {} case Arm(_, body, rest) => {(x, 0)} + Starts(rest, x + Size(body))
  }

  lemma {:induction false} StartMoved(arms: Arms, x: int, n: int, s: (int, int), y: int)
    requires s in Starts(arms, x) && y == x + n
    ensures (s.0 + n, s.1) in Starts(arms, y)
    decreases arms
  {
    if s != (x, 0) {
      StartMoved(arms.rest, x + Size(arms.body), n, s, y + Size(arms.body));
    }
  }

  lemma {:induction false} BodiesLevel(arms: Arms) returns (ds: Profile)
    requires ArmsLevel(arms)
    ensures Level(BodiesPiece(arms), ds) && Covered(ds, Starts(arms, 0), 0, {})
    decreases arms
  {
    match arms
    case NoArms =>
      ds := [Plain(0)];
      assert Level(Fixed([]), ds);
    case Arm(_, body, rest) =>
      var db :| Level(body, db) && db[0] == Plain(0);
      var dr := BodiesLevel(rest);
      ds := Joint(db, dr);
      TwoLevel(body, db, BodiesPiece(rest), dr);
      BodyStarts(rest, db, dr, ds, Size(body));
  }

  lemma BodyStarts(rest: Arms, db: Profile, dr: Profile, ds: Profile, n: nat)
    requires |db| == n + 1 && ds == Joint(db, dr) && Covered(dr, Starts(rest, 0), 0, {})
    ensures Covered(ds, Starts(rest, n), 0, {})
  {
    forall x | x in Starts(rest, n) ensures Lands(ds, x.0 + 0, x.1, {}) {
      StartMoved(rest, n, 0 - n, x, 0);
      var y := (x.0 + (0 - n), x.1);
      assert y in Starts(rest, 0);
      assert Lands(dr, y.0 + 0, y.1, {});
      assert ds[n + y.0] == dr[y.0];
    }
  }

  lemma {:induction false} TestsSteady(arms: Arms, d: int) returns (ds: Profile)
    requires ArmsLevel(arms)
    ensures Steady(TestsCode(arms, d), ds, Starts(arms, d)) && ds[0] == Plain(0) && ds[|ds| - 1] == Plain(0)
    decreases arms
  {
    match arms
    case NoArms => ds := [Plain(0)];
    case Arm(test, body, rest) =>
      var dt :| Climbs(test, dt, 0, 0);
      var n, e := |test| + 1, d - |test| - 1 + Size(body);
      var dr := TestsSteady(rest, e);
      OneTest(test, dt, d, n);
      ds := Joint(Joint(dt, [Plain(0), Plain(0)]), dr);
      TestJoined(arms, Joint(dt, [Plain(0), Plain(0)]), d, n, e, dr, ds);
  }

  lemma TestJoined(arms: Arms, first: Profile, d: int, n: nat, e: int, dr: Profile, ds: Profile)
    requires arms.Arm? && n == |arms.test| + 1 && e == d - |arms.test| - 1 + Size(arms.body)
    requires Steady(arms.test + [JNZ(d - n)], first, {(d, 0)}) && first[n] == Plain(0)
    requires Steady(TestsCode(arms.rest, e), dr, Starts(arms.rest, e)) && dr[0] == Plain(0) && ds == Joint(first, dr)
    ensures Steady(TestsCode(arms, d), ds, Starts(arms, d))
  {
    forall x | x in Starts(arms.rest, e) ensures Lands(ds, x.0 + n, x.1, Starts(arms, d)) {
      StartMoved(arms.rest, e, n, x, d + Size(arms.body));
    }
    PartsSteady(arms.test + [JNZ(d - n)], first, {(d, 0)}, TestsCode(arms.rest, e), dr, Starts(arms.rest, e), n, ds, Starts(arms, d));
  }

  lemma OneTest(test: Code, dt: Profile, d: int, n: nat)
    requires Climbs(test, dt, 0, 0) && n == |test| + 1
    ensures Steady(test + [JNZ(d - n)], Joint(dt, [Plain(0), Plain(0)]), {(d, 0)})
  {
    assert Steady([JNZ(d - n)], [Plain(0), Plain(0)], {(d - n + 1, 0)});
    PartsSteady(test, dt, {}, [JNZ(d - n)], [Plain(0), Plain(0)], {(d - n + 1, 0)}, n - 1, Joint(dt, [Plain(0), Plain(0)]), {(d, 0)});
  }

  lemma SwitchLevel(arms: Arms, default: Option<Piece>)
    requires ArmsLevel(arms) && LevelAt(DefaultOrNothing(default), 0)
    ensures LevelAt(SwitchPiece(arms, default), 0)
  {
    var inner := SwitchShape(arms, default);
    SwitchParts(arms, DefaultJump(arms, default), DefaultOrNothing(default),
                TestsSize(arms), TestsSize(arms) + |DefaultJump(arms, default)|, Size(BodiesPiece(arms)), inner);
    ScopedLevel(Scope(true, false), 0, inner);
  }

  lemma SwitchShape(arms: Arms, default: Option<Piece>) returns (inner: Piece)
    ensures SwitchPiece(arms, default) == Scoped(Scope(true, false), 0, inner)
    ensures inner == Then(Fixed(TestsCode(arms, TestsSize(arms) + |DefaultJump(arms, default)|) + DefaultJump(arms, default)),
                          Then(BodiesPiece(arms), DefaultOrNothing(default)))
  {
    inner := SwitchPiece(arms, default).body;
  }

  lemma SwitchParts(arms: Arms, j: Code, last: Piece, e: nat, n: nat, s: nat, inner: Piece)
    requires ArmsLevel(arms) && LevelAt(last, 0) && e == TestsSize(arms) && n == e + |j| && s == Size(BodiesPiece(arms))
    requires j == [] || j == [JMP(s)]
    requires inner == Then(Fixed(TestsCode(arms, n) + j), Then(BodiesPiece(arms), last))
    ensures LevelAt(inner, 0)
  {
    TestsCodeSize(arms, n);
    var dt := TestsSteady(arms, n);
    var db := BodiesLevel(arms);
    var dl :| Level(last, dl) && dl[0] == Plain(0);
    SwitchInside(arms, j, BodiesPiece(arms), last, dt, db, dl, e, n, s);
  }

  lemma SwitchInside(arms: Arms, j: Code, bodies: Piece, last: Piece, dt: Profile, db: Profile, dl: Profile,
                     e: nat, n: nat, s: nat)
    requires Steady(TestsCode(arms, n), dt, Starts(arms, n)) && |TestsCode(arms, n)| == e && dt[0] == Plain(0) && dt[e] == Plain(0)
    requires n == e + |j| && (j == [] || j == [JMP(s)]) && s == Size(bodies)
    requires Level(bodies, db) && Covered(db, Starts(arms, 0), 0, {}) && Level(last, dl)
    ensures LevelAt(Then(Fixed(TestsCode(arms, n) + j), Then(bodies, last)), 0)
  {
    TwoLevel(bodies, db, last, dl);
    TestsAndJump(arms, dt, j, e, n, s);
    BodiesCovered(arms, db, Joint(db, dl), dl, n, s);
    var dj := if j == [] then [Plain(0)] else [Plain(0), Plain(0)];
    var dc := Joint(dt, dj);
    assert dc[0] == Plain(0) && dc[n] == Plain(0);
    SwitchFront(TestsCode(arms, n) + j, dc, Starts(arms, n) + {(n + s, 0)}, Then(bodies, last), Joint(db, dl), n);
  }

  lemma TestsAndJump(arms: Arms, dt: Profile, j: Code, e: nat, n: nat, s: nat)
    requires Steady(TestsCode(arms, n), dt, Starts(arms, n)) && |TestsCode(arms, n)| == e && dt[0] == Plain(0) && dt[e] == Plain(0)
    requires n == e + |j| && (j == [] || j == [JMP(s)])
    ensures Steady(TestsCode(arms, n) + j, Joint(dt, if j == [] then [Plain(0)] else [Plain(0), Plain(0)]), Starts(arms, n) + {(n + s, 0)})
  {
    var dj := if j == [] then [Plain(0)] else [Plain(0), Plain(0)];
    var o := {(s + 1, 0)};
    assert Steady(j, dj, o);
    if j == [] {
      assert TestsCode(arms, n) + j == TestsCode(arms, n) && Joint(dt, dj) == dt;
      MoreOutside(TestsCode(arms, n), dt, Starts(arms, n), Starts(arms, n) + {(n + s, 0)});
    } else {
      PartsSteady(TestsCode(arms, n), dt, Starts(arms, n), j, dj, o, e, Joint(dt, dj), Starts(arms, n) + {(n + s, 0)});
    }
  }

  /** Within the bodies and the default body, the bodies and the default body start with nothing on the stack. */
  lemma BodiesCovered(arms: Arms, db: Profile, dr: Profile, dl: Profile, n: nat, s: nat)
    requires |db| == s + 1 && db[s] == Plain(0) && |dl| > 0 && dl[0] == Plain(0) && dr == Joint(db, dl) && Covered(db, Starts(arms, 0), 0, {})
    ensures forall x :: x in Starts(arms, n) + {(n + s, 0)} ==> Lands(dr, x.0 - n, x.1, {})
  {
    forall x | x in Starts(arms, n) + {(n + s, 0)} ensures Lands(dr, x.0 - n, x.1, {}) {
      if x in Starts(arms, n) {
        StartMoved(arms, n, 0 - n, x, 0);
        var y := (x.0 + (0 - n), x.1);
        assert y in Starts(arms, 0);
        assert Lands(db, y.0 + 0, y.1, {});
      }
    }
  }

  lemma SwitchFront(code: Code, dc: Profile, o: Outside, q: Piece, dq: Profile, n: nat)
    requires n == |code| && Steady(code, dc, o) && dc[0] == Plain(0) && dc[n] == Plain(0) && Level(q, dq)
    requires forall x :: x in o ==> Lands(dq, x.0 - n, x.1, {})
    ensures LevelAt(Then(Fixed(code), q), 0)
  {
    var ds := Joint(dc, dq);
    forall brk, cont ensures Steady(Render(Then(Fixed(code), q), brk, cont), ds, Exits(brk, cont)) {
      forall x | x in o ensures Lands(ds, x.0 + 0, x.1, Exits(brk, cont)) {
        assert ds[n + (x.0 - n)] == dq[x.0 - n];
      }
      InFront(code, dc, o, q, dq, n, ds, brk, cont);
    }
    MarkedBoth(Fixed(code), dc, q, dq, n);
    assert Level(Then(Fixed(code), q), ds);
  }

  // ---- the statement syntax ----

  lemma DiscardedClimbs(e: Option<Expr>, names: seq<string>)
    ensures Climb(DiscardedCode(e, names), 0, 0) && Climb(GuardCode(e, names), 0, 1)
  {
    match e
    case None =>
      ClimbNothing(0);
      ClimbOne(CONST(true), 0);
    case Some(x) =>
      ExprClimbs(x, names, 0);
      ClimbMore(ExprCode(x, names), POP, 0, 1, 0);
  }

  lemma {:induction false} StmtLevel(s: Stmt, names: seq<string>)
    ensures LevelAt(StmtPiece(s, names), 0)
    decreases s, 1
  {
    match s
    case Empty => ClimbNothing(0); FixedLevel([]);
    case ExprStmt(e) =>
      DiscardedClimbs(Some(e), names);
      FixedLevel(ExprCode(e, names) + [POP]);
    case Return(value) =>
      match value {
        case Some(e) => ExprClimbs(e, names, 0); ReturnLevel(ExprCode(e, names));
        case None => ClimbOne(UNDEF, 0); ReturnLevel([UNDEF]);
      }
    case Block(body) => StmtsLevel(body, names);
    case If(t, a, b) =>
      ExprClimbs(t, names, 0);
      StmtLevel(a, names);
      var p := StmtPiece(a, names);
      match b {
        case None =>
          EndLevel(p);
          TestLevel(ExprCode(t, names), Size(p), p);
        case Some(y) =>
          StmtLevel(y, names);
          ElseLevel(ExprCode(t, names), p, StmtPiece(y, names));
      }
    case While(guard, loop) =>
      DiscardedClimbs(guard, names);
      StmtLevel(loop, names);
      ClimbNothing(0);
      LoopLevel(GuardCode(guard, names), StmtPiece(loop, names), []);
    case For(init, guard, update, loop) =>
      DiscardedClimbs(init, names);
      DiscardedClimbs(guard, names);
      DiscardedClimbs(update, names);
      StmtLevel(loop, names);
      LoopLevel(GuardCode(guard, names), StmtPiece(loop, names), DiscardedCode(update, names));
      FixedLevel(DiscardedCode(init, names));
      FirstLevel(Fixed(DiscardedCode(init, names)),
                 LoopPiece(GuardCode(guard, names), StmtPiece(loop, names), DiscardedCode(update, names)));
    case Switch(d, cases) =>
      CasesLevel(d, cases, names);
      DefaultLevel(cases, names);
      SwitchLevel(ArmsOf(d, cases, names), DefaultPiece(cases, names));
    case Break => LeaveLevel(BreakJump);
    case Continue => LeaveLevel(ContinueJump);
  }

  lemma EndLevel(p: Piece)
    requires LevelAt(p, 0)
    ensures LevelAt(p, Size(p))
  {
    var ds :| Level(p, ds) && ds[0] == Plain(0);
    assert ds[Size(p)] == Plain(0);
  }

  lemma FirstLevel(a: Piece, b: Piece)
    requires LevelAt(a, 0) && LevelAt(b, 0)
    ensures LevelAt(Then(a, b), 0)
  {
    ThenLevel(a, b, 0, Size(a));
    var ds :| Level(Then(a, b), ds) && ds[Size(a)] == Plain(0);
    IsLevelAt(Then(a, b), ds, 0);
  }

  lemma ElseLevel(tc: Code, p: Piece, q: Piece)
    requires Climb(tc, 0, 1) && LevelAt(p, 0) && LevelAt(q, 0)
    ensures LevelAt(Then(Fixed(tc + [TEST, JZ(Size(p) + 1)]), Then(p, Then(Fixed([JMP(Size(q))]), q))), 0)
  {
    JumpOverLevel(q);
    ThenLevel(p, Then(Fixed([JMP(Size(q))]), q), 1, Size(p) + 1);
    TestLevel(tc, Size(p) + 1, Then(p, Then(Fixed([JMP(Size(q))]), q)));
  }

  lemma {:induction false} StmtsLevel(ss: Stmts, names: seq<string>)
    ensures LevelAt(StmtsPiece(ss, names), 0)
    decreases ss, 0
  {
    match ss
    case Nil => ClimbNothing(0); FixedLevel([]);
    case Cons(s, rest) =>
      StmtLevel(s, names);
      StmtsLevel(rest, names);
      FirstLevel(StmtPiece(s, names), StmtsPiece(rest, names));
  }

  lemma {:induction false} CasesLevel(d: Expr, cases: Cases, names: seq<string>)
    ensures ArmsLevel(ArmsOf(d, cases, names))
    decreases cases, 0
  {
    if cases.Case? {
      CasesLevel(d, cases.rest, names);
      if cases.test.Some? {
        StmtsLevel(cases.consequent, names);
        ExprClimbs(d, names, 0);
        ExprClimbs(cases.test.value, names, 1);
        ComparisonClimbs(ExprCode(d, names), ExprCode(cases.test.value, names));
      }
    }
  }

  lemma ComparisonClimbs(d: Code, t: Code)
    requires Climb(d, 0, 1) && Climb(t, 1, 2)
    ensures Climb(d + t + [BINOP(Equal), TEST], 0, 0)
  {
    BinaryClimbs(d, t, Equal, 0);
    ClimbMore(d + t + [BINOP(Equal)], TEST, 0, 1, 0);
    assert d + t + [BINOP(Equal)] + [TEST] == d + t + [BINOP(Equal), TEST];
  }

  lemma {:induction false} DefaultLevel(cases: Cases, names: seq<string>)
    ensures LevelAt(DefaultOrNothing(DefaultPiece(cases, names)), 0)
    decreases cases, 1
  {
    match DefaultBody(cases)
    case None => ClimbNothing(0); FixedLevel([]);
    case Some(body) => StmtsLevel(body, names);
  }
}
