/**
 * Code that does what something means, from any state that holds the variables. The meanings
 * are functions on stores here: which syntax they come from does not matter.
 */
module Runners {
  import opened Wrappers
  import opened Values
  import opened Syntax
  import opened Bytecode
  import opened Machine
  import opened Semantics
  import opened Runs
  import opened Locals
  import opened Glue

  type Meaning = Store -> Effect<(Value, Store)>

  /** The thread is about to run the code, in this store. */
  ghost predicate Starts(w: Context, t: Thread, store: Store, c: Code) {
    t.top.locals == Represent(w.names, store) && |t.top.code| <= MAX_INSTRUCTIONS && CodeAt(t, 0, c)
  }

  ghost predicate Reaches(w: Context, t: Thread, n: nat, r: Effect<(Value, Store)>, fuel: nat) {
    exists flag: bool :: Leads(w.prog, t, ExprGoal(w, t, n, r, fuel, flag))
  }

  /** Running the code does what the meaning says, whatever is below it on the stack. */
  ghost predicate Does(w: Context, c: Code, m: Meaning, fuel: nat) {
    forall t, store :: Starts(w, t, store, c) ==> Reaches(w, t, |c|, m(store), fuel)
  }

  lemma RunAt(w: Context, c: Code, m: Meaning, t: Thread, u: Thread, n: nat, store: Store, fuel: nat) returns (flag: bool)
    requires Does(w, c, m, fuel) && CodeAt(t, n, c) && |t.top.code| <= MAX_INSTRUCTIONS
    requires u.top.code == t.top.code && u.top.ip == t.top.ip + n && u.top.locals == Represent(w.names, store)
    ensures Leads(w.prog, u, ExprGoal(w, u, |c|, m(store), fuel, flag))
  {
    Moved(t, u, n, 0, c);
    assert Starts(w, u, store, c);
    flag :| Leads(w.prog, u, ExprGoal(w, u, |c|, m(store), fuel, flag));
  }

  // ---- one operand ----

  lemma NegateRuns(w: Context, c: Code, m: Meaning, t: Thread, store: Store, fuel: nat)
    requires Does(w, c, m, fuel) && Starts(w, t, store, c + [CONST(false), BINOP(Sub)])
    ensures Reaches(w, t, |c| + 2, Negated(m(store)), fuel)
  {
    CodeAtParts(t, 0, c, [CONST(false), BINOP(Sub)]);
    var f := RunAt(w, c, m, t, t, 0, store, fuel);
    NegateGlue(w, t, c, m(store), fuel, f);
  }

  lemma PrefixRuns(w: Context, c: Code, m: Meaning, op: UnaryOp, t: Thread, store: Store, fuel: nat)
    requires Does(w, c, m, fuel) && Starts(w, t, store, c + [UNARY(op)])
    ensures Reaches(w, t, |c| + 1, Prefixed(op, m(store)), fuel)
  {
    CodeAtParts(t, 0, c, [UNARY(op)]);
    var f := RunAt(w, c, m, t, t, 0, store, fuel);
    PrefixGlue(w, t, c, op, m(store), fuel, f);
  }

  lemma AssignRuns(w: Context, c: Code, m: Meaning, l: Expr, ref: Instruction, t: Thread, store: Store, fuel: nat)
    requires SlotOf(w, l, ref) && Does(w, c, m, fuel) && Starts(w, t, store, c + [ref, STORE])
    ensures Reaches(w, t, |c| + 2, Stored(l, m(store)), fuel)
  {
    CodeAtParts(t, 0, c, [ref, STORE]);
    var f := RunAt(w, c, m, t, t, 0, store, fuel);
    StoreGlue(w, t, |c|, l, ref, m(store), fuel, f);
  }

  // ---- two operands ----

  function InOrder(a: Meaning, b: Meaning, store: Store): Effect<(Value, Value, Store)> {
    var (x, s1) :- a(store);
    var (y, s2) :- b(s1);
    Success((x, y, s2))
  }

  lemma PairRuns(w: Context, c: Code, m: Meaning, d: Code, k: Meaning, tail: Code, t: Thread, store: Store, fuel: nat)
    returns (flag: bool)
    requires Does(w, c, m, fuel) && Does(w, d, k, fuel) && Starts(w, t, store, c + d + tail)
    ensures Leads(w.prog, t, PairGoal(w, t, |c + d|, InOrder(m, k, store), fuel, flag))
    ensures CodeAt(t, |c + d|, tail)
  {
    CodeAtThree(t, 0, c, d, tail);
    var f := RunAt(w, c, m, t, t, 0, store, fuel);
    flag := f;
    var x := m(store);
    if x.Success? {
      var u := Between(w, t, |c|, x, f);
      flag := RunAt(w, d, k, t, u, |c|, x.value.1, fuel);
      PairGlue(w, t, |c|, |d|, x, k(x.value.1), fuel, f, flag);
    }
  }

  lemma BinaryRuns(w: Context, c: Code, m: Meaning, d: Code, k: Meaning, op: BinaryOp, t: Thread, store: Store, fuel: nat)
    requires Does(w, c, m, fuel) && Does(w, d, k, fuel) && Starts(w, t, store, c + d + [BINOP(op)])
    ensures Reaches(w, t, |c + d| + 1, Combined(op, InOrder(m, k, store)), fuel)
  {
    var f := PairRuns(w, c, m, d, k, [BINOP(op)], t, store, fuel);
    CombineGlue(w, t, |c + d|, op, InOrder(m, k, store), fuel, f);
  }

  lemma OpAssignRuns(w: Context, c: Code, m: Meaning, d: Code, k: Meaning, op: BinaryOp, l: Expr, ref: Instruction,
                     t: Thread, store: Store, fuel: nat)
    requires SlotOf(w, l, ref) && Does(w, c, m, fuel) && Does(w, d, k, fuel)
    requires Starts(w, t, store, c + d + [BINOP(op), ref, STORE])
    ensures Reaches(w, t, |c + d| + 3, Stored(l, Combined(op, InOrder(m, k, store))), fuel)
  {
    var f := PairRuns(w, c, m, d, k, [BINOP(op), ref, STORE], t, store, fuel);
    OpAssignGlue(w, t, |c + d|, op, l, ref, InOrder(m, k, store), fuel, f);
  }

  lemma PostfixRuns(w: Context, c: Code, m: Meaning, op: BinaryOp, l: Expr, ref: Instruction,
                    t: Thread, store: Store, fuel: nat)
    requires SlotOf(w, l, ref) && Does(w, c, m, fuel)
    requires Starts(w, t, store, c + c + [CONST(true), BINOP(op), ref, STORE, POP])
    ensures Reaches(w, t, |c + c| + 5, Stepped(op, l, InOrder(m, m, store)), fuel)
  {
    var f := PairRuns(w, c, m, c, m, [CONST(true), BINOP(op), ref, STORE, POP], t, store, fuel);
    PostfixGlue(w, t, |c + c|, op, l, ref, InOrder(m, m, store), fuel, f);
  }

  // ---- conditions ----

  lemma TestRuns(w: Context, c: Code, m: Meaning, jump: Instruction, t: Thread, store: Store, fuel: nat)
    requires jump.JZ? || jump.JNZ?
    requires Does(w, c, m, fuel) && Starts(w, t, store, c) && CodeAt(t, |c|, [TEST, jump])
    ensures Leads(w.prog, t, TestGoal(w, t, |c|, jump, Condition(m(store)), fuel))
  {
    var f := RunAt(w, c, m, t, t, 0, store, fuel);
    TestGlue(w, t, |c|, jump, m(store), fuel, f);
  }

  function LogicalOp(one: bool): BinaryOp {
    if one then LogicalAnd else LogicalOr
  }

  function LogicalMeaning(one: bool, m: Meaning, k: Meaning, store: Store): Effect<(Value, Store)> {
    var (b, s) :- Condition(m(store));
    if b == one then CombinedWith(LogicalOp(one), Int(IntOf(one)), k(s)) else Success((Int(IntOf(b)), s))
  }

  function ShortcutJump(one: bool, n: nat): Instruction {
    if one then JZ(n + 3) else JNZ(n + 3)
  }

  function LogicalTail(one: bool): Code {
    [BINOP(LogicalOp(one)), JMP(1), CONST(!one)]
  }

  lemma LogicalParts(t: Thread, c: Code, jump: Instruction, one: Instruction, d: Code, tail: Code)
    requires CodeAt(t, 0, c + [TEST, jump, one] + d + tail)
    ensures CodeAt(t, 0, c) && CodeAt(t, |c|, [TEST, jump])
    ensures CodeAt(t, |c| + 2, [one] + d + tail)
  {
    var test := [TEST, jump, one];
    assert test == [TEST, jump] + [one];
    CodeAtThree(t, 0, c + test, d, tail);
    CodeAtParts(t, 0, c, test);
    CodeAtParts(t, |c|, [TEST, jump], [one]);
    CodeAtJoin(t, |c| + 2, [one], d);
    CodeAtJoin(t, |c| + 2, [one] + d, tail);
  }

  lemma CodeAtJoin(t: Thread, n: nat, a: Code, b: Code)
    requires CodeAt(t, n, a) && CodeAt(t, n + |a|, b)
    ensures CodeAt(t, n, a + b)
  {
  }

  lemma LogicalRuns(w: Context, c: Code, m: Meaning, one: bool, d: Code, k: Meaning, t: Thread, store: Store, fuel: nat)
    requires Does(w, c, m, fuel) && Does(w, d, k, fuel)
    requires Starts(w, t, store, c + [TEST, ShortcutJump(one, |d|), CONST(one)] + d + LogicalTail(one))
    ensures Reaches(w, t, |c| + |d| + 6, LogicalMeaning(one, m, k, store), fuel)
  {
    var jump := ShortcutJump(one, |d|);
    LogicalParts(t, c, jump, CONST(one), d, LogicalTail(one));
    TestRuns(w, c, m, jump, t, store, fuel);
    var r := Condition(m(store));
    if r.Success? {
      var g := RightRuns(w, |c|, r, one, d, k, t, fuel);
      var f := LogicalGlue(w, t, c, jump, one, d, LogicalOp(one), r,
                           CombinedWith(LogicalOp(one), Int(IntOf(one)), k(r.value.1)), fuel, g);
    } else {
      assert Leads(w.prog, t, ExprGoal(w, t, |c| + |d| + 6, LogicalMeaning(one, m, k, store), fuel, false));
    }
  }

  lemma RightRuns(w: Context, n: nat, r: Effect<(bool, Store)>, one: bool, d: Code, k: Meaning, t: Thread, fuel: nat)
    returns (g: bool)
    requires Does(w, d, k, fuel) && r.Success? && |t.top.code| <= MAX_INSTRUCTIONS
    requires CodeAt(t, n + 2, [CONST(one)] + d + LogicalTail(one))
    ensures var u := Beyond(w, t, n, ShortcutJump(one, |d|), r);
            r.value.0 == one ==>
              Leads(w.prog, u, ExprGoal(w, u, |d| + 4, CombinedWith(LogicalOp(one), Int(IntOf(one)), k(r.value.1)), fuel, g))
  {
    g := false;
    if r.value.0 == one {
      CodeAtThree(t, n + 2, [CONST(one)], d, LogicalTail(one));
      var u := Beyond(w, t, n, ShortcutJump(one, |d|), r);
      var x := At(u, u.stack + [Int(IntOf(one))], u.top.locals, 1, u.flag);
      g := RunAt(w, d, k, t, x, n + 3, r.value.1, fuel);
      Moved(t, u, n + 2, 0, [CONST(one)] + d + LogicalTail(one));
      RightGlue(w, u, one, d, LogicalOp(one), CONST(!one), k(r.value.1), fuel, g);
    }
  }

  function TernaryMeaning(m: Meaning, a: Meaning, b: Meaning, store: Store): Effect<(Value, Store)> {
    var (x, s) :- Condition(m(store));
    if x then a(s) else b(s)
  }

  lemma BranchParts(t: Thread, c: Code, test: Code, a: Code, jump: Code, b: Code)
    requires CodeAt(t, 0, c + test + a + jump + b)
    ensures CodeAt(t, 0, c) && CodeAt(t, |c|, test)
    ensures var n := |c| + |test|; CodeAt(t, n, a) && CodeAt(t, n + |a|, jump) && CodeAt(t, n + |a| + |jump|, b)
  {
    CodeAtThree(t, 0, c + test + a, jump, b);
    CodeAtThree(t, 0, c, test, a);
  }

  lemma TernaryRuns(w: Context, c: Code, m: Meaning, ac: Code, a: Meaning, bc: Code, b: Meaning,
                    t: Thread, store: Store, fuel: nat)
    requires Does(w, c, m, fuel) && Does(w, ac, a, fuel) && Does(w, bc, b, fuel)
    requires Starts(w, t, store, c + [TEST, JZ(|ac| + 1)] + ac + [JMP(|bc|)] + bc)
    ensures Reaches(w, t, |c| + |ac| + |bc| + 3, TernaryMeaning(m, a, b, store), fuel)
  {
    BranchParts(t, c, [TEST, JZ(|ac| + 1)], ac, [JMP(|bc|)], bc);
    TernaryAt(w, c, m, ac, a, bc, b, t, store, fuel);
  }

  lemma TernaryAt(w: Context, c: Code, m: Meaning, ac: Code, a: Meaning, bc: Code, b: Meaning,
                  t: Thread, store: Store, fuel: nat)
    requires Does(w, c, m, fuel) && Does(w, ac, a, fuel) && Does(w, bc, b, fuel)
    requires Starts(w, t, store, c) && CodeAt(t, |c|, [TEST, JZ(|ac| + 1)])
    requires CodeAt(t, |c| + 2, ac) && CodeAt(t, |c| + 2 + |ac|, [JMP(|bc|)]) && CodeAt(t, |c| + 3 + |ac|, bc)
    ensures Reaches(w, t, |c| + |ac| + |bc| + 3, TernaryMeaning(m, a, b, store), fuel)
  {
    TestRuns(w, c, m, JZ(|ac| + 1), t, store, fuel);
    var r := Condition(m(store));
    if r.Success? {
      BranchRuns(w, |c|, r, ac, a, bc, b, t, fuel);
    } else {
      assert Leads(w.prog, t, ExprGoal(w, t, |c| + |ac| + |bc| + 3, TernaryMeaning(m, a, b, store), fuel, false));
    }
  }

  /** After the test: the side that it chose. */
  lemma BranchRuns(w: Context, n: nat, r: Effect<(bool, Store)>, ac: Code, a: Meaning, bc: Code, b: Meaning,
                   t: Thread, fuel: nat)
    requires r.Success? && Does(w, ac, a, fuel) && Does(w, bc, b, fuel) && |t.top.code| <= MAX_INSTRUCTIONS
    requires CodeAt(t, n + 2, ac) && CodeAt(t, n + 2 + |ac|, [JMP(|bc|)]) && CodeAt(t, n + 3 + |ac|, bc)
    requires Leads(w.prog, t, TestGoal(w, t, n, JZ(|ac| + 1), r, fuel))
    ensures Reaches(w, t, n + |ac| + |bc| + 3, if r.value.0 then a(r.value.1) else b(r.value.1), fuel)
  {
    var u, s := Beyond(w, t, n, JZ(|ac| + 1), r), r.value.1;
    if r.value.0 {
      var f := RunAt(w, ac, a, t, u, n + 2, s, fuel);
      ThenGlue(w, t, n, ac, bc, r, a(s), fuel, f);
    } else {
      var f := RunAt(w, bc, b, t, u, n + 3 + |ac|, s, fuel);
      ElseGlue(w, t, n, ac, bc, r, b(s), fuel, f);
    }
  }
}
