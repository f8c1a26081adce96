/**
 * How the run of a compound expression is put together from the runs of its parts. The parts are
 * given by their code and by what they mean; how either was obtained does not matter here.
 */
module Glue {
  import opened Wrappers
  import opened Values
  import opened Syntax
  import opened Bytecode
  import opened Emitter
  import opened Machine
  import opened Semantics
  import opened Runs
  import opened Locals

  /** The code that runs, and the names of the running function. */
  datatype Context = Context(prog: Program, names: seq<string>)

  /** Arrive in `u` if the meaning is a success; else fault, or last, as it does. */
  function EffectGoal<T>(r: Effect<T>, u: Thread, fuel: nat): Goal {
    match r
    case Success(_) => Arrive(u)
    case Failure(Fault(f)) => Abort(f)
    case Failure(OutOfFuel) => Last(fuel)
  }

  /** `n` instructions on, with one more value and the variables of the store. */
  function ExprGoal(w: Context, t: Thread, n: nat, r: Effect<(Value, Store)>, fuel: nat, flag: bool): Goal {
    EffectGoal(r, if r.Success? then At(t, t.stack + [r.value.0], Represent(w.names, r.value.1), n, flag) else t, fuel)
  }

  function PairGoal(w: Context, t: Thread, n: nat, r: Effect<(Value, Value, Store)>, fuel: nat, flag: bool): Goal {
    EffectGoal(r, if r.Success? then At(t, t.stack + [r.value.0] + [r.value.1], Represent(w.names, r.value.2), n, flag)
              else t, fuel)
  }

  lemma Moved(t: Thread, u: Thread, n: int, m: nat, c: Code)
    requires u.top.code == t.top.code && u.top.ip == t.top.ip + n
    requires n + m >= 0 && CodeAt(t, n + m, c)
    ensures CodeAt(u, m, c)
  {
  }

  // ---- meanings of compound expressions, from the meanings of their parts ----

  function Negated(r: Effect<(Value, Store)>): Effect<(Value, Store)> {
    var (v, s) :- r;
    var x :- Lift(Binop(Sub, v, Int(0)));
    Success((x, s))
  }

  function Prefixed(op: UnaryOp, r: Effect<(Value, Store)>): Effect<(Value, Store)> {
    var (v, s) :- r;
    var x :- Lift(Unary(op, v));
    Success((x, s))
  }

  function Combined(op: BinaryOp, r: Effect<(Value, Value, Store)>): Effect<(Value, Store)> {
    var (a, b, s) :- r;
    var x :- Lift(Binop(op, a, b));
    Success((x, s))
  }

  function Stored(l: Expr, r: Effect<(Value, Store)>): Effect<(Value, Store)> {
    var (v, s1) :- r;
    var s2 :- Update(s1, l, v);
    Success((v, s2))
  }

  function Stepped(op: BinaryOp, l: Expr, r: Effect<(Value, Value, Store)>): Effect<(Value, Store)> {
    var (before, v, s1) :- r;
    var x :- Lift(Binop(op, v, Int(1)));
    var s2 :- Update(s1, l, x);
    Success((before, s2))
  }

  // ---- runs ----

  lemma NegateGlue(w: Context, t: Thread, c: Code, r: Effect<(Value, Store)>, fuel: nat, flag: bool)
    requires CodeAt(t, 0, c + [CONST(false), BINOP(Sub)]) && Leads(w.prog, t, ExprGoal(w, t, |c|, r, fuel, flag))
    ensures Leads(w.prog, t, ExprGoal(w, t, |c| + 2, Negated(r), fuel, flag))
  {
    if r.Success? {
      var (v, s) := r.value;
      assert [CONST(false), BINOP(Sub)] == [CONST(false)] + [BINOP(Sub)];
      CodeAtParts(t, 0, c, [CONST(false), BINOP(Sub)]);
      CodeAtParts(t, |c|, [CONST(false)], [BINOP(Sub)]);
      var u := At(t, t.stack + [v], Represent(w.names, s), |c|, flag);
      Moved(t, u, |c|, 0, [CONST(false)]);
      PushStep(w.prog, u, CONST(false), Int(0));
      var x := At(u, u.stack + [Int(0)], u.top.locals, 1, flag);
      Moved(t, x, |c| + 1, 0, [BINOP(Sub)]);
      BinopStep(w.prog, x, t.stack, v, Int(0), Sub);
      var g := ExprGoal(w, t, |c| + 2, Negated(r), fuel, flag);
      LeadsVia(w.prog, u, x, g);
      LeadsVia(w.prog, t, u, g);
    }
  }

  lemma PrefixGlue(w: Context, t: Thread, c: Code, op: UnaryOp, r: Effect<(Value, Store)>, fuel: nat, flag: bool)
    requires CodeAt(t, 0, c + [UNARY(op)]) && Leads(w.prog, t, ExprGoal(w, t, |c|, r, fuel, flag))
    ensures Leads(w.prog, t, ExprGoal(w, t, |c| + 1, Prefixed(op, r), fuel, flag))
  {
    if r.Success? {
      var (v, s) := r.value;
      CodeAtParts(t, 0, c, [UNARY(op)]);
      var u := At(t, t.stack + [v], Represent(w.names, s), |c|, flag);
      Moved(t, u, |c|, 0, [UNARY(op)]);
      UnaryStep(w.prog, u, t.stack, v, op);
      LeadsVia(w.prog, t, u, ExprGoal(w, t, |c| + 1, Prefixed(op, r), fuel, flag));
    }
  }

  lemma CombineGlue(w: Context, t: Thread, n: nat, op: BinaryOp, r: Effect<(Value, Value, Store)>, fuel: nat, flag: bool)
    requires CodeAt(t, n, [BINOP(op)]) && Leads(w.prog, t, PairGoal(w, t, n, r, fuel, flag))
    ensures Leads(w.prog, t, ExprGoal(w, t, n + 1, Combined(op, r), fuel, flag))
  {
    if r.Success? {
      var (a, b, s) := r.value;
      var u := At(t, t.stack + [a] + [b], Represent(w.names, s), n, flag);
      Moved(t, u, n, 0, [BINOP(op)]);
      BinopStep(w.prog, u, t.stack, a, b, op);
      LeadsVia(w.prog, t, u, ExprGoal(w, t, n + 1, Combined(op, r), fuel, flag));
    }
  }

  /** The slot of an lvalue holds the variable that the semantics updates. */
  ghost predicate SlotOf(w: Context, l: Expr, ref: Instruction) {
    && ref.REF? && Distinct(w.names)
    && match l
       case Self => "self" in w.names && ref.slot == IndexOf(w.names, "self")
       case Id(x) => Lower(x) in w.names && ref.slot == IndexOf(w.names, Lower(x))
       case _ => false
  }

  lemma StoreAt(w: Context, l: Expr, ref: Instruction, t: Thread, s: seq<Value>, v: Value, store: Store)
    requires SlotOf(w, l, ref) && t.top.locals == Represent(w.names, store)
    requires CodeAt(t, 0, [ref, STORE]) && t.stack == s + [v]
    ensures Update(store, l, v).Success?
    ensures Leads(w.prog, t, Arrive(At(t, s + [v], Represent(w.names, Update(store, l, v).value), 2, t.flag)))
  {
    RepresentUpdate(w.names, store, if l.Self? then "self" else Lower(l.name), v);
    StoreStep(w.prog, t, s, v, ref.slot);
  }

  lemma StoreGlue(w: Context, t: Thread, n: nat, l: Expr, ref: Instruction, r: Effect<(Value, Store)>,
                  fuel: nat, flag: bool)
    requires SlotOf(w, l, ref)
    requires CodeAt(t, n, [ref, STORE]) && Leads(w.prog, t, ExprGoal(w, t, n, r, fuel, flag))
    ensures Leads(w.prog, t, ExprGoal(w, t, n + 2, Stored(l, r), fuel, flag))
  {
    if r.Success? {
      var (v, s) := r.value;
      var u := At(t, t.stack + [v], Represent(w.names, s), n, flag);
      Moved(t, u, n, 0, [ref, STORE]);
      StoreAt(w, l, ref, u, t.stack, v, s);
      LeadsVia(w.prog, t, u, ExprGoal(w, t, n + 2, Stored(l, r), fuel, flag));
    }
  }

  lemma OpAssignGlue(w: Context, t: Thread, n: nat, op: BinaryOp, l: Expr, ref: Instruction,
                     r: Effect<(Value, Value, Store)>, fuel: nat, flag: bool)
    requires SlotOf(w, l, ref)
    requires CodeAt(t, n, [BINOP(op), ref, STORE]) && Leads(w.prog, t, PairGoal(w, t, n, r, fuel, flag))
    ensures Leads(w.prog, t, ExprGoal(w, t, n + 3, Stored(l, Combined(op, r)), fuel, flag))
  {
    assert [BINOP(op), ref, STORE] == [BINOP(op)] + [ref, STORE];
    CodeAtParts(t, n, [BINOP(op)], [ref, STORE]);
    CombineGlue(w, t, n, op, r, fuel, flag);
    StoreGlue(w, t, n + 1, l, ref, Combined(op, r), fuel, flag);
  }

  /** One expression, then another; `y` is what the second means after the first. */
  function Both(x: Effect<(Value, Store)>, y: Effect<(Value, Store)>): Effect<(Value, Value, Store)> {
    var (a, _) :- x;
    var (b, s) :- y;
    Success((a, b, s))
  }

  /** Where the second of two expressions starts. */
  function Between(w: Context, t: Thread, n: nat, x: Effect<(Value, Store)>, flag: bool): Thread {
    if x.Success? then At(t, t.stack + [x.value.0], Represent(w.names, x.value.1), n, flag) else t
  }

  lemma PairGlue(w: Context, t: Thread, n: nat, m: nat, x: Effect<(Value, Store)>, y: Effect<(Value, Store)>,
                 fuel: nat, f: bool, g: bool)
    requires Leads(w.prog, t, ExprGoal(w, t, n, x, fuel, f))
    requires var u := Between(w, t, n, x, f);
             x.Success? ==> Leads(w.prog, u, ExprGoal(w, u, m, y, fuel, g))
    ensures Leads(w.prog, t, PairGoal(w, t, n + m, Both(x, y), fuel, g))
  {
    if x.Success? {
      var u := Between(w, t, n, x, f);
      LeadsVia(w.prog, t, u, ExprGoal(w, u, m, y, fuel, g));
    }
  }

  /** Store the value on top, and leave what is below it. */
  lemma StorePop(w: Context, t: Thread, s: seq<Value>, v: Value, l: Expr, ref: Instruction, store: Store)
    requires SlotOf(w, l, ref) && t.top.locals == Represent(w.names, store)
    requires CodeAt(t, 0, [ref, STORE] + [POP]) && t.stack == s + [v]
    ensures Update(store, l, v).Success?
    ensures Leads(w.prog, t, Arrive(At(t, s, Represent(w.names, Update(store, l, v).value), 3, t.flag)))
  {
    CodeAtParts(t, 0, [ref, STORE], [POP]);
    StoreAt(w, l, ref, t, s, v, store);
    var u := At(t, s + [v], Represent(w.names, Update(store, l, v).value), 2, t.flag);
    Moved(t, u, 2, 0, [POP]);
    PopStep(w.prog, u, s, v);
    LeadsVia(w.prog, t, u, Arrive(At(t, s, Represent(w.names, Update(store, l, v).value), 3, t.flag)));
  }

  lemma PostfixGlue(w: Context, t: Thread, n: nat, op: BinaryOp, l: Expr, ref: Instruction,
                    r: Effect<(Value, Value, Store)>, fuel: nat, flag: bool)
    requires SlotOf(w, l, ref)
    requires CodeAt(t, n, [CONST(true), BINOP(op), ref, STORE, POP])
    requires Leads(w.prog, t, PairGoal(w, t, n, r, fuel, flag))
    ensures Leads(w.prog, t, ExprGoal(w, t, n + 5, Stepped(op, l, r), fuel, flag))
  {
    if r.Success? {
      var (a, b, s) := r.value;
      var u := At(t, t.stack + [a] + [b], Represent(w.names, s), n, flag);
      assert [CONST(true), BINOP(op), ref, STORE, POP] == [CONST(true), BINOP(op)] + ([ref, STORE] + [POP]);
      CodeAtParts(t, n, [CONST(true), BINOP(op)], [ref, STORE] + [POP]);
      Moved(t, u, n, 0, [CONST(true), BINOP(op)]);
      Moved(t, u, n, 2, [ref, STORE] + [POP]);
      StepGlue(w, u, t.stack, a, b, op, l, ref, s);
      LeadsVia(w.prog, t, u, ExprGoal(w, t, n + 5, Stepped(op, l, r), fuel, flag));
    }
  }

  lemma StepGlue(w: Context, u: Thread, below: seq<Value>, a: Value, b: Value, op: BinaryOp, l: Expr, ref: Instruction,
                 store: Store)
    requires SlotOf(w, l, ref) && u.top.locals == Represent(w.names, store)
    requires CodeAt(u, 0, [CONST(true), BINOP(op)]) && CodeAt(u, 2, [ref, STORE] + [POP])
    requires u.stack == below + [a] + [b]
    ensures match Binop(op, b, Int(1))
            case Failure(f) => Leads(w.prog, u, Abort(f))
            case Success(x) =>
              Update(store, l, x).Success? &&
              Leads(w.prog, u, Arrive(At(u, below + [a], Represent(w.names, Update(store, l, x).value), 5, u.flag)))
  {
    OneMore(w, u, below + [a], b, op);
    var x := Binop(op, b, Int(1));
    if x.Success? {
      var y := At(u, below + [a] + [x.value], u.top.locals, 2, u.flag);
      Moved(u, y, 2, 0, [ref, STORE] + [POP]);
      StorePop(w, y, below + [a], x.value, l, ref, store);
      LeadsVia(w.prog, u, y, Arrive(At(u, below + [a], Represent(w.names, Update(store, l, x.value).value), 5, u.flag)));
    }
  }

  lemma OneMore(w: Context, t: Thread, s: seq<Value>, v: Value, op: BinaryOp)
    requires CodeAt(t, 0, [CONST(true), BINOP(op)]) && t.stack == s + [v]
    ensures Leads(w.prog, t, match Binop(op, v, Int(1))
                             case Success(x) => Arrive(At(t, s + [x], t.top.locals, 2, t.flag))
                             case Failure(f) => Abort(f))
  {
    assert [CONST(true), BINOP(op)] == [CONST(true)] + [BINOP(op)];
    CodeAtParts(t, 0, [CONST(true)], [BINOP(op)]);
    PushStep(w.prog, t, CONST(true), Int(1));
    var u := At(t, s + [v] + [Int(1)], t.top.locals, 1, t.flag);
    Moved(t, u, 1, 0, [BINOP(op)]);
    BinopStep(w.prog, u, s, v, Int(1), op);
    var r := Binop(op, v, Int(1));
    LeadsVia(w.prog, t, u, if r.Success? then Arrive(At(t, s + [r.value], t.top.locals, 2, t.flag)) else Abort(r.error));
  }

  // ---- conditions ----

  /** What TEST makes of a value. */
  function Condition(r: Effect<(Value, Store)>): Effect<(bool, Store)> {
    var (v, s) :- r;
    var c :- Lift(Test(v));
    Success((c, s))
  }

  /** Past the test and its jump, on the side that the condition chooses. */
  function TestGoal(w: Context, t: Thread, n: nat, jump: Instruction, r: Effect<(bool, Store)>, fuel: nat): Goal
    requires jump.JZ? || jump.JNZ?
  {
    EffectGoal(r, if r.Success? then
                At(t, t.stack, Represent(w.names, r.value.1),
                   n + (if r.value.0 == jump.JNZ? then 2 + jump.rel else 2), r.value.0)
              else t, fuel)
  }

  lemma TestGlue(w: Context, t: Thread, n: nat, jump: Instruction, r: Effect<(Value, Store)>, fuel: nat, flag: bool)
    requires jump.JZ? || jump.JNZ?
    requires CodeAt(t, n, [TEST, jump]) && Leads(w.prog, t, ExprGoal(w, t, n, r, fuel, flag))
    ensures Leads(w.prog, t, TestGoal(w, t, n, jump, Condition(r), fuel))
  {
    if r.Success? {
      var (v, s) := r.value;
      var u := At(t, t.stack + [v], Represent(w.names, s), n, flag);
      Moved(t, u, n, 0, [TEST, jump]);
      TestStep(w.prog, u, t.stack, v, jump);
      LeadsVia(w.prog, t, u, TestGoal(w, t, n, jump, Condition(r), fuel));
    }
  }

  /** `1 && b` or `0 || b`, and the jump over the constant of the other path. */
  lemma RightGlue(w: Context, t: Thread, one: bool, rc: Code, op: BinaryOp, last: Instruction,
                  r: Effect<(Value, Store)>, fuel: nat, flag: bool)
    requires CodeAt(t, 0, [CONST(one)] + rc + [BINOP(op), JMP(1), last])
    requires var u := At(t, t.stack + [Int(IntOf(one))], t.top.locals, 1, t.flag);
             Leads(w.prog, u, ExprGoal(w, u, |rc|, r, fuel, flag))
    ensures Leads(w.prog, t, ExprGoal(w, t, |rc| + 4, CombinedWith(op, Int(IntOf(one)), r), fuel, flag))
  {
    var u := At(t, t.stack + [Int(IntOf(one))], t.top.locals, 1, t.flag);
    CodeAtThree(t, 0, [CONST(one)], rc, [BINOP(op), JMP(1), last]);
    PushStep(w.prog, t, CONST(one), Int(IntOf(one)));
    var g := ExprGoal(w, t, |rc| + 4, CombinedWith(op, Int(IntOf(one)), r), fuel, flag);
    if r.Success? {
      JoinGlue(w, t, u, one, |rc|, op, last, r, fuel, flag);
    }
    LeadsVia(w.prog, t, u, g);
  }

  function CombinedWith(op: BinaryOp, a: Value, r: Effect<(Value, Store)>): Effect<(Value, Store)> {
    var (b, s) :- r;
    var x :- Lift(Binop(op, a, b));
    Success((x, s))
  }

  lemma JoinGlue(w: Context, t: Thread, u: Thread, one: bool, n: nat, op: BinaryOp, last: Instruction,
                 r: Effect<(Value, Store)>, fuel: nat, flag: bool)
    requires u == At(t, t.stack + [Int(IntOf(one))], t.top.locals, 1, t.flag) && r.Success?
    requires CodeAt(t, n + 1, [BINOP(op), JMP(1), last]) && Leads(w.prog, u, ExprGoal(w, u, n, r, fuel, flag))
    ensures Leads(w.prog, u, ExprGoal(w, t, n + 4, CombinedWith(op, Int(IntOf(one)), r), fuel, flag))
  {
    var (b, s) := r.value;
    var x := At(u, u.stack + [b], Represent(w.names, s), n, flag);
    assert [BINOP(op), JMP(1), last] == [BINOP(op)] + [JMP(1)] + [last];
    CodeAtThree(t, n + 1, [BINOP(op)], [JMP(1)], [last]);
    Moved(t, x, n + 1, 0, [BINOP(op)]);
    BinopStep(w.prog, x, t.stack, Int(IntOf(one)), b, op);
    var g := ExprGoal(w, t, n + 4, CombinedWith(op, Int(IntOf(one)), r), fuel, flag);
    var v := Binop(op, Int(IntOf(one)), b);
    if v.Success? {
      var y := At(x, t.stack + [v.value], x.top.locals, 1, flag);
      Moved(t, y, n + 2, 0, [JMP(1)]);
      JumpStep(w.prog, y, 1);
      LeadsVia(w.prog, x, y, g);
    }
    LeadsVia(w.prog, u, x, g);
  }

  /** The side on which a logical operator evaluates its right operand. */
  function LogicalResult(conjunction: bool, c: Effect<(bool, Store)>, right: Effect<(Value, Store)>): Effect<(Value, Store)> {
    var (b, s) :- c;
    if b == conjunction then right else Success((Int(IntOf(b)), s))
  }

  /** Where the thread stands after a test that chose not to jump, or to jump. */
  function Beyond(w: Context, t: Thread, n: nat, jump: Instruction, c: Effect<(bool, Store)>): Thread
    requires jump.JZ? || jump.JNZ?
  {
    if c.Success? then
      At(t, t.stack, Represent(w.names, c.value.1), n + (if c.value.0 == jump.JNZ? then 2 + jump.rel else 2), c.value.0)
    else t
  }

  lemma LogicalGlue(w: Context, t: Thread, lc: Code, jump: Instruction, one: bool, rc: Code, op: BinaryOp,
                    c: Effect<(bool, Store)>, right: Effect<(Value, Store)>, fuel: nat, g: bool)
    returns (flag: bool)
    requires jump == if one then JZ(|rc| + 3) else JNZ(|rc| + 3)
    requires CodeAt(t, 0, lc + [TEST, jump, CONST(one)] + rc + [BINOP(op), JMP(1), CONST(!one)])
    requires Leads(w.prog, t, TestGoal(w, t, |lc|, jump, c, fuel))
    requires var u := Beyond(w, t, |lc|, jump, c);
             c.Success? && c.value.0 == one ==> Leads(w.prog, u, ExprGoal(w, u, |rc| + 4, right, fuel, g))
    ensures Leads(w.prog, t, ExprGoal(w, t, |lc| + |rc| + 6, LogicalResult(one, c, right), fuel, flag))
  {
    flag := g;
    if c.Success? {
      var u := Beyond(w, t, |lc|, jump, c);
      if c.value.0 != one {
        flag := u.flag;
        ShortcutCode(t, lc, [TEST, jump, CONST(one)], rc, [BINOP(op), JMP(1)], CONST(!one));
        Moved(t, u, |lc| + |rc| + 5, 0, [CONST(!one)]);
        PushStep(w.prog, u, CONST(!one), Int(IntOf(!one)));
      }
      LeadsVia(w.prog, t, u, ExprGoal(w, t, |lc| + |rc| + 6, LogicalResult(one, c, right), fuel, flag));
    }
  }

  lemma ShortcutCode(t: Thread, lc: Code, a: Code, rc: Code, b: Code, last: Instruction)
    requires CodeAt(t, 0, lc + a + rc + (b + [last]))
    ensures CodeAt(t, |lc| + |a| + |rc| + |b|, [last])
  {
    CodeAtParts(t, 0, lc + a + rc, b + [last]);
    CodeAtParts(t, |lc + a + rc|, b, [last]);
  }

  /** After a test that held: the consequent, and the jump over the alternative. */
  lemma ThenGlue(w: Context, t: Thread, n: nat, ac: Code, bc: Code, c: Effect<(bool, Store)>,
                 a: Effect<(Value, Store)>, fuel: nat, f: bool)
    requires CodeAt(t, n + 2 + |ac|, [JMP(|bc|)]) && c.Success? && c.value.0
    requires Leads(w.prog, t, TestGoal(w, t, n, JZ(|ac| + 1), c, fuel))
    requires var u := Beyond(w, t, n, JZ(|ac| + 1), c);
             Leads(w.prog, u, ExprGoal(w, u, |ac|, a, fuel, f))
    ensures Leads(w.prog, t, ExprGoal(w, t, n + |ac| + |bc| + 3, a, fuel, f))
  {
    var u := Beyond(w, t, n, JZ(|ac| + 1), c);
    var g := ExprGoal(w, t, n + |ac| + |bc| + 3, a, fuel, f);
    if a.Success? {
      var x := At(u, u.stack + [a.value.0], Represent(w.names, a.value.1), |ac|, f);
      Moved(t, x, n + 2 + |ac|, 0, [JMP(|bc|)]);
      JumpStep(w.prog, x, |bc|);
      LeadsVia(w.prog, u, x, g);
    }
    LeadsVia(w.prog, t, u, g);
  }

  /** After a test that did not hold: the alternative. */
  lemma ElseGlue(w: Context, t: Thread, n: nat, ac: Code, bc: Code, c: Effect<(bool, Store)>,
                 b: Effect<(Value, Store)>, fuel: nat, f: bool)
    requires c.Success? && !c.value.0
    requires Leads(w.prog, t, TestGoal(w, t, n, JZ(|ac| + 1), c, fuel))
    requires var u := Beyond(w, t, n, JZ(|ac| + 1), c);
             Leads(w.prog, u, ExprGoal(w, u, |bc|, b, fuel, f))
    ensures Leads(w.prog, t, ExprGoal(w, t, n + |ac| + |bc| + 3, b, fuel, f))
  {
    var u := Beyond(w, t, n, JZ(|ac| + 1), c);
    LeadsVia(w.prog, t, u, ExprGoal(w, t, n + |ac| + |bc| + 3, b, fuel, f));
  }
}
