/** Where the language differs from what its syntax suggests, and exactly when it does not. */
module Quirks {
  import opened Wrappers
  import opened Values
  import opened Syntax
  import opened Bytecode
  import opened Emitter
  import opened Machine
  import opened Semantics
  import opened Linking
  import opened Functions
  import opened Nesting

  // ---- a continue that a later loop takes over ----

  const ONE := Lit(IntLiteral(1))

  /** `for (;;) { switch (1) { case 1: continue; } for (;;); }` */
  function Disturbed(): Stmt {
    While(None, Block(Cons(Switch(ONE, Case(Some(ONE), Cons(Continue, Nil), NoCases)), Cons(While(None, Empty), Nil))))
  }

  /** There is a body that is well-scoped and compiles, but not to the code it is meant to have. */
  lemma ContinueIsTakenOver() returns (body: Stmt, f: Function)
    ensures body == Disturbed() && WellScoped(body, false, false)
    ensures CompileFunction([], body) == Success(f) && f.code != Meant(body, f.locals)
  {
    body := SomeDisturbed();
    f := Misled([], body);
  }

  lemma SomeDisturbed() returns (body: Stmt)
    ensures body == Disturbed() && WellScoped(body, false, false)
    ensures !Undisturbed(body) && CompileFunction([], body).Success?
  {
    body := Disturbed();
    DisturbedIsScoped();
    IsDisturbed();
    DisturbedCompiles();
  }

  lemma DisturbedIsScoped()
    ensures WellScoped(Disturbed(), false, false)
  {
    assert AllScoped(Cons(Continue, Nil), true, true);
    assert AllScoped(Cons(While(None, Empty), Nil), true, true);
  }

  lemma Misled(parameters: seq<string>, body: Stmt) returns (f: Function)
    requires CompileFunction(parameters, body).Success? && !Undisturbed(body)
    ensures CompileFunction(parameters, body) == Success(f) && f.code != Meant(body, f.locals)
  {
    f := CompileFunction(parameters, body).value;
    CompiledAsMeantIff(parameters, body);
  }

  lemma IsDisturbed()
    ensures !Undisturbed(Disturbed())
  {
    assert HasLoopIn(Cons(While(None, Empty), Nil), 1);
  }

  lemma DisturbedCompiles()
    ensures CompileFunction([], Disturbed()).Success?
  {
    assert DefineParameters([], ["self"]) == Success(["self"]);
    var r := DisturbedEmits(Emission([], [], [], ["self"]));
  }

  lemma DisturbedEmits(st: Emission) returns (r: Emission)
    requires st == Emission([], [], [], ["self"])
    ensures EmitStmt(Disturbed(), st) == Success(r) && |r.code| <= 20
  {
    assert Inside(st).code == [CONST(true), TEST, JZ(UNRESOLVED)];
    var s3 := BodyEmits(Inside(st));
    r := FinishLoop(s3, 0, 2, |s3.code|).value;
    ForeverIsEmitted(Disturbed().loop, st);
  }

  lemma BodyEmits(st: Emission) returns (r: Emission)
    requires |st.code| <= 5 && |st.scopes| <= 5 && |st.jumps| <= 5
    ensures EmitStmt(Disturbed().loop, st) == Success(r) && |r.code| <= |st.code| + 10 && r.scopes == st.scopes
  {
    var s := SwitchEmits(st);
    r := LoopEmits(s);
    assert EmitStmts(Nil, r) == Success(r);
    assert EmitStmts(Cons(While(None, Empty), Nil), s) == Success(r);
  }

  lemma LoopEmits(st: Emission) returns (r: Emission)
    requires |st.code| <= 50 && |st.scopes| <= 10
    ensures EmitStmt(While(None, Empty), st) == Success(r) && |r.code| <= |st.code| + 4 && r.scopes == st.scopes
  {
    r := EmitStmt(While(None, Empty), st).value;
  }

  lemma SwitchEmits(st: Emission) returns (r: Emission)
    requires |st.code| <= 10 && |st.scopes| <= 10 && |st.jumps| <= 10
    ensures var s := Switch(ONE, Case(Some(ONE), Cons(Continue, Nil), NoCases));
            EmitStmt(s, st) == Success(r) && |r.code| <= |st.code| + 6 && r.scopes == st.scopes
  {
    var s := Switch(ONE, Case(Some(ONE), Cons(Continue, Nil), NoCases));
    r := EmitStmt(s, st).value;
  }

  // ---- unary minus ----

  /** On integers, unary minus is the identity: it subtracts zero. */
  lemma MinusIsIdentity(src: Source, a: Expr, store: Store, fuel: nat, i: Int64, s: Store)
    requires Eval(src, a, store, fuel) == Success((Int(i), s))
    ensures Eval(src, Negate(a), store, fuel) == Success((Int(i), s))
  {
    MinusZero(i);
  }

  lemma MinusZero(i: Int64)
    ensures Binop(Sub, Int(i), Int(0)) == Success(Int(i))
  {
    assert Wrap(i - 0) == i;
  }

  /** So it negates exactly the integers that are their own negation. */
  lemma MinusNegatesIff(src: Source, a: Expr, store: Store, fuel: nat, i: Int64, s: Store)
    requires Eval(src, a, store, fuel) == Success((Int(i), s))
    ensures Eval(src, Negate(a), store, fuel) == Success((Int(Wrap(0 - i)), s)) <==> i == 0 || i == -TWO_63
  {
    MinusIsIdentity(src, a, store, fuel, i, s);
    OwnNegation(i);
  }

  lemma OwnNegation(i: Int64)
    ensures Wrap(0 - i) == i <==> i == 0 || i == -TWO_63
  {
    if i == -TWO_63 {
      assert Wrap(TWO_63) == i;
    } else {
      assert Wrap(0 - i) == 0 - i;
    }
  }

  // ---- && and || ----

  /** Nonzero, in all 64 bits. */
  predicate Holds(v: Value) {
    CoerceInt(v).Some? && CoerceInt(v).value != 0
  }

  /** What the right operand is combined with makes a truth value of it. */
  lemma OperandHolds(b: Value)
    ensures Binop(LogicalAnd, Int(1), b) == if CoerceInt(b).Some? then Success(Bool(Holds(b))) else Failure(TypeFault)
    ensures Binop(LogicalOr, Int(0), b) == if CoerceInt(b).Some? then Success(Bool(Holds(b))) else Failure(TypeFault)
  {
    assert CoerceInt(Int(1)) == Some(1) && CoerceInt(Int(0)) == Some(0);
  }

  /**
   * The result of `&&` is a boolean exactly when the right operand was evaluated, which is when the left one tests
   * true; it is then whether the right one is nonzero, and otherwise the integer 0.
   */
  lemma AndResult(src: Source, l: Expr, r: Expr, store: Store, fuel: nat, a: Value, s1: Store, v: Value, s: Store)
    requires Eval(src, l, store, fuel) == Success((a, s1)) && Eval(src, And(l, r), store, fuel) == Success((v, s))
    ensures Test(a).Success? && (v.Bool? <==> Test(a).value)
    ensures if Test(a).value
            then Eval(src, r, s1, fuel).Success? && Eval(src, r, s1, fuel).value.1 == s
                 && v == Bool(Holds(Eval(src, r, s1, fuel).value.0))
            else v == Int(0) && s == s1
  {
    if Test(a).Success? && Test(a).value && Eval(src, r, s1, fuel).Success? {
      OperandHolds(Eval(src, r, s1, fuel).value.0);
    }
  }

  /** The same for `||`, which evaluates its right operand when the left one tests false, and is otherwise the integer 1. */
  lemma OrResult(src: Source, l: Expr, r: Expr, store: Store, fuel: nat, a: Value, s1: Store, v: Value, s: Store)
    requires Eval(src, l, store, fuel) == Success((a, s1)) && Eval(src, Or(l, r), store, fuel) == Success((v, s))
    ensures Test(a).Success? && (v.Bool? <==> !Test(a).value)
    ensures if !Test(a).value
            then Eval(src, r, s1, fuel).Success? && Eval(src, r, s1, fuel).value.1 == s
                 && v == Bool(Holds(Eval(src, r, s1, fuel).value.0))
            else v == Int(1) && s == s1
  {
    if Test(a).Success? && !Test(a).value && Eval(src, r, s1, fuel).Success? {
      OperandHolds(Eval(src, r, s1, fuel).value.0);
    }
  }
}
