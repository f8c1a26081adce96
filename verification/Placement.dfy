/** Expressions: the emitted code is the layout, whatever is allocated later. */
module Placement {
  import opened Wrappers
  import opened Values
  import opened Syntax
  import opened Bytecode
  import opened Emitter
  import opened Layout

  // ---- which names a piece of syntax uses ----

  predicate ExprBound(e: Expr, names: seq<string>)
    decreases e, 1
  {
    match e
    case Lit(_) => true
    case Self => "self" in names
    case Id(x) => Lower(x) in names
    case Group(a) => ExprBound(a, names)
    case Negate(a) => ExprBound(a, names)
    case Prefix(_, a) => ExprBound(a, names)
    case Postfix(_, a) => ExprBound(a, names) && IsLvalue(a)
    case Assign(l, r) => ExprBound(l, names) && ExprBound(r, names) && IsLvalue(l)
    case OpAssign(_, l, r) => ExprBound(l, names) && ExprBound(r, names) && IsLvalue(l)
    case Binary(_, l, r) => ExprBound(l, names) && ExprBound(r, names)
    case And(l, r) => ExprBound(l, names) && ExprBound(r, names)
    case Or(l, r) => ExprBound(l, names) && ExprBound(r, names)
    case Ternary(t, a, b) => ExprBound(t, names) && ExprBound(a, names) && ExprBound(b, names)
    case Call(receiver, callee, arguments) =>
      && !IsEventOperation(callee)
      && (match receiver case Some(e) => ExprBound(e, names) case None => "self" in names)
      && ExprsBound(arguments, names)
  }

  predicate ExprsBound(es: seq<Expr>, names: seq<string>)
    decreases es, 0
  {
    es == [] || (ExprsBound(es[1..], names) && ExprBound(es[0], names))
  }

  predicate IsLvalue(e: Expr) {
    e.Self? || e.Id?
  }

  // ---- names only grow, and a slot never changes ----

  lemma {:induction false} SlotIsStable(names: seq<string>, later: seq<string>, x: string)
    requires names <= later && x in names
    ensures IndexOf(later, x) == IndexOf(names, x)
  {
    if names[0] != x {
      SlotIsStable(names[1..], later[1..], x);
    }
  }

  lemma DefineGrows(names: seq<string>, x: string)
    ensures names <= Define(names, x)
    ensures Lower(x) in Define(names, x)
  {
    assert Define(names, x)[|Define(names, x)| - 1] == Lower(x) || Lower(x) in names;
  }

  lemma BoundGrows(x: string, names: seq<string>, later: seq<string>)
    requires names <= later && x in names
    ensures x in later && IndexOf(later, x) == IndexOf(names, x)
  {
    SlotIsStable(names, later, x);
    assert later[IndexOf(names, x)] == x;
  }

  /** Growing the list of names keeps earlier code valid. */
  lemma {:induction false} ExprCodeIsStable(e: Expr, names: seq<string>, later: seq<string>)
    requires ExprBound(e, names) && names <= later
    ensures ExprBound(e, later) && ExprCode(e, later) == ExprCode(e, names)
    decreases e, 1
  {
    match e
    case Lit(_) =>
    case Self => BoundGrows("self", names, later);
    case Id(x) => BoundGrows(Lower(x), names, later);
    case Group(a) => ExprCodeIsStable(a, names, later);
    case Negate(a) => ExprCodeIsStable(a, names, later);
    case Prefix(_, a) => ExprCodeIsStable(a, names, later);
    case Postfix(_, a) => ExprCodeIsStable(a, names, later);
    case Assign(l, r) =>
      ExprCodeIsStable(l, names, later);
      ExprCodeIsStable(r, names, later);
    case OpAssign(_, l, r) =>
      ExprCodeIsStable(l, names, later);
      ExprCodeIsStable(r, names, later);
    case Binary(_, l, r) =>
      ExprCodeIsStable(l, names, later);
      ExprCodeIsStable(r, names, later);
    case And(l, r) =>
      ExprCodeIsStable(l, names, later);
      ExprCodeIsStable(r, names, later);
    case Or(l, r) =>
      ExprCodeIsStable(l, names, later);
      ExprCodeIsStable(r, names, later);
    case Ternary(t, a, b) =>
      ExprCodeIsStable(t, names, later);
      ExprCodeIsStable(a, names, later);
      ExprCodeIsStable(b, names, later);
    case Call(receiver, _, arguments) =>
      ArgumentsCodeIsStable(arguments, names, later);
      match receiver {
        case Some(r) => ExprCodeIsStable(r, names, later);
        case None => BoundGrows("self", names, later);
      }
  }

  lemma {:induction false} ArgumentsCodeIsStable(es: seq<Expr>, names: seq<string>, later: seq<string>)
    requires ExprsBound(es, names) && names <= later
    ensures ExprsBound(es, later) && ArgumentsCode(es, later) == ArgumentsCode(es, names)
    decreases es, 0
  {
    if es != [] {
      ArgumentsCodeIsStable(es[1..], names, later);
      ExprCodeIsStable(es[0], names, later);
    }
  }

  // ---- emission of an expression is its layout ----

  /** `self` is slot 0 from the start of every function. */
  predicate HasSelf(names: seq<string>) {
    names != [] && names[0] == "self"
  }

  lemma SelfSlot(names: seq<string>)
    requires HasSelf(names)
    ensures "self" in names && IndexOf(names, "self") == 0
  {
  }

  /** `r` is `st` with the code `c` appended and perhaps more names. */
  ghost predicate Appends(st: Emission, c: Code, r: Emission) {
    st.names <= r.names && r == Emission(st.code + c, st.jumps, st.scopes, r.names)
  }

  lemma AppendsTwice(st: Emission, c: Code, s1: Emission, d: Code, r: Emission)
    requires Appends(st, c, s1) && Appends(s1, d, r)
    ensures Appends(st, c + d, r)
  {
    assert st.code + c + d == st.code + (c + d);
  }

  /** Pointing a jump inside the last part of the code to its end. */
  lemma PatchInside(st: Emission, a: Code, jump: Instruction, b: Code)
    requires jump.IsJump()
    requires |a| <= |st.code| && st.code == a + [jump] + b
    ensures PatchHere(st, |a|) == st.(code := a + [jump.WithRel(|b|)] + b)
  {
    assert (a + [jump] + b)[|a| := jump.WithRel(|b|)] == a + [jump.WithRel(|b|)] + b;
  }

  lemma PutAppends(st: Emission, c: Code, s: Emission, d: Code)
    requires Appends(st, c, s) && Put(s, d).Success?
    ensures Appends(st, c + d, Put(s, d).value)
  {
    AppendsTwice(st, c, s, d, Put(s, d).value);
  }

  /** The two patches at the end of `&&` and `||`, on the code alone. */
  lemma LogicalPatches(a: Code, jump: Instruction, rc: Code, op: Instruction, last: Instruction)
    requires jump.IsJump()
    ensures var c := a + [jump] + rc + [op, JMP(UNRESOLVED)];
            var d := SetTarget(c, |a|, |c|) + [last];
            SetTarget(d, |a| + 1 + |rc| + 1, |d|) == a + [jump.WithRel(|rc| + 2)] + rc + [op, JMP(1), last]
  {
    var c := a + [jump] + rc + [op, JMP(UNRESOLVED)];
    var p := a + [jump.WithRel(|rc| + 2)] + rc + [op];
    assert SetTarget(c, |a|, |c|) == p + [JMP(UNRESOLVED)];
    var d := p + [JMP(UNRESOLVED)] + [last];
    assert SetTarget(d, |p|, |d|) == p + [JMP(1)] + [last];
  }

  lemma FinishLogicalAppends(st: Emission, lc: Code, s1: Emission, jump: Instruction, one: bool,
                             rc: Code, s3: Emission, op: BinaryOp)
    requires jump.IsJump()
    requires Appends(st, lc, s1)
    requires Appends(s1.(code := s1.code + [TEST, jump, CONST(one)]), rc, s3)
    requires FinishLogical(s3, |s1.code| + 1, op, !one).Success?
    ensures Appends(st, LogicalCode(lc, jump, one, rc, op), FinishLogical(s3, |s1.code| + 1, op, !one).value)
  {
    var a := s1.code + [TEST];
    var s4 := Put(s3, [BINOP(op), JMP(UNRESOLVED)]).value;
    assert s4.code == a + [jump] + ([CONST(one)] + rc) + [BINOP(op), JMP(UNRESOLVED)];
    LogicalPatches(a, jump, [CONST(one)] + rc, BINOP(op), CONST(!one));
    var r := FinishLogical(s3, |s1.code| + 1, op, !one).value;
    assert r.code == a + [jump.WithRel(|rc| + 3)] + ([CONST(one)] + rc) + [BINOP(op), JMP(1), CONST(!one)];
    LogicalShape(st.code, lc, jump.WithRel(|rc| + 3), CONST(one), rc, [BINOP(op), JMP(1), CONST(!one)]);
  }

  lemma LogicalShape(p: Code, lc: Code, jump: Instruction, one: Instruction, rc: Code, tail: Code)
    ensures p + lc + [TEST] + [jump] + ([one] + rc) + tail == p + (lc + [TEST, jump, one] + rc + tail)
  {
  }

  lemma BeginElseAppends(st: Emission, tc: Code, s1: Emission, ac: Code, s3: Emission)
    requires Appends(st, tc, s1)
    requires Appends(s1.(code := s1.code + [TEST, JZ(UNRESOLVED)]), ac, s3)
    requires BeginElse(s3, |s1.code| + 1).Success?
    ensures Appends(st, tc + [TEST, JZ(|ac| + 1)] + ac + [JMP(UNRESOLVED)], BeginElse(s3, |s1.code| + 1).value)
  {
    var a := st.code + tc + [TEST];
    var b := ac + [JMP(UNRESOLVED)];
    var s4 := Put(s3, [JMP(UNRESOLVED)]).value;
    assert s4.code == a + [JZ(UNRESOLVED)] + b;
    PatchInside(s4, a, JZ(UNRESOLVED), b);
  }

  lemma FinishBranchAppends(st: Emission, tc: Code, ac: Code, s4: Emission, bc: Code, s5: Emission)
    requires Appends(st, tc + [TEST, JZ(|ac| + 1)] + ac + [JMP(UNRESOLVED)], s4)
    requires Appends(s4, bc, s5)
    ensures Appends(st, BranchCode(tc, ac, bc), PatchHere(s5, |s4.code| - 1))
  {
    var c := st.code + tc + [TEST, JZ(|ac| + 1)] + ac;
    assert s5.code == c + [JMP(UNRESOLVED)] + bc;
    PatchInside(s5, c, JMP(UNRESOLVED), bc);
  }

  /** Compilation of an expression appends its layout under the names known by then. */
  lemma {:induction false} EmitExprIsLayout(e: Expr, st: Emission)
    requires EmitExpr(e, st).Success? && HasSelf(st.names)
    ensures var r := EmitExpr(e, st).value;
            Appends(st, ExprCode(e, r.names), r) && ExprBound(e, r.names)
    decreases e, 2
  {
    match e
    case Lit(_) =>
    case Self => SelfSlot(st.names);
    case Id(x) => DefineGrows(st.names, x);
    case Group(a) => EmitExprIsLayout(a, st);
    case Negate(a) => EmitUnaryIsLayout(e, a, [CONST(false), BINOP(Sub)], st);
    case Prefix(op, a) => EmitUnaryIsLayout(e, a, [UNARY(op)], st);
    case Postfix(_, a) => EmitPostfixIsLayout(e, st);
    case Assign(l, rhs) => EmitAssignIsLayout(e, st);
    case OpAssign(_, l, rhs) => EmitOpAssignIsLayout(e, st);
    case Binary(op, l, rhs) => EmitBinaryIsLayout(e, st);
    case And(l, rhs) => EmitLogicalIsLayout(e, JZ(UNRESOLVED), LogicalAnd, st);
    case Or(l, rhs) => EmitLogicalIsLayout(e, JNZ(UNRESOLVED), LogicalOr, st);
    case Ternary(t, a, b) => EmitTernaryIsLayout(e, st);
    case Call(receiver, _, arguments) => EmitCallIsLayout(e, st);
  }

  lemma {:induction false} EmitUnaryIsLayout(e: Expr, a: Expr, c: Code, st: Emission)
    requires a < e && EmitExpr(a, st).Success? && HasSelf(st.names)
    requires Put(EmitExpr(a, st).value, c).Success?
    ensures var r := Put(EmitExpr(a, st).value, c).value;
            Appends(st, ExprCode(a, r.names) + c, r) && ExprBound(a, r.names)
    decreases e, 1
  {
    EmitExprIsLayout(a, st);
    var s1 := EmitExpr(a, st).value;
    PutAppends(st, ExprCode(a, s1.names), s1, c);
  }

  lemma {:induction false} EmitBinaryIsLayout(e: Expr, st: Emission)
    requires e.Binary? && EmitExpr(e, st).Success? && HasSelf(st.names)
    ensures var r := EmitExpr(e, st).value;
            Appends(st, ExprCode(e, r.names), r) && ExprBound(e, r.names)
    decreases e, 1
  {
    EmitPair(e, e.lhs, e.rhs, st);
    var s2 := EmitExpr(e.rhs, EmitExpr(e.lhs, st).value).value;
    PutAppends(st, ExprCode(e.lhs, s2.names) + ExprCode(e.rhs, s2.names), s2, [BINOP(e.bop)]);
  }

  /** Two expressions in a row. */
  lemma {:induction false} EmitPair(e: Expr, l: Expr, r: Expr, st: Emission)
    requires l < e && r < e && HasSelf(st.names)
    requires EmitExpr(l, st).Success? && EmitExpr(r, EmitExpr(l, st).value).Success?
    ensures var s2 := EmitExpr(r, EmitExpr(l, st).value).value;
            && Appends(st, ExprCode(l, s2.names) + ExprCode(r, s2.names), s2)
            && ExprBound(l, s2.names) && ExprBound(r, s2.names)
    decreases e, 0
  {
    var s1 := EmitExpr(l, st).value;
    var s2 := EmitExpr(r, s1).value;
    EmitExprIsLayout(l, st);
    EmitExprIsLayout(r, s1);
    ExprCodeIsStable(l, s1.names, s2.names);
    AppendsTwice(st, ExprCode(l, s2.names), s1, ExprCode(r, s2.names), s2);
  }

  lemma {:induction false} EmitPostfixIsLayout(e: Expr, st: Emission)
    requires e.Postfix? && EmitExpr(e, st).Success? && HasSelf(st.names)
    ensures var r := EmitExpr(e, st).value;
            Appends(st, ExprCode(e, r.names), r) && ExprBound(e, r.names)
    decreases e, 1
  {
    var a, op := e.argument, BINOP(if e.increment then Add else Sub);
    EmitPair(e, a, a, st);
    var s2 := EmitExpr(a, EmitExpr(a, st).value).value;
    var s3 := Put(s2, [CONST(true), op]).value;
    EmitLvalueIsLayout(a, s3);
    var r := EmitExpr(e, st).value;
    ExprCodeIsStable(a, s2.names, r.names);
    assert Appends(s2, [CONST(true), op, LvalueCode(a, r.names), STORE, POP], r);
    AppendsTwice(st, ExprCode(a, r.names) + ExprCode(a, r.names), s2,
                 [CONST(true), op, LvalueCode(a, r.names), STORE, POP], r);
  }

  lemma {:induction false} EmitAssignIsLayout(e: Expr, st: Emission)
    requires e.Assign? && EmitExpr(e, st).Success? && HasSelf(st.names)
    ensures var r := EmitExpr(e, st).value;
            Appends(st, ExprCode(e, r.names), r) && ExprBound(e, r.names)
    decreases e, 1
  {
    EmitExprIsLayout(e.rhs, st);
    var s1 := EmitExpr(e.rhs, st).value;
    EmitLvalueIsLayout(e.lhs, s1);
    var r := EmitExpr(e, st).value;
    ExprCodeIsStable(e.rhs, s1.names, r.names);
    assert Appends(s1, [LvalueCode(e.lhs, r.names), STORE], r);
    AppendsTwice(st, ExprCode(e.rhs, r.names), s1, [LvalueCode(e.lhs, r.names), STORE], r);
  }

  lemma {:induction false} EmitOpAssignIsLayout(e: Expr, st: Emission)
    requires e.OpAssign? && EmitExpr(e, st).Success? && HasSelf(st.names)
    ensures var r := EmitExpr(e, st).value;
            Appends(st, ExprCode(e, r.names), r) && ExprBound(e, r.names)
    decreases e, 1
  {
    EmitPair(e, e.lhs, e.rhs, st);
    var s2 := EmitExpr(e.rhs, EmitExpr(e.lhs, st).value).value;
    EmitLvalueIsLayout(e.lhs, Put(s2, [BINOP(e.aop)]).value);
    var r := EmitExpr(e, st).value;
    ExprCodeIsStable(e.lhs, s2.names, r.names);
    ExprCodeIsStable(e.rhs, s2.names, r.names);
    assert Appends(s2, [BINOP(e.aop), LvalueCode(e.lhs, r.names), STORE], r);
    AppendsTwice(st, ExprCode(e.lhs, r.names) + ExprCode(e.rhs, r.names), s2,
                 [BINOP(e.aop), LvalueCode(e.lhs, r.names), STORE], r);
  }

  /** The states after the left operand, its test, and the right operand. */
  lemma LogicalParts(e: Expr, jump: Instruction, op: BinaryOp, st: Emission) returns (s1: Emission, s2: Emission, s3: Emission)
    requires (e.And? || e.Or?) && EmitLogical(e, jump, op, st).Success?
    ensures EmitExpr(e.lhs, st) == Success(s1) && Put(s1, [TEST, jump, CONST(e.And?)]) == Success(s2)
    ensures EmitExpr(e.rhs, s2) == Success(s3)
    ensures EmitLogical(e, jump, op, st) == FinishLogical(s3, |s1.code| + 1, op, !e.And?)
  {
    s1 := EmitExpr(e.lhs, st).value;
    s2, s3 := RightParts(e, jump, op, s1);
  }

  lemma RightParts(e: Expr, jump: Instruction, op: BinaryOp, s1: Emission) returns (s2: Emission, s3: Emission)
    requires (e.And? || e.Or?) && EmitRight(e, jump, op, s1).Success?
    ensures Put(s1, [TEST, jump, CONST(e.And?)]) == Success(s2) && EmitExpr(e.rhs, s2) == Success(s3)
    ensures EmitRight(e, jump, op, s1) == FinishLogical(s3, |s1.code| + 1, op, !e.And?)
  {
    s2 := Put(s1, [TEST, jump, CONST(e.And?)]).value;
    s3 := EmitExpr(e.rhs, s2).value;
  }

  lemma {:induction false} EmitLogicalIsLayout(e: Expr, jump: Instruction, op: BinaryOp, st: Emission)
    requires e.And? || e.Or?
    requires jump.IsJump() && HasSelf(st.names) && EmitLogical(e, jump, op, st).Success?
    ensures var r := EmitLogical(e, jump, op, st).value;
            && Appends(st, LogicalCode(ExprCode(e.lhs, r.names), jump, e.And?, ExprCode(e.rhs, r.names), op), r)
            && ExprBound(e.lhs, r.names) && ExprBound(e.rhs, r.names)
    decreases e, 1
  {
    var s1, s2, s3 := LogicalParts(e, jump, op, st);
    EmitExprIsLayout(e.lhs, st);
    EmitExprIsLayout(e.rhs, s2);
    ExprCodeIsStable(e.lhs, s1.names, s3.names);
    FinishLogicalAppends(st, ExprCode(e.lhs, s3.names), s1, jump, e.And?, ExprCode(e.rhs, s3.names), s3, op);
  }

  lemma {:induction false} EmitConsequentIsLayout(e: Expr, st: Emission)
    requires e.Ternary? && EmitConsequent(e, st).Success? && HasSelf(st.names)
    ensures var r := EmitConsequent(e, st).value;
            var ac := ExprCode(e.consequent, r.names);
            && Appends(st, ExprCode(e.test, r.names) + [TEST, JZ(|ac| + 1)] + ac + [JMP(UNRESOLVED)], r)
            && ExprBound(e.test, r.names) && ExprBound(e.consequent, r.names)
    decreases e, 0
  {
    var s1 := EmitExpr(e.test, st).value;
    EmitExprIsLayout(e.test, st);
    var s2 := Put(s1, [TEST, JZ(UNRESOLVED)]).value;
    EmitExprIsLayout(e.consequent, s2);
    var s3 := EmitExpr(e.consequent, s2).value;
    ExprCodeIsStable(e.test, s1.names, s3.names);
    BeginElseAppends(st, ExprCode(e.test, s3.names), s1, ExprCode(e.consequent, s3.names), s3);
  }

  lemma {:induction false} EmitTernaryIsLayout(e: Expr, st: Emission)
    requires e.Ternary? && EmitExpr(e, st).Success? && HasSelf(st.names)
    ensures var r := EmitExpr(e, st).value;
            Appends(st, ExprCode(e, r.names), r) && ExprBound(e, r.names)
    decreases e, 1
  {
    var s1 := EmitConsequent(e, st).value;
    EmitConsequentIsLayout(e, st);
    EmitExprIsLayout(e.alternative, s1);
    var s2 := EmitExpr(e.alternative, s1).value;
    ExprCodeIsStable(e.test, s1.names, s2.names);
    ExprCodeIsStable(e.consequent, s1.names, s2.names);
    FinishBranchAppends(st, ExprCode(e.test, s2.names), ExprCode(e.consequent, s2.names), s1,
                        ExprCode(e.alternative, s2.names), s2);
  }

  lemma {:induction false} EmitCallIsLayout(e: Expr, st: Emission)
    requires e.Call? && EmitExpr(e, st).Success? && HasSelf(st.names)
    ensures var r := EmitExpr(e, st).value;
            Appends(st, ExprCode(e, r.names), r) && ExprBound(e, r.names)
    decreases e, 1
  {
    var r := EmitExpr(e, st).value;
    EmitArgumentsIsLayout(e.arguments, st);
    var s1 := EmitArguments(e.arguments, st).value;
    var s2 := EmitReceiver(e.receiver, s1).value;
    match e.receiver {
      case Some(o) => EmitExprIsLayout(o, s1);
      case None => SelfSlot(s1.names);
    }
    ArgumentsCodeIsStable(e.arguments, s1.names, s2.names);
    AppendsTwice(st, ArgumentsCode(e.arguments, s2.names), s1, ReceiverCode(e.receiver, s2.names), s2);
    var tail := [PUSH(PushCount(|e.arguments|)), CALL(e.callee, |e.arguments|, e.receiver.Some?)];
    assert Appends(s2, tail, r);
    AppendsTwice(st, ArgumentsCode(e.arguments, s2.names) + ReceiverCode(e.receiver, s2.names), s2, tail, r);
  }

  lemma {:induction false} EmitArgumentsIsLayout(es: seq<Expr>, st: Emission)
    requires EmitArguments(es, st).Success? && HasSelf(st.names)
    ensures var r := EmitArguments(es, st).value;
            Appends(st, ArgumentsCode(es, r.names), r) && ExprsBound(es, r.names)
    decreases es, 0
  {
    if es != [] {
      var r := EmitArguments(es, st).value;
      var s1 := EmitArguments(es[1..], st).value;
      EmitArgumentsIsLayout(es[1..], st);
      EmitExprIsLayout(es[0], s1);
      ArgumentsCodeIsStable(es[1..], s1.names, r.names);
    }
  }

  lemma EmitLvalueIsLayout(e: Expr, st: Emission)
    requires EmitLvalue(e, st).Success? && HasSelf(st.names)
    ensures var r := EmitLvalue(e, st).value;
            Appends(st, [LvalueCode(e, r.names)], r) && IsLvalue(e) && ExprBound(e, r.names)
  {
    SelfSlot(st.names);
    if e.Id? {
      DefineGrows(st.names, e.name);
    }
  }
}
