/** The slots that compiled code uses are those of its function's local variables. */
module Bounds {
  import opened Wrappers
  import opened Values
  import opened Syntax
  import opened Bytecode
  import opened Emitter
  import opened Pieces
  import opened Patches
  import opened Shapes
  import opened Layout
  import opened Placement
  import opened Statements

  predicate SlotIn(ins: Instruction, n: nat) {
    match ins case LOAD(slot) => slot < n case REF(slot) => slot < n case _ => true
  }

  predicate SlotsIn(code: Code, n: nat) {
    forall i :: 0 <= i < |code| ==> SlotIn(code[i], n)
  }

  lemma SlotsBoth(a: Code, b: Code, n: nat)
    requires SlotsIn(a, n) && SlotsIn(b, n)
    ensures SlotsIn(a + b, n)
  {
  }

  lemma SlotsThree(a: Code, b: Code, c: Code, n: nat)
    requires SlotsIn(a, n) && SlotsIn(b, n) && SlotsIn(c, n)
    ensures SlotsIn(a + b + c, n)
  {
    SlotsBoth(a, b, n);
    SlotsBoth(a + b, c, n);
  }

  // ---- expressions ----

  lemma LvalueSlot(l: Expr, names: seq<string>)
    requires ExprBound(l, names) && IsLvalue(l)
    ensures SlotIn(LvalueCode(l, names), |names|)
  {
    if l.Self? {
      var k :| 0 <= k < |names| && names[k] == "self";
    }
  }

  lemma {:induction false} ExprSlots(e: Expr, names: seq<string>)
    requires ExprBound(e, names)
    ensures SlotsIn(ExprCode(e, names), |names|)
    decreases e, 1
  {
    var n := |names|;
    match e
    case Lit(_) =>
    case Self => SelfSlot(names);
    case Id(_) =>
    case Group(a) => ExprSlots(a, names);
    case Negate(a) => ExprSlots(a, names);
    case Prefix(_, a) => ExprSlots(a, names);
    case Postfix(increment, a) =>
      ExprSlots(a, names);
      LvalueSlot(a, names);
      var c := ExprCode(a, names);
      SlotsThree(c, c, [CONST(true), BINOP(if increment then Add else Sub), LvalueCode(a, names), STORE, POP], n);
    case Assign(l, r) =>
      ExprSlots(r, names);
      LvalueSlot(l, names);
      SlotsBoth(ExprCode(r, names), [LvalueCode(l, names), STORE], n);
    case OpAssign(op, l, r) =>
      ExprSlots(l, names);
      ExprSlots(r, names);
      LvalueSlot(l, names);
      SlotsThree(ExprCode(l, names), ExprCode(r, names), [BINOP(op), LvalueCode(l, names), STORE], n);
    case Binary(op, l, r) =>
      ExprSlots(l, names);
      ExprSlots(r, names);
      SlotsThree(ExprCode(l, names), ExprCode(r, names), [BINOP(op)], n);
    case And(l, r) =>
      ExprSlots(l, names);
      ExprSlots(r, names);
      LogicalSlots(ExprCode(l, names), JZ(0), true, ExprCode(r, names), LogicalAnd, n);
    case Or(l, r) =>
      ExprSlots(l, names);
      ExprSlots(r, names);
      LogicalSlots(ExprCode(l, names), JNZ(0), false, ExprCode(r, names), LogicalOr, n);
    case Ternary(t, a, b) =>
      ExprSlots(t, names);
      ExprSlots(a, names);
      ExprSlots(b, names);
      BranchSlots(ExprCode(t, names), ExprCode(a, names), ExprCode(b, names), n);
    case Call(receiver, callee, arguments) =>
      ArgumentsSlots(arguments, names);
      match receiver {
        case Some(r) => ExprSlots(r, names);
        case None => SelfSlot(names);
      }
      SlotsThree(ArgumentsCode(arguments, names), ReceiverCode(receiver, names),
                 [PUSH(PushCount(|arguments|)), CALL(callee, |arguments|, receiver.Some?)], n);
  }

  lemma SelfSlot(names: seq<string>)
    requires "self" in names
    ensures SlotsIn([LOAD(0)], |names|)
  {
    var k :| 0 <= k < |names| && names[k] == "self";
  }

  lemma LogicalSlots(l: Code, jump: Instruction, one: bool, r: Code, op: BinaryOp, n: nat)
    requires SlotsIn(l, n) && SlotsIn(r, n) && (jump.JZ? || jump.JNZ?)
    ensures SlotsIn(LogicalCode(l, jump, one, r, op), n)
  {
    SlotsThree(l, [TEST, jump.WithRel(|r| + 3), CONST(one)], r, n);
    SlotsBoth(l + [TEST, jump.WithRel(|r| + 3), CONST(one)] + r, [BINOP(op), JMP(1), CONST(!one)], n);
  }

  lemma BranchSlots(t: Code, a: Code, b: Code, n: nat)
    requires SlotsIn(t, n) && SlotsIn(a, n) && SlotsIn(b, n)
    ensures SlotsIn(BranchCode(t, a, b), n)
  {
    SlotsThree(t, [TEST, JZ(|a| + 1)], a, n);
    SlotsThree(t + [TEST, JZ(|a| + 1)] + a, [JMP(|b|)], b, n);
  }

  lemma {:induction false} ArgumentsSlots(es: seq<Expr>, names: seq<string>)
    requires ExprsBound(es, names)
    ensures SlotsIn(ArgumentsCode(es, names), |names|)
    decreases es, 0
  {
    if es != [] {
      ArgumentsSlots(es[1..], names);
      ExprSlots(es[0], names);
      SlotsBoth(ArgumentsCode(es[1..], names), ExprCode(es[0], names), |names|);
    }
  }

  // ---- statements ----

  predicate PieceSlots(p: Piece, n: nat) {
    match p
    case Fixed(code) => SlotsIn(code, n)
    case Then(a, b) => PieceSlots(a, n) && PieceSlots(b, n)
    case Leave(_) => true
    case Scoped(_, _, body) => PieceSlots(body, n)
  }

  lemma {:induction false} RenderSlots(p: Piece, brk: Target, cont: Target, n: nat)
    requires PieceSlots(p, n)
    ensures SlotsIn(Render(p, brk, cont), n)
    decreases p
  {
    match p
    case Then(a, b) =>
      RenderSlots(a, brk, cont, n);
      RenderSlots(b, Skip(brk, Size(a)), Skip(cont, Size(a)), n);
    case Scoped(scope, at, body) =>
      var end: int, next: int := Size(body), at;
      RenderSlots(body, if scope.allowsBreak then Some(end) else brk, if scope.allowsContinue then Some(next) else cont, n);
    case _ =>
  }

  lemma OptionSlots(e: Option<Expr>, names: seq<string>)
    requires OptionBound(e, names)
    ensures SlotsIn(GuardCode(e, names), |names|) && SlotsIn(DiscardedCode(e, names), |names|)
  {
    if e.Some? {
      ExprSlots(e.value, names);
      SlotsBoth(ExprCode(e.value, names), [POP], |names|);
    }
  }

  lemma {:induction false} StmtSlots(s: Stmt, names: seq<string>)
    requires StmtBound(s, names)
    ensures PieceSlots(StmtPiece(s, names), |names|)
    decreases s, 1
  {
    var n := |names|;
    match s
    case Empty =>
    case ExprStmt(e) => OptionSlots(Some(e), names);
    case Return(value) =>
      OptionSlots(value, names);
      SlotsBoth(match value case Some(e) => ExprCode(e, names) case None => [UNDEF], [RET], n);
    case Block(body) => StmtsSlots(body, names);
    case If(t, a, b) =>
      ExprSlots(t, names);
      StmtSlots(a, names);
      TestSlots(ExprCode(t, names), n);
      if b.Some? {
        StmtSlots(b.value, names);
        ElseSlots(StmtPiece(a, names), StmtPiece(b.value, names), n);
      }
    case While(guard, loop) =>
      OptionSlots(guard, names);
      StmtSlots(loop, names);
      LoopSlots(GuardCode(guard, names), StmtPiece(loop, names), [], n);
    case For(init, guard, update, loop) =>
      OptionSlots(init, names);
      OptionSlots(guard, names);
      OptionSlots(update, names);
      StmtSlots(loop, names);
      LoopSlots(GuardCode(guard, names), StmtPiece(loop, names), DiscardedCode(update, names), n);
    case Switch(d, cases) =>
      CasesSlots(d, cases, names);
      DefaultSlots(cases, names);
      SwitchSlots(ArmsOf(d, cases, names), DefaultPiece(cases, names), n);
    case Break =>
    case Continue =>
  }

  lemma TestSlots(t: Code, n: nat)
    requires SlotsIn(t, n)
    ensures forall rel :: SlotsIn(t + [TEST, JZ(rel)], n)
  {
    forall rel ensures SlotsIn(t + [TEST, JZ(rel)], n) {
      SlotsBoth(t, [TEST, JZ(rel)], n);
    }
  }

  lemma ElseSlots(a: Piece, b: Piece, n: nat)
    requires PieceSlots(a, n) && PieceSlots(b, n)
    ensures PieceSlots(Then(a, Then(Fixed([JMP(Size(b))]), b)), n)
  {
    assert PieceSlots(Then(Fixed([JMP(Size(b))]), b), n);
  }

  lemma LoopSlots(g: Code, body: Piece, u: Code, n: nat)
    requires SlotsIn(g, n) && PieceSlots(body, n) && SlotsIn(u, n)
    ensures PieceSlots(LoopPiece(g, body, u), n)
  {
    var rel := -(|g| + 2 + Size(body) + |u|) - 1;
    TestSlots(g, n);
    SlotsBoth(u, [JMP(rel)], n);
    assert PieceSlots(Then(body, Fixed(u + [JMP(rel)])), n);
  }

  lemma {:induction false} StmtsSlots(ss: Stmts, names: seq<string>)
    requires StmtsBound(ss, names)
    ensures PieceSlots(StmtsPiece(ss, names), |names|)
    decreases ss, 0
  {
    if ss.Cons? {
      StmtSlots(ss.head, names);
      StmtsSlots(ss.tail, names);
    }
  }

  predicate ArmsSlots(arms: Arms, n: nat) {
    match arms case NoArms => true case Arm(test, body, rest) => SlotsIn(test, n) && PieceSlots(body, n) && ArmsSlots(rest, n)
  }

  lemma {:induction false} CasesSlots(d: Expr, cases: Cases, names: seq<string>)
    requires CasesBound(d, cases, names)
    ensures ArmsSlots(ArmsOf(d, cases, names), |names|)
    decreases cases, 0
  {
    if cases.Case? {
      CasesSlots(d, cases.rest, names);
      if cases.test.Some? {
        ExprSlots(d, names);
        ExprSlots(cases.test.value, names);
        SlotsThree(ExprCode(d, names), ExprCode(cases.test.value, names), [BINOP(Equal), TEST], |names|);
        StmtsSlots(cases.consequent, names);
      }
    }
  }

  lemma {:induction false} DefaultSlots(cases: Cases, names: seq<string>)
    requires DefaultBound(cases, names)
    ensures PieceSlots(DefaultOrNothing(DefaultPiece(cases, names)), |names|)
    decreases cases, 1
  {
    if DefaultBody(cases).Some? {
      StmtsSlots(DefaultBody(cases).value, names);
    }
  }

  lemma {:induction false} TestsSlots(arms: Arms, d: int, n: nat)
    requires ArmsSlots(arms, n)
    ensures SlotsIn(TestsCode(arms, d), n)
    decreases arms
  {
    if arms.Arm? {
      var k := |arms.test| + 1;
      TestsSlots(arms.rest, d - k + Size(arms.body), n);
      SlotsThree(arms.test, [JNZ(d - k)], TestsCode(arms.rest, d - k + Size(arms.body)), n);
    }
  }

  lemma {:induction false} BodiesSlots(arms: Arms, n: nat)
    requires ArmsSlots(arms, n)
    ensures PieceSlots(BodiesPiece(arms), n)
    decreases arms
  {
    if arms.Arm? {
      BodiesSlots(arms.rest, n);
    }
  }

  lemma SwitchSlots(arms: Arms, default: Option<Piece>, n: nat)
    requires ArmsSlots(arms, n) && PieceSlots(DefaultOrNothing(default), n)
    ensures PieceSlots(SwitchPiece(arms, default), n)
  {
    var j := DefaultJump(arms, default);
    var d := TestsSize(arms) + |j|;
    TestsSlots(arms, d, n);
    SlotsBoth(TestsCode(arms, d), j, n);
    BodiesSlots(arms, n);
    assert PieceSlots(Then(BodiesPiece(arms), DefaultOrNothing(default)), n);
  }

  // ---- after back-patching ----

  lemma PatchedSlots(p: Piece, c: Code, j: Pending, n: nat)
    requires Patched(p, c, j) && PieceSlots(p, n)
    ensures SlotsIn(Sweep(c), n)
  {
    RenderSlots(p, None, None, n);
    forall q | 0 <= q < |c| ensures SlotIn(Sweep(c)[q], n) {
      if IsLeaf(p, 0, q) {
        assert Settled(c, j, q, t => IsStop(p, 0, t));
      } else {
        assert c[q] == Render(p, None, None)[q];
      }
    }
  }
}
