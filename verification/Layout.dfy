/**
 * The code a program is meant to have, written without back-patching: every break and
 * continue is told where it goes. Offsets are relative to the first instruction of the
 * piece of code at hand, so a layout does not depend on where it is placed, and slots are
 * looked up in the final list of names, so it does not depend on the order of allocation.
 */
module Layout {
  import opened Wrappers
  import opened Values
  import opened Syntax
  import opened Bytecode
  import opened Emitter
  import opened Pieces
  import opened Shapes

  // ---- expressions ----

  function ExprCode(e: Expr, names: seq<string>): Code
    decreases e, 1
  {
    match e
    case Lit(l) => [PUSH(l)]
    case Self => [LOAD(0)]
    case Id(x) => [LOAD(Slot(names, x))]
    case Group(inner) => ExprCode(inner, names)
    case Negate(a) => ExprCode(a, names) + [CONST(false), BINOP(Sub)]
    case Prefix(op, a) => ExprCode(a, names) + [UNARY(op)]
    case Postfix(increment, a) =>
      ExprCode(a, names) + ExprCode(a, names) +
      [CONST(true), BINOP(if increment then Add else Sub), LvalueCode(a, names), STORE, POP]
    case Assign(l, r) => ExprCode(r, names) + [LvalueCode(l, names), STORE]
    case OpAssign(op, l, r) =>
      ExprCode(l, names) + ExprCode(r, names) + [BINOP(op), LvalueCode(l, names), STORE]
    case Binary(op, l, r) => ExprCode(l, names) + ExprCode(r, names) + [BINOP(op)]
    case And(l, r) => LogicalCode(ExprCode(l, names), JZ(0), true, ExprCode(r, names), LogicalAnd)
    case Or(l, r) => LogicalCode(ExprCode(l, names), JNZ(0), false, ExprCode(r, names), LogicalOr)
    case Ternary(t, a, b) =>
      BranchCode(ExprCode(t, names), ExprCode(a, names), ExprCode(b, names))
    case Call(receiver, callee, arguments) =>
      ArgumentsCode(arguments, names) + ReceiverCode(receiver, names) +
      [PUSH(PushCount(|arguments|)), CALL(callee, |arguments|, receiver.Some?)]
  }

  function ReceiverCode(receiver: Option<Expr>, names: seq<string>): Code
    decreases receiver, 1
  {
    match receiver case Some(e) => ExprCode(e, names) case None => [LOAD(0)]
  }

  function ArgumentsCode(es: seq<Expr>, names: seq<string>): Code
    decreases es, 0
  {
    if es == [] then [] else ArgumentsCode(es[1..], names) + ExprCode(es[0], names)
  }

  function LvalueCode(e: Expr, names: seq<string>): Instruction {
    match e
    case Id(x) => REF(Slot(names, x))
    case _ => REF(0)
  }

  /** `&&` and `||`. */
  function LogicalCode(l: Code, jump: Instruction, one: bool, r: Code, op: BinaryOp): Code {
    l + [TEST, jump.WithRel(|r| + 3), CONST(one)] + r + [BINOP(op), JMP(1), CONST(!one)]
  }

  /** Test, consequent, alternative: both for `if` with `else` and for `?:`. */
  function BranchCode(t: Code, a: Code, b: Code): Code {
    t + [TEST, JZ(|a| + 1)] + a + [JMP(|b|)] + b
  }

  // ---- statements ----

  function GuardCode(guard: Option<Expr>, names: seq<string>): Code {
    match guard case Some(e) => ExprCode(e, names) case None => [CONST(true)]
  }

  function DiscardedCode(e: Option<Expr>, names: seq<string>): Code {
    match e case Some(e) => ExprCode(e, names) + [POP] case None => []
  }

  /** The skeleton of a statement under the final list of names. */
  function StmtPiece(s: Stmt, names: seq<string>): Piece
    decreases s, 1
  {
    match s
    case Empty => Fixed([])
    case ExprStmt(e) => Fixed(ExprCode(e, names) + [POP])
    case Return(value) => Fixed((match value case Some(e) => ExprCode(e, names) case None => [UNDEF]) + [RET])
    case Block(body) => StmtsPiece(body, names)
    case If(t, a, b) =>
      var ap := StmtPiece(a, names);
      (match b
       case None => Then(Fixed(ExprCode(t, names) + [TEST, JZ(Size(ap))]), ap)
       case Some(b) =>
         var bp := StmtPiece(b, names);
         Then(Fixed(ExprCode(t, names) + [TEST, JZ(Size(ap) + 1)]), Then(ap, Then(Fixed([JMP(Size(bp))]), bp))))
    case While(guard, loop) => LoopPiece(GuardCode(guard, names), StmtPiece(loop, names), [])
    case For(init, guard, update, loop) =>
      Then(Fixed(DiscardedCode(init, names)),
           LoopPiece(GuardCode(guard, names), StmtPiece(loop, names), DiscardedCode(update, names)))
    case Switch(d, cases) => SwitchPiece(ArmsOf(d, cases, names), DefaultPiece(cases, names))
    case Break => Leave(BreakJump)
    case Continue => Leave(ContinueJump)
  }

  function StmtsPiece(ss: Stmts, names: seq<string>): Piece
    decreases ss, 0
  {
    match ss
    case Nil => Fixed([])
    case Cons(s, rest) => Then(StmtPiece(s, names), StmtsPiece(rest, names))
  }

  /** The cases that have a test, in order. */
  function ArmsOf(d: Expr, cases: Cases, names: seq<string>): Arms
    decreases cases, 0
  {
    match cases
    case NoCases => NoArms
    case Case(test, body, rest) =>
      if test.None? then ArmsOf(d, rest, names)
      else Arm(TestCode(d, test.value, names), StmtsPiece(body, names), ArmsOf(d, rest, names))
  }

  function DefaultPiece(cases: Cases, names: seq<string>): Option<Piece>
    decreases cases, 1
  {
    match DefaultBody(cases) case None => None case Some(body) => Some(StmtsPiece(body, names))
  }

  /** Compare the discriminant with one label. */
  function TestCode(disc: Expr, test: Expr, names: seq<string>): Code {
    ExprCode(disc, names) + ExprCode(test, names) + [BINOP(Equal), TEST]
  }
}
