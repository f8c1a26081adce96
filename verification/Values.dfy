/** Script values and the arithmetic of `binop` and `unary` (vm.c), without floats, strings and objects. */
module Values {
  import opened Wrappers

  const TWO_32 := 0x1_0000_0000
  const TWO_63 := 0x8000_0000_0000_0000
  const TWO_64 := 0x1_0000_0000_0000_0000

  type Int64 = x: int | -TWO_63 <= x < TWO_63 witness 0

  /** `Ref` is a pointer to a local variable: the frame it lives in and its slot there. */
  datatype Value =
    | Undefined
    | Int(i: Int64)
    | Bool(b: bool)
    | Ref(frame: nat, slot: nat)

  /** Why `vm_error` is called, or why the C program's behaviour is undefined. */
  datatype Fault =
    | TypeFault
    | ArithmeticFault
    | NoFunction
    | StackOverflow
    | FrameOverflow
    | LocalsOverflow
    | StackUnderflow
    | BadLocal
    | BadReference
    | BadOperand
    | IpOutOfBounds
  {
    /** The faults that come from a fixed-size buffer of the machine. */
    predicate IsLimit() {
      StackOverflow? || FrameOverflow? || LocalsOverflow?
    }
  }

  datatype BinaryOp =
    | Add | Sub | Mul | Div | Mod
    | ShiftLeft | ShiftRight
    | BitAnd | BitOr | BitXor
    | Less | LessEqual | Greater | GreaterEqual
    | Equal | NotEqual
    | LogicalAnd | LogicalOr

  datatype UnaryOp = Not | BitNot

  /** Two's complement wrap-around of a 64-bit result. */
  function Wrap(x: int): Int64 {
    (x + TWO_63) % TWO_64 - TWO_63
  }

  function PowerOfTwo(n: nat): nat {
    if n == 0 then 1 else 2 * PowerOfTwo(n - 1)
  }

  lemma PowerOfTwoPositive(n: nat)
    ensures PowerOfTwo(n) >= 1
  {
  }

  /** C division: truncation toward zero. */
  function TruncatedDiv(a: int, b: int): int
    requires b != 0
  {
    if a >= 0 then a / b else -(-a / b)
  }

  /** C remainder: it has the sign of the dividend. */
  function TruncatedMod(a: int, b: int): int
    requires b != 0
  {
    a - TruncatedDiv(a, b) * b
  }

  /** The lowest bits of two words, combined bit by bit. `/` rounds down, as a shift of two's complement does. */
  function Bitwise(f: (bool, bool) -> bool, a: int, b: int, bits: nat): nat
    decreases bits
  {
    if bits == 0 then 0
    else (if f(a % 2 == 1, b % 2 == 1) then 1 else 0) + 2 * Bitwise(f, a / 2, b / 2, bits - 1)
  }

  function IntOf(b: bool): Int64 {
    if b then 1 else 0
  }

  /** `coerce_int`, restricted to the modelled values. */
  function CoerceInt(v: Value): Option<Int64> {
    match v
    case Int(i) => Some(i)
    case Bool(b) => Some(IntOf(b))
    case _ => None
  }

  /** The VAR_INTEGER branch of `binop`. Where C leaves the result undefined there is a fault. */
  function IntegerBinop(op: BinaryOp, a: Int64, b: Int64): Result<Value, Fault> {
    match op
    case Add => Success(Int(Wrap(a + b)))
    case Sub => Success(Int(Wrap(a - b)))
    case Mul => Success(Int(Wrap(a * b)))
    case Div =>
      if b == 0 then Success(Int(0))
      else if a == -TWO_63 && b == -1 then Failure(ArithmeticFault)
      else Success(Int(Wrap(TruncatedDiv(a, b))))
    case Mod =>
      if b == 0 || (a == -TWO_63 && b == -1) then Failure(ArithmeticFault)
      else Success(Int(Wrap(TruncatedMod(a, b))))
    case ShiftLeft =>
      if 0 <= b < 64 then Success(Int(Wrap(a * PowerOfTwo(b)))) else Failure(ArithmeticFault)
    case ShiftRight =>
      if 0 <= b < 64 then
        PowerOfTwoPositive(b);
        Success(Int(Wrap(a / PowerOfTwo(b))))
      else
        Failure(ArithmeticFault)
    case BitAnd => Success(Int(Wrap(Bitwise((x, y) => x && y, a, b, 64))))
    case BitOr => Success(Int(Wrap(Bitwise((x, y) => x || y, a, b, 64))))
    case BitXor => Success(Int(Wrap(Bitwise((x, y) => x != y, a, b, 64))))
    case Less => Success(Bool(a < b))
    case LessEqual => Success(Bool(a <= b))
    case Greater => Success(Bool(a > b))
    case GreaterEqual => Success(Bool(a >= b))
    case Equal => Success(Bool(a == b))
    case NotEqual => Success(Bool(a != b))
    case LogicalAnd => Success(Bool(a != 0 && b != 0))
    case LogicalOr => Success(Bool(a != 0 || b != 0))
  }

  /** `binop` with its `promote_type`. */
  function Binop(op: BinaryOp, a: Value, b: Value): Result<Value, Fault> {
    if a.Undefined? || b.Undefined? then
      match op
      case Equal => Success(Bool(a == b))
      case NotEqual => Success(Bool(a != b))
      case _ => Failure(TypeFault)
    else if a.Ref? && b.Ref? then
      match op
      case Equal => Success(Bool(a == b))
      case NotEqual => Success(Bool(a != b))
      case _ => Failure(TypeFault)
    else if a.Ref? || b.Ref? then
      Failure(TypeFault)
    else
      IntegerBinop(op, CoerceInt(a).value, CoerceInt(b).value)
  }

  function Unary(op: UnaryOp, v: Value): Result<Value, Fault> {
    match (op, v)
    case (Not, Undefined) => Success(Bool(true))
    case (Not, Bool(b)) => Success(Bool(!b))
    case (Not, Int(i)) => Success(Int(IntOf(i == 0)))
    case (BitNot, Int(i)) => Success(Int(Wrap(-1 - i)))
    case _ => Failure(TypeFault)
  }

  /** OP_TEST: `pop_int` stored into an `int`, so only the low 32 bits of an integer are looked at. */
  function Test(v: Value): Result<bool, Fault> {
    match v
    case Int(i) => Success(i % TWO_32 != 0)
    case Bool(b) => Success(b)
    case _ => Failure(TypeFault)
  }

  /**
   * A condition is taken as C would take the 64-bit integer exactly when the integer is
   * not a nonzero multiple of 2^32.
   */
  lemma TestIsNonzero(i: Int64)
    ensures Test(Int(i)) == Success(i != 0) <==> (i == 0 || i % TWO_32 != 0)
  {
  }
}
