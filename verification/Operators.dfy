/** The tokens of expressions, and the operator table of precedence.c as data. */
module Operators {

  /** Tokens without text. `Other` is any token that the table does not list, the end of the file included. */
  datatype Symbol =
    | Plus | Minus | Multiply | Divide | Modulo
    | LShift | RShift | Less | LEqual | Greater | GEqual | Equals | NEqual
    | LogicalAnd | LogicalOr | BitwiseAnd | BitwiseOr | BitwiseXor
    | Assign | DivAssign | MulAssign | ModAssign | LShiftAssign | RShiftAssign
    | XorAssign | OrAssign | AndAssign | PlusAssign | MinusAssign
    | Question | Colon | Comma | Dot
    | LeftParen | RightParen | LeftBracket | RightBracket | LeftBrace
    | Increment | Decrement | Bang | Tilde
    | ScopeResolution | Hash | Thread | FileReference
    | Other

  datatype Token =
    | Name(text: string)
    | Text(text: string)
    | Integer(value: int)
    | Number(digits: string)
    | SelfWord | TrueWord | FalseWord | UndefinedWord | NullWord
    | Sym(s: Symbol)

  /** The function that parses a token in prefix position. */
  datatype Nud = NoNud | NudLiteral | NudSelf | NudUnary | NudGroup | NudElsewhere

  /** The function that parses a token after a complete expression. */
  datatype Led =
    | NoLed | LedBinary | LedAssignment | LedTernary | LedUnary
    | LedFunction | LedBracket | LedMember | LedMemberCall | LedElsewhere

  datatype Row = Row(precedence: nat, rightAssociative: bool, nud: Nud, led: Led)

  /** `operator_table`. `NudElsewhere` and `LedElsewhere` are functions that are not modelled. */
  function OperatorTable(t: Token): Row {
    match t
    case Name(_) => Row(80, false, NudLiteral, LedMemberCall)
    case Text(_) => Row(0, false, NudLiteral, NoLed)
    case Integer(_) => Row(0, false, NudLiteral, NoLed)
    case Number(_) => Row(0, false, NudLiteral, NoLed)
    case SelfWord => Row(80, false, NudSelf, NoLed)
    case TrueWord => Row(0, false, NudLiteral, NoLed)
    case FalseWord => Row(0, false, NudLiteral, NoLed)
    case UndefinedWord => Row(0, false, NudLiteral, NoLed)
    case NullWord => Row(0, false, NudLiteral, NoLed)
    case Sym(s) => SymbolRow(s)
  }

  function SymbolRow(s: Symbol): Row {
    match s
    case Hash => Row(0, false, NudElsewhere, NoLed)
    case Plus => Row(50, false, NudUnary, LedBinary)
    case Minus => Row(50, false, NudUnary, LedBinary)
    case Multiply => Row(60, false, NoNud, LedBinary)
    case Divide => Row(60, false, NoNud, LedBinary)
    case Modulo => Row(60, false, NudLiteral, LedBinary)
    case LShift => Row(40, false, NoNud, LedBinary)
    case RShift => Row(40, false, NoNud, LedBinary)
    case Less => Row(40, false, NoNud, LedBinary)
    case LEqual => Row(40, false, NoNud, LedBinary)
    case Greater => Row(40, false, NoNud, LedBinary)
    case GEqual => Row(40, false, NoNud, LedBinary)
    case Equals => Row(40, false, NoNud, LedBinary)
    case NEqual => Row(40, false, NoNud, LedBinary)
    case LogicalAnd => Row(30, false, NoNud, LedBinary)
    case LogicalOr => Row(30, false, NoNud, LedBinary)
    case BitwiseAnd => Row(40, false, NudLiteral, LedBinary)
    case BitwiseOr => Row(40, false, NoNud, LedBinary)
    case BitwiseXor => Row(40, false, NoNud, LedBinary)
    case Assign => Row(10, true, NoNud, LedAssignment)
    case DivAssign => Row(10, true, NoNud, LedAssignment)
    case MulAssign => Row(10, true, NoNud, LedAssignment)
    case ModAssign => Row(10, true, NoNud, LedAssignment)
    case LShiftAssign => Row(10, true, NoNud, LedAssignment)
    case RShiftAssign => Row(10, true, NoNud, LedAssignment)
    case XorAssign => Row(10, true, NoNud, LedAssignment)
    case OrAssign => Row(10, true, NoNud, LedAssignment)
    case AndAssign => Row(10, true, NoNud, LedAssignment)
    case PlusAssign => Row(10, true, NoNud, LedAssignment)
    case MinusAssign => Row(10, true, NoNud, LedAssignment)
    case Question => Row(20, true, NoNud, LedTernary)
    case LeftParen => Row(80, false, NudGroup, LedFunction)
    case LeftBracket => Row(80, false, NudElsewhere, LedBracket)
    case LeftBrace => Row(80, false, NudElsewhere, NoLed)
    case Dot => Row(80, false, NoNud, LedMember)
    case Increment => Row(80, false, NoNud, LedUnary)
    case Decrement => Row(80, false, NoNud, LedUnary)
    case Bang => Row(70, true, NudUnary, NoLed)
    case Tilde => Row(70, true, NudUnary, NoLed)
    case ScopeResolution => Row(0, false, NudLiteral, NoLed)
    case Thread => Row(80, false, NudElsewhere, LedElsewhere)
    case FileReference => Row(80, false, NudElsewhere, LedElsewhere)
    case _ => Row(0, false, NoNud, NoLed)
  }

  function Precedence(t: Token): nat {
    OperatorTable(t).precedence
  }

  /** The precedence that the operand after a led operator is parsed with. */
  function NextPrecedence(t: Token): nat {
    var row := OperatorTable(t);
    if row.rightAssociative then row.precedence - 1 else row.precedence
  }

  /** The stream of tokens; past its end there is only `Other`. */
  function TokenAt(ts: seq<Token>, i: nat): Token {
    if i < |ts| then ts[i] else Sym(Other)
  }
}
