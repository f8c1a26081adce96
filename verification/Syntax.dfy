/**
 * The expressions and statements that the compiler visits (ast.type). The C lists linked
 * through `next` are lists here too; call arguments, an array in C, are a sequence.
 */
module Syntax {
  import opened Wrappers
  import opened Values

  datatype Literal = IntLiteral(i: Int64) | BoolLiteral(b: bool) | UndefinedLiteral

  function ValueOf(l: Literal): Value {
    match l
    case IntLiteral(i) => Int(i)
    case BoolLiteral(b) => Bool(b)
    case UndefinedLiteral => Undefined
  }

  datatype Expr =
    | Lit(literal: Literal)
    | Self
    | Id(name: string)
    | Group(inner: Expr)
    | Negate(argument: Expr)
    | Prefix(op: UnaryOp, argument: Expr)
    | Postfix(increment: bool, argument: Expr)
    | Assign(lhs: Expr, rhs: Expr)
    | OpAssign(aop: BinaryOp, lhs: Expr, rhs: Expr)
    | Binary(bop: BinaryOp, lhs: Expr, rhs: Expr)
    | And(lhs: Expr, rhs: Expr)
    | Or(lhs: Expr, rhs: Expr)
    | Ternary(test: Expr, consequent: Expr, alternative: Expr)
    | Call(receiver: Option<Expr>, callee: string, arguments: seq<Expr>)

  datatype Stmt =
    | Empty
    | ExprStmt(expression: Expr)
    | Return(value: Option<Expr>)
    | Block(body: Stmts)
    | If(test: Expr, consequent: Stmt, alternative: Option<Stmt>)
    | While(guard: Option<Expr>, loop: Stmt)
    | For(init: Option<Expr>, guard: Option<Expr>, update: Option<Expr>, loop: Stmt)
    | Switch(discriminant: Expr, cases: Cases)
    | Break
    | Continue

  datatype Stmts = Nil | Cons(head: Stmt, tail: Stmts)

  /** A case without a test is `default`. */
  datatype Cases = NoCases | Case(test: Option<Expr>, consequent: Stmts, rest: Cases)

  /** `tolower` on the ASCII letters; variable and function names are compared after it. */
  function LowerChar(c: char): char {
    if 'A' <= c <= 'Z' then c - 'A' + 'a' else c
  }

  function Lower(s: string): (r: string)
    ensures |r| == |s|
  {
    seq(|s|, i requires 0 <= i < |s| => LowerChar(s[i]))
  }

  /** The last `default` of a switch: `default_case` is overwritten at each one. */
  function DefaultBody(cases: Cases): (r: Option<Stmts>)
    ensures r.Some? ==> (cases decreases to r.value)
  {
    match cases
    case NoCases => None
    case Case(test, body, rest) =>
      var later := DefaultBody(rest);
      if later.Some? then later
      else if test.None? then Some(body)
      else None
  }
}
