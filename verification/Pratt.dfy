/** The parser of precedence.c as functions from a position to a tree and the next position. */
module Pratt {
  import opened Wrappers
  import opened Operators
  import opened Trees

  datatype ParseError = UnexpectedToken | ExpectedToken | TooManyArguments | NotModelled

  /** A tree and the position after it. */
  type ParseResult = Result<(Tree, nat), ParseError>

  function Remaining(ts: seq<Token>, i: nat): nat {
    if i < |ts| then |ts| - i else 0
  }

  /** `parse_expression`. */
  function Parse(ts: seq<Token>, i: nat, p: nat): (r: ParseResult)
    ensures r.Success? ==> i < r.value.1 <= |ts|
    decreases Remaining(ts, i), 3
  {
    var (left, j) :- ParseNud(ts, i);
    ParseLoop(ts, left, j, p)
  }

  /** The loop of `parse_expression`: as long as the next operator binds tighter than `p`, apply it. */
  function ParseLoop(ts: seq<Token>, left: Tree, i: nat, p: nat): (r: ParseResult)
    requires i <= |ts|
    ensures r.Success? ==> i <= r.value.1 <= |ts|
    decreases Remaining(ts, i), 2
  {
    if p < Precedence(TokenAt(ts, i)) then
      var (e, j) :- ParseLed(ts, left, i);
      ParseLoop(ts, e, j, p)
    else
      Success((left, i))
  }

  /** `parse_nud`. */
  function ParseNud(ts: seq<Token>, i: nat): (r: ParseResult)
    ensures r.Success? ==> i < r.value.1 <= |ts|
    decreases Remaining(ts, i), 2
  {
    var t := TokenAt(ts, i);
    match OperatorTable(t).nud
    case NoNud => Failure(UnexpectedToken)
    case NudElsewhere => Failure(NotModelled)
    case NudSelf => Success((Leaf(t), i + 1))
    case NudLiteral => if t.Sym? then ParseTagged(ts, i, t.s) else Success((Leaf(t), i + 1))
    case NudUnary =>
      var (a, j) :- Parse(ts, i + 1, Precedence(t));
      Success((Prefix(t.s, a), j))
    case NudGroup => ParseGroup(ts, i + 1)
  }

  /** The literals that start with a symbol. */
  function ParseTagged(ts: seq<Token>, i: nat, tag: Symbol): (r: ParseResult)
    ensures r.Success? ==> i < r.value.1 <= |ts|
  {
    if IsTagged(tag, TokenAt(ts, i + 1)) then Success((Tagged(tag, TokenAt(ts, i + 1)), i + 2))
    else Failure(ExpectedToken)
  }

  /** `advance`: the position after the symbol, which must be there. */
  function Advance(ts: seq<Token>, i: nat, s: Symbol): (r: Result<nat, ParseError>)
    ensures r.Success? ==> r.value == i + 1 && (s != Other ==> i < |ts|)
  {
    if Is(ts, i, s) then Success(i + 1) else Failure(ExpectedToken)
  }

  /** `nud_group`: a group, or a vector of three components. */
  function ParseGroup(ts: seq<Token>, i: nat): (r: ParseResult)
    ensures r.Success? ==> i < r.value.1 <= |ts|
    decreases Remaining(ts, i), 4
  {
    var (x, j) :- Parse(ts, i, 0);
    if Is(ts, j, Comma) then ParseVector(ts, x, j)
    else
      var k :- Advance(ts, j, RightParen);
      Success((Group(x), k))
  }

  function ParseVector(ts: seq<Token>, x: Tree, i: nat): (r: ParseResult)
    ensures r.Success? ==> i < r.value.1 <= |ts|
    decreases Remaining(ts, i), 3
  {
    var i1 :- Advance(ts, i, Comma);
    var (y, j) :- Parse(ts, i1, 0);
    var j1 :- Advance(ts, j, Comma);
    var (z, k) :- Parse(ts, j1, 0);
    var m :- Advance(ts, k, RightParen);
    Success((Vector(x, y, z), m))
  }

  /** `parse_led`, for the operator at `i`. */
  function ParseLed(ts: seq<Token>, left: Tree, i: nat): (r: ParseResult)
    ensures r.Success? ==> i < r.value.1 <= |ts|
    decreases Remaining(ts, i), 1
  {
    var t := TokenAt(ts, i);
    match OperatorTable(t).led
    case NoLed => Failure(UnexpectedToken)
    case LedElsewhere => Failure(NotModelled)
    case LedBinary =>
      var (r, j) :- Parse(ts, i + 1, NextPrecedence(t));
      Success((Binary(left, t.s, r), j))
    case LedAssignment =>
      var (r, j) :- Parse(ts, i + 1, NextPrecedence(t));
      Success((Assignment(left, t.s, r), j))
    case LedUnary => Success((Postfix(left, t.s), i + 1))
    case LedTernary => ParseTernary(ts, left, i + 1)
    case LedMember =>
      if !TokenAt(ts, i + 1).Name? then Failure(ExpectedToken)
      else
        var (x, j) :- Parse(ts, i + 1, NextPrecedence(t));
        Success((Member(left, x), j))
    case LedBracket =>
      if Is(ts, i + 1, LeftBracket) then Failure(NotModelled)
      else
        var (x, j) :- Parse(ts, i + 1, 0);
        var k :- Advance(ts, j, RightBracket);
        Success((Index(left, x), k))
    case LedFunction =>
      var (es, trailing, j) :- ParseArguments(ts, i + 1, 0);
      Success((Call(left, es, trailing), j))
    case LedMemberCall =>
      var j :- Advance(ts, i + 1, LeftParen);
      var (es, trailing, k) :- ParseArguments(ts, j, 0);
      Success((MethodCall(left, t.text, es, trailing), k))
  }

  /** `led_ternary`: both sides are parsed with precedence 0. */
  function ParseTernary(ts: seq<Token>, test: Tree, i: nat): (r: ParseResult)
    ensures r.Success? ==> i < r.value.1 <= |ts|
    decreases Remaining(ts, i), 4
  {
    var (a, j) :- Parse(ts, i, 0);
    var k :- Advance(ts, j, Colon);
    var (b, m) :- Parse(ts, k, 0);
    Success((Ternary(test, a, b), m))
  }

  /** The loop of `call_expression`, after `n` arguments and, if there were any, a comma. */
  function ParseArguments(ts: seq<Token>, i: nat, n: nat): (r: Result<(Trees, bool, nat), ParseError>)
    ensures r.Success? ==> i < r.value.2 <= |ts|
    decreases Remaining(ts, i), 4
  {
    if Is(ts, i, RightParen) then Success((Nil, n > 0, i + 1))
    else
      var (e, j) :- Parse(ts, i, 0);
      if n >= MAX_ARGUMENTS then Failure(TooManyArguments)
      else if Is(ts, j, Comma) then
        var (rest, trailing, k) :- ParseArguments(ts, j + 1, n + 1);
        Success((Cons(e, rest), trailing, k))
      else
        var k :- Advance(ts, j, RightParen);
        Success((Cons(e, Nil), false, k))
  }
}
