/**
 * The parser as precedence.c has it: one current token, which `lexer_step` replaces by the next
 * one, and a loop that overwrites the expression read so far. Each method is proved to do what
 * the functions of Pratt.dfy say.
 */
module ExpressionParser {
  import opened Wrappers
  import opened Operators
  import opened Trees
  import opened Pratt

  class Parser {
    const tokens: seq<Token>
    /** Where `token` stands. */
    var position: nat
    /** `parser->token`. */
    var token: Token

    ghost predicate Valid()
      reads this
    {
      token == TokenAt(tokens, position)
    }

    constructor (tokens: seq<Token>)
      ensures Valid() && position == 0 && this.tokens == tokens
    {
      this.tokens := tokens;
      position, token := 0, TokenAt(tokens, 0);
    }

    /** The outcome of a method is that of the function, and so is the position it leaves. */
    ghost predicate Did(r: Result<Tree, ParseError>, f: ParseResult)
      reads this
    {
      Valid() && match f
      case Success((e, j)) => r == Success(e) && position == j
      case Failure(x) => r == Failure(x)
    }

    /** `lexer_step`. */
    method LexerStep()
      requires Valid()
      modifies this
      ensures Valid() && position == old(position) + 1
    {
      position := position + 1;
      token := TokenAt(tokens, position);
    }

    /** `advance`. */
    method Advance(s: Symbol) returns (o: Outcome<ParseError>)
      requires Valid()
      modifies this
      ensures Valid()
      ensures match Pratt.Advance(tokens, old(position), s)
              case Success(j) => o.Pass? && position == j
              case Failure(x) => o == Fail(x) && position == old(position)
    {
      if token != Sym(s) {
        return Fail(ExpectedToken);
      }
      LexerStep();
      return Pass;
    }

    /** `parse_expression`. */
    method ParseExpression(precedence: nat) returns (r: Result<Tree, ParseError>)
      requires Valid()
      modifies this
      ensures Did(r, Parse(tokens, old(position), precedence))
      decreases Remaining(tokens, position), 3
    {
      ghost var i := position;
      var t := token;
      LexerStep();
      var left :- NullDenotation(t, i);
      ghost var j := position;
      while precedence < Precedence(token)
        invariant Valid() && i < position <= |tokens|
        invariant Parse(tokens, i, precedence) == ParseLoop(tokens, left, position, precedence)
        decreases Remaining(tokens, position)
      {
        ghost var k := position;
        t := token;
        LexerStep();
        left :- LeftDenotation(left, t, k);
      }
      return Success(left);
    }

    /** `parse_nud`, after the token `t` at `i` has been stepped over. */
    method NullDenotation(t: Token, ghost i: nat) returns (r: Result<Tree, ParseError>)
      requires Valid() && position == i + 1 && t == TokenAt(tokens, i)
      modifies this
      ensures Did(r, ParseNud(tokens, i))
      decreases Remaining(tokens, i), 2
    {
      match OperatorTable(t).nud
      case NoNud => r := Failure(UnexpectedToken);
      case NudElsewhere => r := Failure(NotModelled);
      case NudSelf => r := Success(Leaf(t));
      case NudLiteral => r := NudLiteral(t, i);
      case NudUnary =>
        var a :- ParseExpression(Precedence(t));
        r := Success(Prefix(t.s, a));
      case NudGroup => r := NudGroup();
    }

    /** `nud_literal`: a token, or a symbol and the token that belongs to it. */
    method NudLiteral(t: Token, ghost i: nat) returns (r: Result<Tree, ParseError>)
      requires Valid() && position == i + 1 && t == TokenAt(tokens, i) && OperatorTable(t).nud == Nud.NudLiteral
      modifies this
      ensures Did(r, ParseNud(tokens, i))
    {
      if !t.Sym? {
        return Success(Leaf(t));
      }
      var next := token;
      if !IsTagged(t.s, next) {
        return Failure(ExpectedToken);
      }
      LexerStep();
      return Success(Tagged(t.s, next));
    }

    /** `nud_group`, after the parenthesis. */
    method NudGroup() returns (r: Result<Tree, ParseError>)
      requires Valid()
      modifies this
      ensures Did(r, ParseGroup(tokens, old(position)))
      decreases Remaining(tokens, position), 4
    {
      var x :- ParseExpression(0);
      if token == Sym(Comma) {
        r := VectorRest(x);
        return;
      }
      var o := Advance(RightParen);
      if o.Fail? {
        return Failure(o.error);
      }
      return Success(Group(x));
    }

    /** The second and third component of a vector. */
    method VectorRest(x: Tree) returns (r: Result<Tree, ParseError>)
      requires Valid()
      modifies this
      ensures Did(r, ParseVector(tokens, x, old(position)))
      decreases Remaining(tokens, position), 3
    {
      var o := Advance(Comma);
      if o.Fail? {
        return Failure(o.error);
      }
      var y :- ParseExpression(0);
      o := Advance(Comma);
      if o.Fail? {
        return Failure(o.error);
      }
      var z :- ParseExpression(0);
      o := Advance(RightParen);
      if o.Fail? {
        return Failure(o.error);
      }
      return Success(Vector(x, y, z));
    }

    /** `parse_led`, after the operator `t` at `i` has been stepped over. */
    method LeftDenotation(left: Tree, t: Token, ghost i: nat) returns (r: Result<Tree, ParseError>)
      requires Valid() && position == i + 1 && t == TokenAt(tokens, i)
      modifies this
      ensures Did(r, ParseLed(tokens, left, i))
      decreases Remaining(tokens, i), 1
    {
      match OperatorTable(t).led
      case NoLed => r := Failure(UnexpectedToken);
      case LedElsewhere => r := Failure(NotModelled);
      case LedBinary =>
        var e :- ParseExpression(NextPrecedence(t));
        r := Success(Binary(left, t.s, e));
      case LedAssignment =>
        var e :- ParseExpression(NextPrecedence(t));
        r := Success(Assignment(left, t.s, e));
      case LedUnary => r := Success(Postfix(left, t.s));
      case LedTernary => r := LedTernary(left);
      case LedMember =>
        if !token.Name? {
          return Failure(ExpectedToken);
        }
        var x :- ParseExpression(NextPrecedence(t));
        r := Success(Member(left, x));
      case LedBracket => r := LedBracket(left, i);
      case LedFunction =>
        var es :- CallExpression();
        r := Success(Call(left, es.0, es.1));
      case LedMemberCall => r := LedMemberCall(left, t, i);
    }

    method LedTernary(test: Tree) returns (r: Result<Tree, ParseError>)
      requires Valid()
      modifies this
      ensures Did(r, ParseTernary(tokens, test, old(position)))
      decreases Remaining(tokens, position), 4
    {
      var a :- ParseExpression(0);
      var o := Advance(Colon);
      if o.Fail? {
        return Failure(o.error);
      }
      var b :- ParseExpression(0);
      return Success(Ternary(test, a, b));
    }

    method LedBracket(left: Tree, ghost i: nat) returns (r: Result<Tree, ParseError>)
      requires Valid() && position == i + 1 && TokenAt(tokens, i) == Sym(LeftBracket)
      modifies this
      ensures Did(r, ParseLed(tokens, left, i))
      decreases Remaining(tokens, i), 0
    {
      if token == Sym(LeftBracket) {
        return Failure(NotModelled);
      }
      var x :- ParseExpression(0);
      var o := Advance(RightBracket);
      if o.Fail? {
        return Failure(o.error);
      }
      return Success(Index(left, x));
    }

    method LedMemberCall(left: Tree, t: Token, ghost i: nat) returns (r: Result<Tree, ParseError>)
      requires Valid() && position == i + 1 && t == TokenAt(tokens, i) && t.Name?
      modifies this
      ensures Did(r, ParseLed(tokens, left, i))
      decreases Remaining(tokens, i), 0
    {
      var o := Advance(LeftParen);
      if o.Fail? {
        return Failure(o.error);
      }
      var es :- CallExpression();
      return Success(MethodCall(left, t.text, es.0, es.1));
    }

    ghost predicate Collected(r: Result<(Trees, bool), ParseError>, f: Result<(Trees, bool, nat), ParseError>)
      reads this
    {
      Valid() && match f
      case Success((es, trailing, j)) => r == Success((es, trailing)) && position == j
      case Failure(x) => r == Failure(x)
    }

    /** Trees in a row, and then those of the rest. */
    static function Onto(args: seq<Tree>, rest: Trees): (es: Trees) {
      if args == [] then rest else Onto(args[..|args| - 1], Cons(args[|args| - 1], rest))
    }

    static ghost function After(args: seq<Tree>, f: Result<(Trees, bool, nat), ParseError>)
      : Result<(Trees, bool, nat), ParseError>
    {
      match f case Success((es, trailing, j)) => Success((Onto(args, es), trailing, j)) case Failure(x) => Failure(x)
    }

    static lemma OntoMore(args: seq<Tree>, e: Tree, rest: Trees)
      ensures Onto(args + [e], rest) == Onto(args, Cons(e, rest))
    {
      assert (args + [e])[..|args|] == args;
    }

    /** The arguments of `call_expression`, after the parenthesis. */
    method CallExpression() returns (r: Result<(Trees, bool), ParseError>)
      requires Valid()
      modifies this
      ensures Collected(r, ParseArguments(tokens, old(position), 0))
      decreases Remaining(tokens, position), 4
    {
      ghost var i := position;
      var args, trailing := [], false;
      while token != Sym(RightParen)
        invariant Valid() && i <= position && trailing == (args != [])
        invariant ParseArguments(tokens, i, 0) == After(args, ParseArguments(tokens, position, |args|))
        decreases Remaining(tokens, position)
      {
        ghost var k := position;
        var e :- ParseExpression(0);
        if |args| >= MAX_ARGUMENTS {
          return Failure(TooManyArguments);
        }
        MoreArguments(args, e, k, position);
        args, trailing := args + [e], false;
        if token != Sym(Comma) {
          break;
        }
        LexerStep();
        trailing := true;
      }
      var o := Advance(RightParen);
      if o.Fail? {
        return Failure(o.error);
      }
      return Success((Onto(args, Nil), trailing));
    }

    /** What is left to parse after one more argument, read from `k` to `j`. */
    lemma MoreArguments(args: seq<Tree>, e: Tree, k: nat, j: nat)
      requires !Is(tokens, k, RightParen) && Parse(tokens, k, 0) == Success((e, j)) && |args| < MAX_ARGUMENTS
      ensures After(args, ParseArguments(tokens, k, |args|)) ==
              if Is(tokens, j, Comma) then After(args + [e], ParseArguments(tokens, j + 1, |args| + 1))
              else if Is(tokens, j, RightParen) then Success((Onto(args + [e], Nil), false, j + 1))
              else Failure(ExpectedToken)
    {
      OntoMore(args, e, Nil);
      if Is(tokens, j, Comma) {
        var f := ParseArguments(tokens, j + 1, |args| + 1);
        if f.Success? {
          OntoMore(args, e, f.value.0);
        }
      }
    }
  }
}
