/**
 * Expression trees as the parser builds them: what they spell, and which of them the operator
 * table allows. Neither mentions the parser.
 */
module Trees {
  import opened Operators

  const MAX_ARGUMENTS := 32

  datatype Tree =
    | Leaf(token: Token)
    | Tagged(tag: Symbol, token: Token)
    | Prefix(op: Symbol, argument: Tree)
    | Postfix(argument: Tree, op: Symbol)
    | Binary(lhs: Tree, op: Symbol, rhs: Tree)
    | Assignment(lhs: Tree, op: Symbol, rhs: Tree)
    | Ternary(test: Tree, consequent: Tree, alternative: Tree)
    | Group(inner: Tree)
    | Vector(x: Tree, y: Tree, z: Tree)
    | Member(owner: Tree, property: Tree)
    | Index(owner: Tree, index: Tree)
    | Call(callee: Tree, arguments: Trees, trailing: bool)
    | MethodCall(owner: Tree, name: string, arguments: Trees, trailing: bool)

  datatype Trees = Nil | Cons(head: Tree, tail: Trees)

  function Count(es: Trees): nat {
    match es case Nil => 0 case Cons(_, rest) => 1 + Count(rest)
  }

  // ---- what a tree spells ----

  /** The position after the tokens of a tree that starts at `i`. */
  function End(e: Tree, i: nat): (j: nat)
    ensures i < j
  {
    match e
    case Leaf(_) => i + 1
    case Tagged(_, _) => i + 2
    case Prefix(_, a) => End(a, i + 1)
    case Postfix(a, _) => End(a, i) + 1
    case Binary(l, _, r) => End(r, End(l, i) + 1)
    case Assignment(l, _, r) => End(r, End(l, i) + 1)
    case Ternary(t, a, b) => End(b, End(a, End(t, i) + 1) + 1)
    case Group(x) => End(x, i + 1) + 1
    case Vector(x, y, z) => End(z, End(y, End(x, i + 1) + 1) + 1) + 1
    case Member(o, x) => End(x, End(o, i) + 1)
    case Index(o, x) => End(x, End(o, i) + 1) + 1
    case Call(f, es, trailing) => ArgumentsEnd(es, trailing, End(f, i) + 1)
    case MethodCall(o, _, es, trailing) => ArgumentsEnd(es, trailing, End(o, i) + 2)
  }

  /**
   * The position after arguments and their closing parenthesis. There is a comma after each
   * argument but the last, and after the last one if it is trailing.
   */
  function ArgumentsEnd(es: Trees, trailing: bool, i: nat): (j: nat)
    ensures i < j
  {
    match es
    case Nil => i + 1
    case Cons(e, rest) => if rest.Cons? || trailing then ArgumentsEnd(rest, trailing, End(e, i) + 1) else End(e, i) + 1
  }

  predicate Is(ts: seq<Token>, i: nat, s: Symbol) {
    TokenAt(ts, i) == Sym(s)
  }

  /** The tokens from `i` on are those of the tree. */
  predicate Spells(e: Tree, ts: seq<Token>, i: nat) {
    match e
    case Leaf(t) => TokenAt(ts, i) == t
    case Tagged(tag, t) => Is(ts, i, tag) && TokenAt(ts, i + 1) == t
    case Prefix(op, a) => Is(ts, i, op) && Spells(a, ts, i + 1)
    case Postfix(a, op) => Spells(a, ts, i) && Is(ts, End(a, i), op)
    case Binary(l, op, r) => Spells(l, ts, i) && Is(ts, End(l, i), op) && Spells(r, ts, End(l, i) + 1)
    case Assignment(l, op, r) => Spells(l, ts, i) && Is(ts, End(l, i), op) && Spells(r, ts, End(l, i) + 1)
    case Ternary(t, a, b) =>
      var j := End(t, i);
      var k := End(a, j + 1);
      Spells(t, ts, i) && Is(ts, j, Question) && Spells(a, ts, j + 1) && Is(ts, k, Colon) && Spells(b, ts, k + 1)
    case Group(x) => Is(ts, i, LeftParen) && Spells(x, ts, i + 1) && Is(ts, End(x, i + 1), RightParen)
    case Vector(x, y, z) =>
      var j := End(x, i + 1);
      var k := End(y, j + 1);
      && Is(ts, i, LeftParen) && Spells(x, ts, i + 1) && Is(ts, j, Comma)
      && Spells(y, ts, j + 1) && Is(ts, k, Comma) && Spells(z, ts, k + 1) && Is(ts, End(z, k + 1), RightParen)
    case Member(o, x) => Spells(o, ts, i) && Is(ts, End(o, i), Dot) && Spells(x, ts, End(o, i) + 1)
    case Index(o, x) =>
      var j := End(o, i);
      Spells(o, ts, i) && Is(ts, j, LeftBracket) && Spells(x, ts, j + 1) && Is(ts, End(x, j + 1), RightBracket)
    case Call(f, es, trailing) =>
      var j := End(f, i);
      Spells(f, ts, i) && Is(ts, j, LeftParen) && SpellsArguments(es, trailing, ts, j + 1)
    case MethodCall(o, x, es, trailing) =>
      var j := End(o, i);
      && Spells(o, ts, i) && TokenAt(ts, j) == Name(x) && Is(ts, j + 1, LeftParen)
      && SpellsArguments(es, trailing, ts, j + 2)
  }

  /** Arguments up to and including the closing parenthesis. */
  predicate SpellsArguments(es: Trees, trailing: bool, ts: seq<Token>, i: nat) {
    match es
    case Nil => Is(ts, i, RightParen)
    case Cons(e, rest) =>
      && Spells(e, ts, i)
      && if rest.Cons? || trailing
         then Is(ts, End(e, i), Comma) && SpellsArguments(rest, trailing, ts, End(e, i) + 1)
         else Is(ts, End(e, i), RightParen)
  }

  // ---- which trees the table allows ----

  const TOP := 1000

  function Min(x: int, y: int): int {
    if x < y then x else y
  }

  /** The least precedence that an operand at the right edge of the tree was parsed with. */
  function RightEdge(e: Tree): int {
    match e
    case Prefix(op, a) => Min(Precedence(Sym(op)), RightEdge(a))
    case Binary(_, op, r) => Min(NextPrecedence(Sym(op)), RightEdge(r))
    case Assignment(_, op, r) => Min(NextPrecedence(Sym(op)), RightEdge(r))
    case Ternary(_, _, b) => Min(0, RightEdge(b))
    case _ => TOP
  }

  predicate IsLeaf(t: Token) {
    !t.Sym? && OperatorTable(t).nud in {NudLiteral, NudSelf}
  }

  /** `&"text"`, `%name` and `::name`. */
  predicate IsTagged(tag: Symbol, t: Token) {
    (tag == BitwiseAnd && t.Text?) || ((tag == Modulo || tag == ScopeResolution) && t.Name?)
  }

  predicate HasLed(op: Symbol, led: Led) {
    OperatorTable(Sym(op)).led == led
  }

  /** `t` may follow the operand on its left, in an expression that is parsed with precedence `p`. */
  predicate Follows(left: Tree, t: Token, p: int) {
    p < Precedence(t) <= RightEdge(left)
  }

  /**
   * The tree is one that the table demands for an expression parsed with precedence `p`: every
   * operator on its left edge binds tighter than `p`, no operator is taken from an operand on its
   * left that binds less tightly, and every operand on the right of an operator is an expression
   * of that operator's own precedence, or of one less if it is right associative.
   */
  predicate Shape(e: Tree, p: int)
    decreases e
  {
    match e
    case Leaf(t) => IsLeaf(t)
    case Tagged(tag, t) => IsTagged(tag, t)
    case Prefix(op, a) => OperatorTable(Sym(op)).nud == NudUnary && Shape(a, Precedence(Sym(op)))
    case Postfix(a, op) => HasLed(op, LedUnary) && Follows(a, Sym(op), p) && Shape(a, p)
    case Binary(l, op, r) =>
      HasLed(op, LedBinary) && Follows(l, Sym(op), p) && Shape(l, p) && Shape(r, NextPrecedence(Sym(op)))
    case Assignment(l, op, r) =>
      HasLed(op, LedAssignment) && Follows(l, Sym(op), p) && Shape(l, p) && Shape(r, NextPrecedence(Sym(op)))
    case Ternary(t, a, b) => Follows(t, Sym(Question), p) && Shape(t, p) && Shape(a, 0) && Shape(b, 0)
    case Group(x) => Shape(x, 0)
    case Vector(x, y, z) => Shape(x, 0) && Shape(y, 0) && Shape(z, 0)
    case Member(o, x) => Follows(o, Sym(Dot), p) && Shape(o, p) && x.Leaf? && x.token.Name?
    case Index(o, x) => Follows(o, Sym(LeftBracket), p) && Shape(o, p) && Shape(x, 0)
    case Call(f, es, trailing) =>
      Follows(f, Sym(LeftParen), p) && Shape(f, p) && ShapeAll(es) && Count(es) <= MAX_ARGUMENTS && (trailing ==> es.Cons?)
    case MethodCall(o, x, es, trailing) =>
      Follows(o, Name(x), p) && Shape(o, p) && ShapeAll(es) && Count(es) <= MAX_ARGUMENTS && (trailing ==> es.Cons?)
  }

  predicate ShapeAll(es: Trees)
    decreases es
  {
    match es case Nil => true case Cons(e, rest) => Shape(e, 0) && ShapeAll(rest)
  }
}
