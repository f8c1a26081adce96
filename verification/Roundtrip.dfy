/** Parentheses go exactly where the operator table demands them, and parsing reads the tree back. */
module Roundtrip {
  import opened Wrappers
  import opened Operators
  import opened Trees
  import opened Pratt
  import opened Parsing
  import opened Accepting
  import opened Printing

  /** The operators, tokens and argument counts of the tree are ones that the table and the parser know. */
  predicate Sane(e: Tree) {
    match e
    case Leaf(t) => IsLeaf(t)
    case Tagged(tag, t) => IsTagged(tag, t)
    case Prefix(op, a) => OperatorTable(Sym(op)).nud == NudUnary && Sane(a)
    case Postfix(a, op) => HasLed(op, LedUnary) && Sane(a)
    case Binary(l, op, r) => HasLed(op, LedBinary) && Sane(l) && Sane(r)
    case Assignment(l, op, r) => HasLed(op, LedAssignment) && Sane(l) && Sane(r)
    case Ternary(t, a, b) => Sane(t) && Sane(a) && Sane(b)
    case Group(x) => Sane(x)
    case Vector(x, y, z) => Sane(x) && Sane(y) && Sane(z)
    case Member(o, x) => Sane(o) && x.Leaf? && x.token.Name?
    case Index(o, x) => Sane(o) && Sane(x)
    case Call(f, es, trailing) => Sane(f) && SaneAll(es) && Count(es) <= MAX_ARGUMENTS && (trailing ==> es.Cons?)
    case MethodCall(o, _, es, trailing) => Sane(o) && SaneAll(es) && Count(es) <= MAX_ARGUMENTS && (trailing ==> es.Cons?)
  }

  predicate SaneAll(es: Trees) {
    match es case Nil => true case Cons(e, rest) => Sane(e) && SaneAll(rest)
  }

  /** The precedence of the operator at the top of a tree that has an operand on its left. */
  function Loosest(e: Tree): int {
    match e
    case Postfix(_, op) => Precedence(Sym(op))
    case Binary(_, op, _) => Precedence(Sym(op))
    case Assignment(_, op, _) => Precedence(Sym(op))
    case Ternary(_, _, _) => Precedence(Sym(Question))
    case Member(_, _) => Precedence(Sym(Dot))
    case Index(_, _) => Precedence(Sym(LeftBracket))
    case Call(_, _, _) => Precedence(Sym(LeftParen))
    case MethodCall(_, x, _, _) => Precedence(Name(x))
    case _ => TOP
  }

  // ---- printing ----

  /** An operand to the left of `t`, in parentheses if it would lose its right part to `t`. */
  function OnLeft(e: Tree, t: Token): Tree {
    if Precedence(t) <= RightEdge(e) then e else Group(e)
  }

  /** An operand that is parsed with precedence `p`, in parentheses if its own operator is not read then. */
  function OnRight(e: Tree, p: nat): Tree {
    if p < Loosest(e) then e else Group(e)
  }

  /** The tree with groups added where the table demands them. */
  function Arrange(e: Tree): Tree {
    match e
    case Leaf(_) => e
    case Tagged(_, _) => e
    case Prefix(op, a) => Prefix(op, OnRight(Arrange(a), Precedence(Sym(op))))
    case Postfix(a, op) => Postfix(OnLeft(Arrange(a), Sym(op)), op)
    case Binary(l, op, r) => Binary(OnLeft(Arrange(l), Sym(op)), op, OnRight(Arrange(r), NextPrecedence(Sym(op))))
    case Assignment(l, op, r) => Assignment(OnLeft(Arrange(l), Sym(op)), op, OnRight(Arrange(r), NextPrecedence(Sym(op))))
    case Ternary(t, a, b) => Ternary(OnLeft(Arrange(t), Sym(Question)), Arrange(a), Arrange(b))
    case Group(x) => Group(Arrange(x))
    case Vector(x, y, z) => Vector(Arrange(x), Arrange(y), Arrange(z))
    case Member(o, x) => Member(OnLeft(Arrange(o), Sym(Dot)), x)
    case Index(o, x) => Index(OnLeft(Arrange(o), Sym(LeftBracket)), Arrange(x))
    case Call(f, es, trailing) => Call(OnLeft(Arrange(f), Sym(LeftParen)), ArrangeAll(es), trailing)
    case MethodCall(o, x, es, trailing) => MethodCall(OnLeft(Arrange(o), Name(x)), x, ArrangeAll(es), trailing)
  }

  function ArrangeAll(es: Trees): Trees {
    match es case Nil => Nil case Cons(e, rest) => Cons(Arrange(e), ArrangeAll(rest))
  }

  /** The tree without its groups. */
  function Strip(e: Tree): Tree {
    match e
    case Leaf(_) => e
    case Tagged(_, _) => e
    case Prefix(op, a) => Prefix(op, Strip(a))
    case Postfix(a, op) => Postfix(Strip(a), op)
    case Binary(l, op, r) => Binary(Strip(l), op, Strip(r))
    case Assignment(l, op, r) => Assignment(Strip(l), op, Strip(r))
    case Ternary(t, a, b) => Ternary(Strip(t), Strip(a), Strip(b))
    case Group(x) => Strip(x)
    case Vector(x, y, z) => Vector(Strip(x), Strip(y), Strip(z))
    case Member(o, x) => Member(Strip(o), x)
    case Index(o, x) => Index(Strip(o), Strip(x))
    case Call(f, es, trailing) => Call(Strip(f), StripAll(es), trailing)
    case MethodCall(o, x, es, trailing) => MethodCall(Strip(o), x, StripAll(es), trailing)
  }

  function StripAll(es: Trees): Trees {
    match es case Nil => Nil case Cons(e, rest) => Cons(Strip(e), StripAll(rest))
  }

  predicate GroupFree(e: Tree) {
    Strip(e) == e
  }

  // ---- what printing keeps ----

  lemma StripParens(e: Tree, t: Token, p: nat)
    ensures Strip(OnLeft(e, t)) == Strip(e) && Strip(OnRight(e, p)) == Strip(e)
  {
  }

  lemma {:induction false} StripArrange(e: Tree)
    ensures Strip(Arrange(e)) == Strip(e)
    decreases e, 1
  {
    match e
    case Leaf(_) =>
    case Tagged(_, _) =>
    case Prefix(op, a) => StripArrange(a); StripParens(Arrange(a), Sym(op), Precedence(Sym(op)));
    case Postfix(a, op) => StripArrange(a); StripParens(Arrange(a), Sym(op), 0);
    case Binary(_, _, _) => StripOperands(e);
    case Assignment(_, _, _) => StripOperands(e);
    case Ternary(_, _, _) => StripTernary(e);
    case Group(x) => StripArrange(x);
    case Vector(x, y, z) => StripArrange(x); StripArrange(y); StripArrange(z);
    case Member(o, _) => StripArrange(o); StripParens(Arrange(o), Sym(Dot), 0);
    case Index(o, x) => StripArrange(o); StripArrange(x); StripParens(Arrange(o), Sym(LeftBracket), 0);
    case Call(f, es, _) => StripArrange(f); StripArrangeAll(es); StripParens(Arrange(f), Sym(LeftParen), 0);
    case MethodCall(o, x, es, _) => StripArrange(o); StripArrangeAll(es); StripParens(Arrange(o), Name(x), 0);
  }

  lemma {:induction false} StripOperands(e: Tree)
    requires e.Binary? || e.Assignment?
    ensures Strip(Arrange(e)) == Strip(e)
    decreases e, 0
  {
    StripArrange(e.lhs);
    StripArrange(e.rhs);
    StripParens(Arrange(e.lhs), Sym(e.op), 0);
    StripParens(Arrange(e.rhs), Sym(e.op), NextPrecedence(Sym(e.op)));
  }

  lemma {:induction false} StripTernary(e: Tree)
    requires e.Ternary?
    ensures Strip(Arrange(e)) == Strip(e)
    decreases e, 0
  {
    StripArrange(e.test);
    StripArrange(e.consequent);
    StripArrange(e.alternative);
    StripParens(Arrange(e.test), Sym(Question), 0);
  }

  lemma {:induction false} StripArrangeAll(es: Trees)
    ensures StripAll(ArrangeAll(es)) == StripAll(es) && Count(ArrangeAll(es)) == Count(es)
    decreases es
  {
    if es.Cons? {
      StripArrange(es.head);
      StripArrangeAll(es.tail);
    }
  }

  // ---- shapes for other precedences ----

  lemma NextIsBelow(t: Token)
    ensures NextPrecedence(t) <= Precedence(t)
  {
  }

  /** Everything that takes an operand on its left binds; a postfix operator binds tightest. */
  lemma LedPrecedence(op: Symbol)
    ensures HasLed(op, LedUnary) ==> Precedence(Sym(op)) == 80
    ensures HasLed(op, LedBinary) || HasLed(op, LedAssignment) ==> Precedence(Sym(op)) > 0
  {
  }

  lemma SuffixTop(e: Tree, p: int)
    requires Shape(e, p) && !e.Binary? && !e.Assignment? && !e.Ternary?
    ensures Loosest(e) >= 80
  {
    if e.Postfix? {
      LedPrecedence(e.op);
    }
  }

  /** An operator that may follow a tree does not bind tighter than the tree's own operator. */
  lemma EdgeBelowTop(e: Tree, p: int, t: Token)
    requires Shape(e, p) && Precedence(t) <= RightEdge(e)
    ensures Precedence(t) <= Loosest(e)
  {
    if e.Binary? || e.Assignment? {
      InfixEdge(e);
    } else if !e.Ternary? {
      Loose(t);
      SuffixTop(e, p);
    }
  }

  lemma InfixEdge(e: Tree)
    requires e.Binary? || e.Assignment?
    ensures RightEdge(e) <= Loosest(e)
  {
    NextIsBelow(Sym(e.op));
  }

  /** Only the operator at the top decides for which precedences a tree has the right shape. */
  lemma {:induction false} ShapeAt(e: Tree, p: int, q: int)
    requires Shape(e, p) && q < Loosest(e)
    ensures Shape(e, q)
    decreases e
  {
    match e
    case Postfix(a, op) => EdgeBelowTop(a, p, Sym(op)); ShapeAt(a, p, q);
    case Binary(l, op, _) => EdgeBelowTop(l, p, Sym(op)); ShapeAt(l, p, q);
    case Assignment(l, op, _) => EdgeBelowTop(l, p, Sym(op)); ShapeAt(l, p, q);
    case Ternary(t, _, _) => EdgeBelowTop(t, p, Sym(Question)); ShapeAt(t, p, q);
    case Member(o, _) => EdgeBelowTop(o, p, Sym(Dot)); ShapeAt(o, p, q);
    case Index(o, _) => EdgeBelowTop(o, p, Sym(LeftBracket)); ShapeAt(o, p, q);
    case Call(f, _, _) => EdgeBelowTop(f, p, Sym(LeftParen)); ShapeAt(f, p, q);
    case MethodCall(o, x, _, _) => EdgeBelowTop(o, p, Name(x)); ShapeAt(o, p, q);
    case _ =>
  }

  lemma ShapeBinds(e: Tree, p: int)
    requires Shape(e, p) && p < TOP
    ensures p < Loosest(e)
  {
  }

  // ---- printed trees have the shape that the table demands ----

  lemma LeftShape(e: Tree, t: Token)
    requires Shape(e, 0) && Precedence(t) > 0
    ensures Shape(OnLeft(e, t), 0) && Follows(OnLeft(e, t), t, 0)
  {
    Loose(t);
  }

  lemma RightShape(e: Tree, p: nat)
    requires Shape(e, 0)
    ensures Shape(OnRight(e, p), p)
  {
    if p < Loosest(e) {
      ShapeAt(e, 0, p);
    }
  }

  lemma {:induction false} ArrangeShape(e: Tree)
    requires Sane(e)
    ensures Shape(Arrange(e), 0)
    decreases e, 2
  {
    match e
    case Leaf(_) =>
    case Tagged(_, _) =>
    case Prefix(op, a) => ArrangeShape(a); RightShape(Arrange(a), Precedence(Sym(op)));
    case Binary(_, _, _) => InfixShape(e);
    case Assignment(_, _, _) => InfixShape(e);
    case Group(x) => ArrangeShape(x);
    case Vector(x, y, z) => ArrangeShape(x); ArrangeShape(y); ArrangeShape(z);
    case _ => SuffixShape(e);
  }

  lemma {:induction false} InfixShape(e: Tree)
    requires (e.Binary? || e.Assignment?) && Sane(e)
    ensures Shape(Arrange(e), 0)
    decreases e, 1
  {
    LedPrecedence(e.op);
    OperandsShape(e.lhs, e.op, e.rhs, e);
  }

  lemma {:induction false} SuffixShape(e: Tree)
    requires (e.Postfix? || e.Ternary? || e.Member? || e.Index? || e.Call? || e.MethodCall?) && Sane(e)
    ensures Shape(Arrange(e), 0)
    decreases e, 1
  {
    match e
    case Postfix(a, op) => LedPrecedence(op); ArrangeShape(a); LeftShape(Arrange(a), Sym(op));
    case Ternary(t, a, b) => ArrangeShape(t); ArrangeShape(a); ArrangeShape(b); LeftShape(Arrange(t), Sym(Question));
    case Member(o, _) => ArrangeShape(o); LeftShape(Arrange(o), Sym(Dot));
    case Index(o, x) => ArrangeShape(o); ArrangeShape(x); LeftShape(Arrange(o), Sym(LeftBracket));
    case _ => CallShape(e);
  }

  lemma {:induction false} CallShape(e: Tree)
    requires (e.Call? || e.MethodCall?) && Sane(e)
    ensures Shape(Arrange(e), 0)
    decreases e, 0
  {
    if e.Call? {
      ArrangeShape(e.callee);
      LeftShape(Arrange(e.callee), Sym(LeftParen));
    } else {
      ArrangeShape(e.owner);
      LeftShape(Arrange(e.owner), Name(e.name));
    }
    ArrangeAllShape(e.arguments);
  }

  lemma {:induction false} OperandsShape(l: Tree, op: Symbol, r: Tree, e: Tree)
    requires l < e && r < e && Sane(l) && Sane(r) && Precedence(Sym(op)) > 0
    ensures Shape(OnLeft(Arrange(l), Sym(op)), 0) && Follows(OnLeft(Arrange(l), Sym(op)), Sym(op), 0)
    ensures Shape(OnRight(Arrange(r), NextPrecedence(Sym(op))), NextPrecedence(Sym(op)))
    decreases e, 0
  {
    ArrangeShape(l);
    ArrangeShape(r);
    LeftShape(Arrange(l), Sym(op));
    RightShape(Arrange(r), NextPrecedence(Sym(op)));
  }

  lemma {:induction false} ArrangeAllShape(es: Trees)
    requires SaneAll(es)
    ensures ShapeAll(ArrangeAll(es)) && Count(ArrangeAll(es)) == Count(es)
    decreases es, 0
  {
    if es.Cons? {
      ArrangeShape(es.head);
      ArrangeAllShape(es.tail);
    }
  }

  // ---- no parentheses more than necessary ----

  /** Printing adds nothing to a tree that the parser can return. */
  lemma {:induction false} ArrangeKeeps(e: Tree, p: int)
    requires Shape(e, p)
    ensures Arrange(e) == e
    decreases e, 2
  {
    match e
    case Leaf(_) =>
    case Tagged(_, _) =>
    case Prefix(op, a) => Loose(Sym(op)); KeepRight(a, Precedence(Sym(op)), e);
    case Binary(_, _, _) => KeepInfix(e, p);
    case Assignment(_, _, _) => KeepInfix(e, p);
    case Group(x) => ArrangeKeeps(x, 0);
    case Vector(x, y, z) => ArrangeKeeps(x, 0); ArrangeKeeps(y, 0); ArrangeKeeps(z, 0);
    case _ => KeepSuffix(e, p);
  }

  lemma {:induction false} KeepInfix(e: Tree, p: int)
    requires (e.Binary? || e.Assignment?) && Shape(e, p)
    ensures Arrange(e) == e
    decreases e, 1
  {
    Loose(Sym(e.op));
    NextIsBelow(Sym(e.op));
    KeepLeft(e.lhs, Sym(e.op), p, e);
    KeepRight(e.rhs, NextPrecedence(Sym(e.op)), e);
  }

  lemma {:induction false} KeepSuffix(e: Tree, p: int)
    requires (e.Postfix? || e.Ternary? || e.Member? || e.Index? || e.Call? || e.MethodCall?) && Shape(e, p)
    ensures Arrange(e) == e
    decreases e, 1
  {
    match e
    case Postfix(a, op) => KeepLeft(a, Sym(op), p, e);
    case Ternary(t, a, b) => KeepLeft(t, Sym(Question), p, e); ArrangeKeeps(a, 0); ArrangeKeeps(b, 0);
    case Member(o, _) => KeepLeft(o, Sym(Dot), p, e);
    case Index(o, x) => KeepLeft(o, Sym(LeftBracket), p, e); ArrangeKeeps(x, 0);
    case Call(f, es, _) => KeepLeft(f, Sym(LeftParen), p, e); ArrangeAllKeeps(es);
    case MethodCall(o, x, es, _) => KeepLeft(o, Name(x), p, e); ArrangeAllKeeps(es);
  }

  lemma {:induction false} KeepLeft(l: Tree, t: Token, p: int, e: Tree)
    requires l < e && Shape(l, p) && Follows(l, t, p)
    ensures OnLeft(Arrange(l), t) == l
    decreases e, 0
  {
    ArrangeKeeps(l, p);
  }

  lemma {:induction false} KeepRight(r: Tree, p: nat, e: Tree)
    requires r < e && Shape(r, p) && p < TOP
    ensures OnRight(Arrange(r), p) == r
    decreases e, 0
  {
    ArrangeKeeps(r, p);
    ShapeBinds(r, p);
  }

  lemma {:induction false} ArrangeAllKeeps(es: Trees)
    requires ShapeAll(es)
    ensures ArrangeAll(es) == es
    decreases es, 0
  {
    if es.Cons? {
      ArrangeKeeps(es.head, 0);
      ArrangeAllKeeps(es.tail);
    }
  }

  lemma {:induction false} ShapeIsListed(e: Tree, p: int)
    requires Shape(e, p)
    ensures Listed(e)
    decreases e, 1
  {
    match e
    case Leaf(_) =>
    case Tagged(_, _) =>
    case Prefix(op, a) => ShapeIsListed(a, Precedence(Sym(op)));
    case Postfix(a, _) => ShapeIsListed(a, p);
    case Binary(l, op, r) => ShapeIsListed(l, p); ShapeIsListed(r, NextPrecedence(Sym(op)));
    case Assignment(l, op, r) => ShapeIsListed(l, p); ShapeIsListed(r, NextPrecedence(Sym(op)));
    case Ternary(t, a, b) => ShapeIsListed(t, p); ShapeIsListed(a, 0); ShapeIsListed(b, 0);
    case Group(x) => ShapeIsListed(x, 0);
    case Vector(x, y, z) => ShapeIsListed(x, 0); ShapeIsListed(y, 0); ShapeIsListed(z, 0);
    case _ => SuffixIsListed(e, p);
  }

  lemma {:induction false} SuffixIsListed(e: Tree, p: int)
    requires (e.Member? || e.Index? || e.Call? || e.MethodCall?) && Shape(e, p)
    ensures Listed(e)
    decreases e, 0
  {
    match e
    case Member(o, _) => ShapeIsListed(o, p);
    case Index(o, x) => ShapeIsListed(o, p); ShapeIsListed(x, 0);
    case Call(f, es, _) => ShapeIsListed(f, p); ShapesAreListed(es);
    case MethodCall(o, _, es, _) => ShapeIsListed(o, p); ShapesAreListed(es);
  }

  lemma {:induction false} ShapesAreListed(es: Trees)
    requires ShapeAll(es)
    ensures ListedAll(es)
    decreases es
  {
    if es.Cons? {
      ShapeIsListed(es.head, 0);
      ShapesAreListed(es.tail);
    }
  }

  // ---- the two directions ----

  /** Printing a tree and parsing what was printed returns the tree, with the groups that were added. */
  lemma PrintThenParse(e: Tree)
    requires Sane(e)
    ensures var a := Arrange(e);
            Parse(Show(a), 0, 0) == Success((a, |Show(a)|)) && Strip(a) == Strip(e)
  {
    var a := Arrange(e);
    var ts := Show(a);
    ArrangeShape(e);
    StripArrange(e);
    ShapeIsListed(a, 0);
    assert ts[0..0 + |ts|] == ts;
    SpellsIffShown(a, ts, 0);
    NothingFollows(ts, a);
    ParserIsExact(ts, 0, 0, a, |ts|);
  }

  lemma NothingFollows(ts: seq<Token>, a: Tree)
    requires Shape(a, 0) && Spells(a, ts, 0) && End(a, 0) == |ts|
    ensures Whole(ts, 0, 0, a, |ts|)
  {
    SideEdge(a, 0);
    EndBindsNothing(ts);
    WholeIf(ts, 0, a, |ts|, TokenAt(ts, |ts|));
  }

  lemma EndBindsNothing(ts: seq<Token>)
    ensures Precedence(TokenAt(ts, |ts|)) == 0
  {
  }

  /** A tree without groups comes back as it was, once the added groups are taken away again. */
  lemma RoundTrip(e: Tree)
    requires Sane(e) && GroupFree(e)
    ensures var r := Parse(Show(Arrange(e)), 0, 0);
            r.Success? && Strip(r.value.0) == e && r.value.1 == |Show(Arrange(e))|
  {
    PrintThenParse(e);
  }

  /** What was parsed is printed as the very tokens that were read. */
  lemma ParseThenPrint(ts: seq<Token>, i: nat, p: nat, e: Tree, j: nat)
    requires Parse(ts, i, p) == Success((e, j))
    ensures Arrange(e) == e && i < j <= |ts| && ts[i..j] == Show(e)
  {
    ParserIsExact(ts, i, p, e, j);
    ArrangeKeeps(e, p);
    ShapeIsListed(e, p);
    SpellsIffShown(e, ts, i);
  }

  /** Two trees that are parsed from the same tokens are the same tree. */
  lemma Unambiguous(ts: seq<Token>, i: nat, p: nat, e: Tree, j: nat, d: Tree, k: nat)
    requires Whole(ts, i, p, e, j) && Whole(ts, i, p, d, k)
    ensures e == d && j == k
  {
    ParserIsExact(ts, i, p, e, j);
    ParserIsExact(ts, i, p, d, k);
  }

  // ---- consequences for particular operators ----

  /** A tree of the right shape is parsed from its tokens. */
  lemma ShapeParses(e: Tree)
    requires Sane(e) && Shape(e, 0)
    ensures Parse(Show(e), 0, 0) == Success((e, |Show(e)|))
  {
    PrintThenParse(e);
    ArrangeKeeps(e, 0);
  }

  /** Unary minus binds like binary minus, so `-a*b` is `-(a*b)`. */
  lemma MinusTakesTheProduct(a: Tree, b: Tree)
    requires a.Leaf? && b.Leaf? && Sane(a) && Sane(b)
    ensures var ts := [Sym(Minus), a.token, Sym(Multiply), b.token];
            Parse(ts, 0, 0) == Success((Prefix(Minus, Binary(a, Multiply, b)), 4))
  {
    var product := Binary(a, Multiply, b);
    assert Shape(a, 50) && Shape(b, 60) && Shape(product, 50);
    assert Show(product) == [a.token] + ([Sym(Multiply)] + [b.token]);
    assert Show(Prefix(Minus, product)) == [Sym(Minus), a.token, Sym(Multiply), b.token];
    ShapeParses(Prefix(Minus, product));
  }

  /** Operators of one left-associative level group to the left. */
  lemma LeftAssociative(x: Tree, y: Tree, z: Tree, op: Symbol, next: Symbol)
    requires x.Leaf? && y.Leaf? && z.Leaf? && Sane(x) && Sane(y) && Sane(z)
    requires HasLed(op, LedBinary) && HasLed(next, LedBinary) && Precedence(Sym(op)) == Precedence(Sym(next))
    ensures var ts := [x.token, Sym(op), y.token, Sym(next), z.token];
            Parse(ts, 0, 0) == Success((Binary(Binary(x, op, y), next, z), 5))
  {
    LeftNested(x, y, z, op, next);
    assert Show(Binary(x, op, y)) == [x.token] + ([Sym(op)] + [y.token]);
    assert Show(Binary(Binary(x, op, y), next, z)) == [x.token, Sym(op), y.token, Sym(next), z.token];
    ShapeParses(Binary(Binary(x, op, y), next, z));
  }

  lemma LeftNested(x: Tree, y: Tree, z: Tree, op: Symbol, next: Symbol)
    requires x.Leaf? && y.Leaf? && z.Leaf? && Sane(x) && Sane(y) && Sane(z)
    requires HasLed(op, LedBinary) && HasLed(next, LedBinary) && Precedence(Sym(op)) == Precedence(Sym(next))
    ensures Shape(Binary(Binary(x, op, y), next, z), 0)
  {
    BinaryNext(op);
    LedPrecedence(op);
    assert Shape(x, 0) && Shape(y, NextPrecedence(Sym(op))) && Shape(Binary(x, op, y), 0);
    assert Shape(z, NextPrecedence(Sym(next)));
  }

  lemma BinaryNext(op: Symbol)
    requires HasLed(op, LedBinary)
    ensures NextPrecedence(Sym(op)) == Precedence(Sym(op)) <= 80
  {
  }

  /** Assignments group to the right. */
  lemma RightAssociative(x: Tree, y: Tree, z: Tree, op: Symbol, next: Symbol)
    requires x.Leaf? && y.Leaf? && z.Leaf? && Sane(x) && Sane(y) && Sane(z)
    requires HasLed(op, LedAssignment) && HasLed(next, LedAssignment)
    ensures var ts := [x.token, Sym(op), y.token, Sym(next), z.token];
            Parse(ts, 0, 0) == Success((Assignment(x, op, Assignment(y, next, z)), 5))
  {
    var last := Assignment(y, next, z);
    AssignmentNext(op);
    AssignmentNext(next);
    assert Shape(x, 0) && Shape(y, 9) && Shape(z, 9) && Shape(last, 9);
    assert Show(last) == [y.token] + ([Sym(next)] + [z.token]);
    assert Show(Assignment(x, op, last)) == [x.token, Sym(op), y.token, Sym(next), z.token];
    ShapeParses(Assignment(x, op, last));
  }

  lemma AssignmentNext(op: Symbol)
    requires HasLed(op, LedAssignment)
    ensures Precedence(Sym(op)) == 10 && NextPrecedence(Sym(op)) == 9
  {
  }
}
