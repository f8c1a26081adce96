/** The other direction: every tree that the table allows is parsed from its tokens. */
module Accepting {
  import opened Wrappers
  import opened Operators
  import opened Trees
  import opened Pratt
  import opened Parsing

  // ---- smaller trees from larger ones ----

  lemma OperandParts(ts: seq<Token>, i: nat, p: nat, e: Tree, j: nat, k: nat)
    requires (e.Binary? || e.Assignment?) && Stands(ts, i, p, e, j) && k == End(e.lhs, i)
    ensures Stands(ts, i, p, e.lhs, k) && Is(ts, k, e.op) && p < Precedence(Sym(e.op))
    ensures Whole(ts, k + 1, NextPrecedence(Sym(e.op)), e.rhs, j)
    ensures OperatorTable(Sym(e.op)).led == if e.Binary? then LedBinary else LedAssignment
  {
  }

  lemma PostfixParts(ts: seq<Token>, i: nat, p: nat, e: Tree, j: nat, k: nat)
    requires e.Postfix? && Stands(ts, i, p, e, j) && k == End(e.argument, i)
    ensures Stands(ts, i, p, e.argument, k) && Is(ts, k, e.op) && p < Precedence(Sym(e.op)) && j == k + 1
    ensures OperatorTable(Sym(e.op)).led == LedUnary
  {
  }

  /** What follows a subexpression in brackets never binds. */
  lemma {:induction false} SideEdge(e: Tree, p: nat)
    requires Shape(e, p)
    ensures RightEdge(e) >= 0
    decreases e
  {
    match e
    case Prefix(op, a) => SideEdge(a, Precedence(Sym(op)));
    case Binary(_, op, r) => SideEdge(r, NextPrecedence(Sym(op)));
    case Assignment(_, op, r) => SideEdge(r, NextPrecedence(Sym(op)));
    case Ternary(_, _, b) => SideEdge(b, 0);
    case _ =>
  }

  predicate Closing(s: Symbol) {
    s == RightParen || s == RightBracket || s == Comma || s == Colon
  }

  lemma ClosingBindsNothing(ts: seq<Token>, k: nat, s: Symbol)
    requires Is(ts, k, s) && Closing(s)
    ensures Precedence(TokenAt(ts, k)) == 0
  {
  }

  lemma WholeIf(ts: seq<Token>, i: nat, x: Tree, k: nat, t: Token)
    requires Shape(x, 0) && Spells(x, ts, i) && k == End(x, i) && t == TokenAt(ts, k) && Precedence(t) == 0 <= RightEdge(x)
    ensures Whole(ts, i, 0, x, k)
  {
  }

  /** A subexpression up to a closing symbol. */
  lemma InnerWhole(ts: seq<Token>, i: nat, x: Tree, k: nat, s: Symbol)
    requires Shape(x, 0) && Spells(x, ts, i) && k == End(x, i) && Is(ts, k, s) && Closing(s)
    ensures Whole(ts, i, 0, x, k)
  {
    SideEdge(x, 0);
    ClosingBindsNothing(ts, k, s);
    WholeIf(ts, i, x, k, TokenAt(ts, k));
  }

  lemma TernaryTest(ts: seq<Token>, i: nat, p: nat, e: Tree, j: nat, k: nat, m: nat)
    requires e.Ternary? && Stands(ts, i, p, e, j) && k == End(e.test, i) && m == End(e.consequent, k + 1)
    ensures Stands(ts, i, p, e.test, k) && Is(ts, k, Question) && p < Precedence(Sym(Question))
  {
    TernaryShaped(e, p);
    TernaryRead(ts, i, e, j, k, m);
    TestStands(ts, i, p, e.test, k);
  }

  lemma TernarySides(ts: seq<Token>, i: nat, p: nat, e: Tree, j: nat, k: nat, m: nat)
    requires e.Ternary? && Stands(ts, i, p, e, j) && k == End(e.test, i) && m == End(e.consequent, k + 1)
    ensures Is(ts, k, Question) && Whole(ts, k + 1, 0, e.consequent, m)
    ensures Is(ts, m, Colon) && Whole(ts, m + 1, 0, e.alternative, j)
  {
    TernaryShaped(e, p);
    TernaryRead(ts, i, e, j, k, m);
    SidesWhole(ts, e, e.consequent, e.alternative, k, m, j);
  }

  lemma SidesWhole(ts: seq<Token>, e: Tree, a: Tree, b: Tree, k: nat, m: nat, j: nat)
    requires Shape(a, 0) && Spells(a, ts, k + 1) && m == End(a, k + 1) && Is(ts, m, Colon)
    requires Shape(b, 0) && Spells(b, ts, m + 1) && j == End(b, m + 1)
    requires e.Ternary? && e.alternative == b && Precedence(TokenAt(ts, j)) <= RightEdge(e)
    ensures Whole(ts, k + 1, 0, a, m) && Whole(ts, m + 1, 0, b, j)
  {
    InnerWhole(ts, k + 1, a, m, Colon);
    LastWhole(ts, m + 1, b, j, e);
  }

  lemma TestStands(ts: seq<Token>, i: nat, p: nat, t: Tree, k: nat)
    requires Shape(t, p) && Spells(t, ts, i) && k == End(t, i)
    requires Is(ts, k, Question) && Precedence(Sym(Question)) <= RightEdge(t)
    ensures Stands(ts, i, p, t, k)
  {
  }

  lemma TernaryShaped(e: Tree, p: nat)
    requires e.Ternary? && Shape(e, p)
    ensures Shape(e.test, p) && p < Precedence(Sym(Question)) <= RightEdge(e.test)
    ensures Shape(e.consequent, 0) && Shape(e.alternative, 0)
  {
  }

  lemma TernaryRead(ts: seq<Token>, i: nat, e: Tree, j: nat, k: nat, m: nat)
    requires e.Ternary? && Spells(e, ts, i) && j == End(e, i) && k == End(e.test, i) && m == End(e.consequent, k + 1)
    ensures Spells(e.test, ts, i) && Is(ts, k, Question) && Spells(e.consequent, ts, k + 1)
    ensures Is(ts, m, Colon) && Spells(e.alternative, ts, m + 1) && j == End(e.alternative, m + 1)
  {
  }

  /** The last part of a ternary stops where the ternary stops: at precedence 0. */
  lemma LastWhole(ts: seq<Token>, i: nat, b: Tree, j: nat, e: Tree)
    requires Shape(b, 0) && Spells(b, ts, i) && j == End(b, i)
    requires e.Ternary? && e.alternative == b && Precedence(TokenAt(ts, j)) <= RightEdge(e)
    ensures Whole(ts, i, 0, b, j)
  {
  }

  lemma GroupParts(ts: seq<Token>, i: nat, p: nat, e: Tree, j: nat, k: nat)
    requires e.Group? && Stands(ts, i, p, e, j) && k == End(e.inner, i + 1)
    ensures Is(ts, i, LeftParen) && Whole(ts, i + 1, 0, e.inner, k) && Is(ts, k, RightParen) && j == k + 1
  {
    InnerWhole(ts, i + 1, e.inner, k, RightParen);
  }

  lemma VectorSpelled(ts: seq<Token>, i: nat, p: nat, e: Tree, k: nat, m: nat, n: nat)
    requires e.Vector? && Shape(e, p) && Spells(e, ts, i)
    requires k == End(e.x, i + 1) && m == End(e.y, k + 1) && n == End(e.z, m + 1)
    ensures Shape(e.x, 0) && Shape(e.y, 0) && Shape(e.z, 0)
    ensures Spells(e.x, ts, i + 1) && Spells(e.y, ts, k + 1) && Spells(e.z, ts, m + 1)
    ensures Is(ts, i, LeftParen) && Is(ts, k, Comma) && Is(ts, m, Comma) && Is(ts, n, RightParen) && End(e, i) == n + 1
  {
    VectorShaped(e, p);
    VectorRead(ts, i, e, k, m, n);
  }

  lemma VectorShaped(e: Tree, p: nat)
    requires e.Vector? && Shape(e, p)
    ensures Shape(e.x, 0) && Shape(e.y, 0) && Shape(e.z, 0)
  {
  }

  lemma VectorRead(ts: seq<Token>, i: nat, e: Tree, k: nat, m: nat, n: nat)
    requires e.Vector? && Spells(e, ts, i)
    requires k == End(e.x, i + 1) && m == End(e.y, k + 1) && n == End(e.z, m + 1)
    ensures Spells(e.x, ts, i + 1) && Spells(e.y, ts, k + 1) && Spells(e.z, ts, m + 1)
    ensures Is(ts, i, LeftParen) && Is(ts, k, Comma) && Is(ts, m, Comma) && Is(ts, n, RightParen) && End(e, i) == n + 1
  {
  }

  lemma ComponentsWhole(ts: seq<Token>, i: nat, x: Tree, k: nat, y: Tree, m: nat, z: Tree, n: nat)
    requires Shape(x, 0) && Shape(y, 0) && Shape(z, 0)
    requires Spells(x, ts, i + 1) && Spells(y, ts, k + 1) && Spells(z, ts, m + 1)
    requires k == End(x, i + 1) && m == End(y, k + 1) && n == End(z, m + 1)
    requires Is(ts, k, Comma) && Is(ts, m, Comma) && Is(ts, n, RightParen)
    ensures Whole(ts, i + 1, 0, x, k) && Whole(ts, k + 1, 0, y, m) && Whole(ts, m + 1, 0, z, n)
  {
    InnerWhole(ts, i + 1, x, k, Comma);
    InnerWhole(ts, k + 1, y, m, Comma);
    InnerWhole(ts, m + 1, z, n, RightParen);
  }

  lemma MemberParts(ts: seq<Token>, i: nat, p: nat, e: Tree, j: nat, k: nat)
    requires e.Member? && Stands(ts, i, p, e, j) && k == End(e.owner, i)
    ensures Stands(ts, i, p, e.owner, k) && Is(ts, k, Dot) && p < Precedence(Sym(Dot))
    ensures TokenAt(ts, k + 1).Name? && e.property == Leaf(TokenAt(ts, k + 1)) && j == k + 2
  {
    assert Spells(e.property, ts, k + 1) && End(e.property, k + 1) == k + 2;
  }

  lemma IndexParts(ts: seq<Token>, i: nat, p: nat, e: Tree, j: nat, k: nat, m: nat)
    requires e.Index? && Stands(ts, i, p, e, j) && k == End(e.owner, i) && m == End(e.index, k + 1)
    ensures Stands(ts, i, p, e.owner, k) && Is(ts, k, LeftBracket) && p < Precedence(Sym(LeftBracket))
    ensures Whole(ts, k + 1, 0, e.index, m) && Is(ts, m, RightBracket) && j == m + 1
  {
    IndexShaped(e, p);
    IndexRead(ts, i, e, k, m);
    InnerWhole(ts, k + 1, e.index, m, RightBracket);
  }

  lemma IndexShaped(e: Tree, p: nat)
    requires e.Index? && Shape(e, p)
    ensures Shape(e.owner, p) && p < Precedence(Sym(LeftBracket)) <= RightEdge(e.owner) && Shape(e.index, 0)
  {
  }

  lemma IndexRead(ts: seq<Token>, i: nat, e: Tree, k: nat, m: nat)
    requires e.Index? && Spells(e, ts, i) && k == End(e.owner, i) && m == End(e.index, k + 1)
    ensures Spells(e.owner, ts, i) && Is(ts, k, LeftBracket)
    ensures Spells(e.index, ts, k + 1) && Is(ts, m, RightBracket) && End(e, i) == m + 1
  {
  }

  lemma CallParts(ts: seq<Token>, i: nat, p: nat, e: Tree, j: nat, k: nat)
    requires e.Call? && Stands(ts, i, p, e, j) && k == End(e.callee, i)
    ensures Stands(ts, i, p, e.callee, k) && Is(ts, k, LeftParen) && p < Precedence(Sym(LeftParen))
    ensures ArgumentsStand(ts, k + 1, e.arguments, e.trailing, j)
  {
    CallShaped(e, p);
    CallRead(ts, i, e, j, k);
  }

  lemma CallShaped(e: Tree, p: nat)
    requires e.Call? && Shape(e, p)
    ensures Shape(e.callee, p) && p < Precedence(Sym(LeftParen)) <= RightEdge(e.callee)
    ensures ShapeAll(e.arguments) && Count(e.arguments) <= MAX_ARGUMENTS && (e.trailing ==> e.arguments.Cons?)
  {
  }

  lemma CallRead(ts: seq<Token>, i: nat, e: Tree, j: nat, k: nat)
    requires e.Call? && Spells(e, ts, i) && j == End(e, i) && k == End(e.callee, i)
    ensures Spells(e.callee, ts, i) && Is(ts, k, LeftParen)
    ensures SpellsArguments(e.arguments, e.trailing, ts, k + 1) && j == ArgumentsEnd(e.arguments, e.trailing, k + 1)
  {
  }

  lemma MethodCallParts(ts: seq<Token>, i: nat, p: nat, e: Tree, j: nat, k: nat)
    requires e.MethodCall? && Stands(ts, i, p, e, j) && k == End(e.owner, i)
    ensures Stands(ts, i, p, e.owner, k) && TokenAt(ts, k) == Name(e.name) && p < Precedence(Name(e.name))
    ensures Is(ts, k + 1, LeftParen) && ArgumentsStand(ts, k + 2, e.arguments, e.trailing, j)
  {
  }

  // ---- single steps of the parser ----

  lemma LoopStops(ts: seq<Token>, e: Tree, j: nat, p: nat)
    requires j <= |ts| && Precedence(TokenAt(ts, j)) <= p
    ensures ParseLoop(ts, e, j, p) == Success((e, j))
  {
  }

  lemma LoopSteps(ts: seq<Token>, l: Tree, k: nat, e: Tree, j: nat, p: nat)
    requires k <= |ts| && p < Precedence(TokenAt(ts, k)) && ParseLed(ts, l, k) == Success((e, j))
    ensures j <= |ts| && ParseLoop(ts, l, k, p) == ParseLoop(ts, e, j, p)
  {
  }

  lemma NudStarts(ts: seq<Token>, i: nat, e: Tree, j: nat, p: nat)
    requires ParseNud(ts, i) == Success((e, j))
    ensures j <= |ts| && Parse(ts, i, p) == ParseLoop(ts, e, j, p)
  {
  }

  lemma OperandParses(ts: seq<Token>, l: Tree, k: nat, op: Symbol, r: Tree, j: nat, binary: bool)
    requires Is(ts, k, op) && OperatorTable(Sym(op)).led == if binary then LedBinary else LedAssignment
    requires Parse(ts, k + 1, NextPrecedence(Sym(op))) == Success((r, j))
    ensures ParseLed(ts, l, k) == Success((if binary then Binary(l, op, r) else Assignment(l, op, r), j))
  {
  }

  lemma TernaryParses(ts: seq<Token>, t: Tree, k: nat, a: Tree, m: nat, b: Tree, j: nat)
    requires Is(ts, k, Question) && Parse(ts, k + 1, 0) == Success((a, m))
    requires Is(ts, m, Colon) && Parse(ts, m + 1, 0) == Success((b, j))
    ensures ParseLed(ts, t, k) == Success((Ternary(t, a, b), j))
  {
    TernaryIs(ts, t, k + 1, a, m, b, j);
    LedIsTernary(ts, t, k);
  }

  lemma TernaryIs(ts: seq<Token>, t: Tree, i: nat, a: Tree, m: nat, b: Tree, j: nat)
    requires Parse(ts, i, 0) == Success((a, m)) && Is(ts, m, Colon) && Parse(ts, m + 1, 0) == Success((b, j))
    ensures ParseTernary(ts, t, i) == Success((Ternary(t, a, b), j))
  {
    assert Advance(ts, m, Colon) == Success(m + 1);
  }

  lemma LedIsTernary(ts: seq<Token>, t: Tree, k: nat)
    requires Is(ts, k, Question)
    ensures ParseLed(ts, t, k) == ParseTernary(ts, t, k + 1)
  {
  }

  lemma GroupParses(ts: seq<Token>, i: nat, x: Tree, k: nat)
    requires Is(ts, i, LeftParen) && Parse(ts, i + 1, 0) == Success((x, k)) && Is(ts, k, RightParen)
    ensures ParseNud(ts, i) == Success((Group(x), k + 1))
  {
    NudIsGroup(ts, i);
  }

  lemma VectorParses(ts: seq<Token>, i: nat, x: Tree, k: nat, y: Tree, m: nat, z: Tree, n: nat)
    requires Is(ts, i, LeftParen) && Parse(ts, i + 1, 0) == Success((x, k)) && Is(ts, k, Comma)
    requires Parse(ts, k + 1, 0) == Success((y, m)) && Is(ts, m, Comma)
    requires Parse(ts, m + 1, 0) == Success((z, n)) && Is(ts, n, RightParen)
    ensures ParseNud(ts, i) == Success((Vector(x, y, z), n + 1))
  {
    GroupedVector(ts, i + 1, x, k, y, m, z, n);
    NudIsGroup(ts, i);
  }

  lemma GroupedVector(ts: seq<Token>, i: nat, x: Tree, k: nat, y: Tree, m: nat, z: Tree, n: nat)
    requires Parse(ts, i, 0) == Success((x, k)) && Is(ts, k, Comma)
    requires Parse(ts, k + 1, 0) == Success((y, m)) && Is(ts, m, Comma)
    requires Parse(ts, m + 1, 0) == Success((z, n)) && Is(ts, n, RightParen)
    ensures ParseGroup(ts, i) == Success((Vector(x, y, z), n + 1))
  {
    ComponentsParse(ts, x, k, y, m, z, n);
    GroupIsVector(ts, i, x, k);
  }

  lemma ComponentsParse(ts: seq<Token>, x: Tree, k: nat, y: Tree, m: nat, z: Tree, n: nat)
    requires Is(ts, k, Comma) && Parse(ts, k + 1, 0) == Success((y, m)) && Is(ts, m, Comma)
    requires Parse(ts, m + 1, 0) == Success((z, n)) && Is(ts, n, RightParen)
    ensures ParseVector(ts, x, k) == Success((Vector(x, y, z), n + 1))
  {
    assert Advance(ts, k, Comma) == Success(k + 1);
    assert Advance(ts, m, Comma) == Success(m + 1);
    assert Advance(ts, n, RightParen) == Success(n + 1);
  }

  lemma GroupIsVector(ts: seq<Token>, i: nat, x: Tree, k: nat)
    requires Parse(ts, i, 0) == Success((x, k)) && Is(ts, k, Comma)
    ensures ParseGroup(ts, i) == ParseVector(ts, x, k)
  {
  }

  lemma NudIsGroup(ts: seq<Token>, i: nat)
    requires Is(ts, i, LeftParen)
    ensures ParseNud(ts, i) == ParseGroup(ts, i + 1)
  {
  }

  lemma IndexParses(ts: seq<Token>, o: Tree, k: nat, x: Tree, m: nat)
    requires Is(ts, k, LeftBracket) && !Is(ts, k + 1, LeftBracket)
    requires Parse(ts, k + 1, 0) == Success((x, m)) && Is(ts, m, RightBracket)
    ensures ParseLed(ts, o, k) == Success((Index(o, x), m + 1))
  {
  }

  lemma MemberParses(ts: seq<Token>, o: Tree, k: nat)
    requires Is(ts, k, Dot) && TokenAt(ts, k + 1).Name?
    ensures ParseLed(ts, o, k) == Success((Member(o, Leaf(TokenAt(ts, k + 1))), k + 2))
  {
    OneName(ts, k + 1);
  }

  lemma CallParses(ts: seq<Token>, f: Tree, k: nat, es: Trees, trailing: bool, j: nat)
    requires Is(ts, k, LeftParen) && ParseArguments(ts, k + 1, 0) == Success((es, trailing, j))
    ensures ParseLed(ts, f, k) == Success((Call(f, es, trailing), j))
  {
  }

  lemma MethodCallParses(ts: seq<Token>, o: Tree, k: nat, x: string, es: Trees, trailing: bool, j: nat)
    requires TokenAt(ts, k) == Name(x) && Is(ts, k + 1, LeftParen)
    requires ParseArguments(ts, k + 2, 0) == Success((es, trailing, j))
    ensures ParseLed(ts, o, k) == Success((MethodCall(o, x, es, trailing), j))
  {
    assert OperatorTable(Name(x)).led == LedMemberCall;
    assert Advance(ts, k + 1, LeftParen) == Success(k + 2);
  }

  // ---- the induction on the tree ----

  /** A tree that stands in the tokens is what the parser has after reading them. */
  lemma {:induction false} TreeParses(ts: seq<Token>, i: nat, p: nat, e: Tree, j: nat)
    requires Stands(ts, i, p, e, j)
    ensures j <= |ts| && Parse(ts, i, p) == ParseLoop(ts, e, j, p)
    decreases e, 2
  {
    match e
    case Leaf(t) => LeafParses(ts, i, p, e, j);
    case Tagged(tag, t) => LeafParses(ts, i, p, e, j);
    case Prefix(op, a) => PrefixTree(ts, i, p, e, j);
    case Postfix(a, op) => PostfixTree(ts, i, p, e, j);
    case Binary(_, _, _) => OperandTree(ts, i, p, e, j);
    case Assignment(_, _, _) => OperandTree(ts, i, p, e, j);
    case Ternary(_, _, _) => TernaryTree(ts, i, p, e, j);
    case Group(_) => GroupTree(ts, i, p, e, j);
    case Vector(_, _, _) => VectorTree(ts, i, p, e, j);
    case Member(_, _) => MemberTree(ts, i, p, e, j);
    case Index(_, _) => IndexTree(ts, i, p, e, j);
    case Call(_, _, _) => CallTree(ts, i, p, e, j);
    case MethodCall(_, _, _, _) => MethodCallTree(ts, i, p, e, j);
  }

  /** ... and what it returns, when the next operator does not bind tightly enough. */
  lemma {:induction false} WholeParses(ts: seq<Token>, i: nat, p: nat, e: Tree, j: nat)
    requires Whole(ts, i, p, e, j)
    ensures Parse(ts, i, p) == Success((e, j))
    decreases e, 3
  {
    TreeParses(ts, i, p, e, j);
    LoopStops(ts, e, j, p);
  }

  lemma LeafParses(ts: seq<Token>, i: nat, p: nat, e: Tree, j: nat)
    requires (e.Leaf? || e.Tagged?) && Stands(ts, i, p, e, j)
    ensures j <= |ts| && Parse(ts, i, p) == ParseLoop(ts, e, j, p)
  {
    NudStarts(ts, i, e, j, p);
  }

  lemma {:induction false} PrefixTree(ts: seq<Token>, i: nat, p: nat, e: Tree, j: nat)
    requires e.Prefix? && Stands(ts, i, p, e, j)
    ensures j <= |ts| && Parse(ts, i, p) == ParseLoop(ts, e, j, p)
    decreases e, 0
  {
    var q := Precedence(Sym(e.op));
    PrefixParts(ts, i, p, e.op, e.argument, q, j);
    WholeParses(ts, i + 1, q, e.argument, j);
    PrefixParses(ts, i, e.op, e.argument, q, j);
    NudStarts(ts, i, e, j, p);
  }

  lemma PrefixParts(ts: seq<Token>, i: nat, p: nat, op: Symbol, a: Tree, q: nat, j: nat)
    requires Stands(ts, i, p, Prefix(op, a), j) && q == Precedence(Sym(op))
    ensures Whole(ts, i + 1, q, a, j) && Is(ts, i, op) && OperatorTable(Sym(op)).nud == NudUnary
  {
  }

  lemma PrefixParses(ts: seq<Token>, i: nat, op: Symbol, a: Tree, q: nat, j: nat)
    requires Is(ts, i, op) && OperatorTable(Sym(op)).nud == NudUnary && q == Precedence(Sym(op))
    requires Parse(ts, i + 1, q) == Success((a, j))
    ensures ParseNud(ts, i) == Success((Prefix(op, a), j))
  {
  }

  lemma {:induction false} PostfixTree(ts: seq<Token>, i: nat, p: nat, e: Tree, j: nat)
    requires e.Postfix? && Stands(ts, i, p, e, j)
    ensures j <= |ts| && Parse(ts, i, p) == ParseLoop(ts, e, j, p)
    decreases e, 0
  {
    var k := End(e.argument, i);
    PostfixParts(ts, i, p, e, j, k);
    TreeParses(ts, i, p, e.argument, k);
    assert ParseLed(ts, e.argument, k) == Success((e, j));
    LoopSteps(ts, e.argument, k, e, j, p);
  }

  lemma {:induction false} OperandTree(ts: seq<Token>, i: nat, p: nat, e: Tree, j: nat)
    requires (e.Binary? || e.Assignment?) && Stands(ts, i, p, e, j)
    ensures j <= |ts| && Parse(ts, i, p) == ParseLoop(ts, e, j, p)
    decreases e, 0
  {
    var k := End(e.lhs, i);
    OperandParts(ts, i, p, e, j, k);
    TreeParses(ts, i, p, e.lhs, k);
    WholeParses(ts, k + 1, NextPrecedence(Sym(e.op)), e.rhs, j);
    OperandParses(ts, e.lhs, k, e.op, e.rhs, j, e.Binary?);
    LoopSteps(ts, e.lhs, k, e, j, p);
  }

  lemma {:induction false} TernaryTree(ts: seq<Token>, i: nat, p: nat, e: Tree, j: nat)
    requires e.Ternary? && Stands(ts, i, p, e, j)
    ensures j <= |ts| && Parse(ts, i, p) == ParseLoop(ts, e, j, p)
    decreases e, 1
  {
    var k := End(e.test, i);
    var m := End(e.consequent, k + 1);
    TernaryLeft(ts, i, p, e, j, k, m);
    TernaryRight(ts, i, p, e, j, k, m);
    LoopSteps(ts, e.test, k, e, j, p);
  }

  lemma {:induction false} TernaryLeft(ts: seq<Token>, i: nat, p: nat, e: Tree, j: nat, k: nat, m: nat)
    requires e.Ternary? && Stands(ts, i, p, e, j) && k == End(e.test, i) && m == End(e.consequent, k + 1)
    ensures k <= |ts| && Parse(ts, i, p) == ParseLoop(ts, e.test, k, p) && p < Precedence(TokenAt(ts, k))
    decreases e, 0
  {
    TernaryTest(ts, i, p, e, j, k, m);
    TreeParses(ts, i, p, e.test, k);
  }

  lemma {:induction false} TernaryRight(ts: seq<Token>, i: nat, p: nat, e: Tree, j: nat, k: nat, m: nat)
    requires e.Ternary? && Stands(ts, i, p, e, j) && k == End(e.test, i) && m == End(e.consequent, k + 1)
    ensures ParseLed(ts, e.test, k) == Success((e, j))
    decreases e, 0
  {
    TernarySides(ts, i, p, e, j, k, m);
    WholeParses(ts, k + 1, 0, e.consequent, m);
    WholeParses(ts, m + 1, 0, e.alternative, j);
    TernaryParses(ts, e.test, k, e.consequent, m, e.alternative, j);
  }

  lemma {:induction false} GroupTree(ts: seq<Token>, i: nat, p: nat, e: Tree, j: nat)
    requires e.Group? && Stands(ts, i, p, e, j)
    ensures j <= |ts| && Parse(ts, i, p) == ParseLoop(ts, e, j, p)
    decreases e, 0
  {
    var k := End(e.inner, i + 1);
    GroupParts(ts, i, p, e, j, k);
    WholeParses(ts, i + 1, 0, e.inner, k);
    GroupParses(ts, i, e.inner, k);
    NudStarts(ts, i, e, j, p);
  }

  lemma {:induction false} VectorTree(ts: seq<Token>, i: nat, p: nat, e: Tree, j: nat)
    requires e.Vector? && Stands(ts, i, p, e, j)
    ensures j <= |ts| && Parse(ts, i, p) == ParseLoop(ts, e, j, p)
    decreases e, 1
  {
    var k := End(e.x, i + 1);
    var m := End(e.y, k + 1);
    var n := End(e.z, m + 1);
    VectorSpelled(ts, i, p, e, k, m, n);
    ComponentsTree(ts, i, e, e.x, k, e.y, m, e.z, n);
    assert j == n + 1;
    NudStarts(ts, i, Vector(e.x, e.y, e.z), j, p);
  }

  lemma {:induction false} ComponentsTree(ts: seq<Token>, i: nat, e: Tree, x: Tree, k: nat, y: Tree, m: nat, z: Tree, n: nat)
    requires x < e && y < e && z < e && Is(ts, i, LeftParen)
    requires Shape(x, 0) && Shape(y, 0) && Shape(z, 0)
    requires Spells(x, ts, i + 1) && Spells(y, ts, k + 1) && Spells(z, ts, m + 1)
    requires k == End(x, i + 1) && m == End(y, k + 1) && n == End(z, m + 1)
    requires Is(ts, k, Comma) && Is(ts, m, Comma) && Is(ts, n, RightParen)
    ensures ParseNud(ts, i) == Success((Vector(x, y, z), n + 1))
    decreases e, 0
  {
    ComponentsWhole(ts, i, x, k, y, m, z, n);
    WholeParses(ts, i + 1, 0, x, k);
    WholeParses(ts, k + 1, 0, y, m);
    WholeParses(ts, m + 1, 0, z, n);
    VectorParses(ts, i, x, k, y, m, z, n);
  }

  lemma {:induction false} MemberTree(ts: seq<Token>, i: nat, p: nat, e: Tree, j: nat)
    requires e.Member? && Stands(ts, i, p, e, j)
    ensures j <= |ts| && Parse(ts, i, p) == ParseLoop(ts, e, j, p)
    decreases e, 0
  {
    var k := End(e.owner, i);
    MemberParts(ts, i, p, e, j, k);
    TreeParses(ts, i, p, e.owner, k);
    MemberParses(ts, e.owner, k);
    LoopSteps(ts, e.owner, k, e, j, p);
  }

  lemma {:induction false} IndexTree(ts: seq<Token>, i: nat, p: nat, e: Tree, j: nat)
    requires e.Index? && Stands(ts, i, p, e, j)
    ensures j <= |ts| && Parse(ts, i, p) == ParseLoop(ts, e, j, p)
    decreases e, 1, 1
  {
    var k := End(e.owner, i);
    var m := End(e.index, k + 1);
    IndexLeft(ts, i, p, e, j, k, m);
    IndexRight(ts, i, p, e, j, k, m);
    LoopSteps(ts, e.owner, k, e, j, p);
  }

  lemma {:induction false} IndexLeft(ts: seq<Token>, i: nat, p: nat, e: Tree, j: nat, k: nat, m: nat)
    requires e.Index? && Stands(ts, i, p, e, j) && k == End(e.owner, i) && m == End(e.index, k + 1)
    ensures k <= |ts| && Parse(ts, i, p) == ParseLoop(ts, e.owner, k, p) && p < Precedence(TokenAt(ts, k))
    decreases e, 0
  {
    IndexParts(ts, i, p, e, j, k, m);
    TreeParses(ts, i, p, e.owner, k);
  }

  lemma {:induction false} IndexRight(ts: seq<Token>, i: nat, p: nat, e: Tree, j: nat, k: nat, m: nat)
    requires e.Index? && Stands(ts, i, p, e, j) && k == End(e.owner, i) && m == End(e.index, k + 1)
    ensures ParseLed(ts, e.owner, k) == Success((e, j))
    decreases e, 1, 0
  {
    IndexParts(ts, i, p, e, j, k, m);
    IndexOperand(ts, e, e.owner, k, e.index, m);
  }

  lemma {:induction false} IndexOperand(ts: seq<Token>, e: Tree, o: Tree, k: nat, x: Tree, m: nat)
    requires x < e && Is(ts, k, LeftBracket) && Whole(ts, k + 1, 0, x, m) && Is(ts, m, RightBracket)
    ensures ParseLed(ts, o, k) == Success((Index(o, x), m + 1))
    decreases e, 0
  {
    WholeParses(ts, k + 1, 0, x, m);
    NoBracket(ts, k + 1);
    IndexParses(ts, o, k, x, m);
  }

  /** No modelled expression starts with a bracket. */
  lemma NoBracket(ts: seq<Token>, i: nat)
    requires Parse(ts, i, 0).Success?
    ensures !Is(ts, i, LeftBracket)
  {
  }

  lemma {:induction false} CallTree(ts: seq<Token>, i: nat, p: nat, e: Tree, j: nat)
    requires e.Call? && Stands(ts, i, p, e, j)
    ensures j <= |ts| && Parse(ts, i, p) == ParseLoop(ts, e, j, p)
    decreases e, 0
  {
    var k := End(e.callee, i);
    CallParts(ts, i, p, e, j, k);
    TreeParses(ts, i, p, e.callee, k);
    ArgumentsTree(ts, k + 1, 0, e.arguments, e.trailing, j);
    CallParses(ts, e.callee, k, e.arguments, e.trailing, j);
    LoopSteps(ts, e.callee, k, e, j, p);
  }

  lemma {:induction false} MethodCallTree(ts: seq<Token>, i: nat, p: nat, e: Tree, j: nat)
    requires e.MethodCall? && Stands(ts, i, p, e, j)
    ensures j <= |ts| && Parse(ts, i, p) == ParseLoop(ts, e, j, p)
    decreases e, 0
  {
    var k := End(e.owner, i);
    MethodCallParts(ts, i, p, e, j, k);
    TreeParses(ts, i, p, e.owner, k);
    ArgumentsTree(ts, k + 2, 0, e.arguments, e.trailing, j);
    MethodCallParses(ts, e.owner, k, e.name, e.arguments, e.trailing, j);
    LoopSteps(ts, e.owner, k, e, j, p);
  }

  lemma {:induction false} ArgumentsTree(ts: seq<Token>, i: nat, n: nat, es: Trees, trailing: bool, j: nat)
    requires ShapeAll(es) && SpellsArguments(es, trailing, ts, i) && j == ArgumentsEnd(es, trailing, i)
    requires Count(es) + n <= MAX_ARGUMENTS && (es.Nil? ==> trailing == (n > 0))
    ensures ParseArguments(ts, i, n) == Success((es, trailing, j))
    decreases es, 3
  {
    if es.Cons? {
      var k := End(es.head, i);
      InnerWhole(ts, i, es.head, k, if es.tail.Cons? || trailing then Comma else RightParen);
      WholeParses(ts, i, 0, es.head, k);
      if es.tail.Cons? || trailing {
        ArgumentsTree(ts, k + 1, n + 1, es.tail, trailing, j);
        MoreParse(ts, i, n, es.head, k, es.tail, trailing, j);
      } else {
        LastParses(ts, i, n, es.head, k);
      }
    }
  }

  /** No expression starts with a closing parenthesis. */
  lemma MoreParse(ts: seq<Token>, i: nat, n: nat, e: Tree, k: nat, rest: Trees, trailing: bool, j: nat)
    requires Parse(ts, i, 0) == Success((e, k)) && n < MAX_ARGUMENTS && Is(ts, k, Comma)
    requires ParseArguments(ts, k + 1, n + 1) == Success((rest, trailing, j))
    ensures ParseArguments(ts, i, n) == Success((Cons(e, rest), trailing, j))
  {
    NoParen(ts, i);
  }

  lemma LastParses(ts: seq<Token>, i: nat, n: nat, e: Tree, k: nat)
    requires Parse(ts, i, 0) == Success((e, k)) && n < MAX_ARGUMENTS && Is(ts, k, RightParen)
    ensures ParseArguments(ts, i, n) == Success((Cons(e, Nil), false, k + 1))
  {
    NoParen(ts, i);
    assert Advance(ts, k, RightParen) == Success(k + 1);
  }

  lemma NoParen(ts: seq<Token>, i: nat)
    requires Parse(ts, i, 0).Success?
    ensures !Is(ts, i, RightParen)
  {
  }

  // ---- the parser is exact ----

  /**
   * Parsing with precedence `p` returns a tree exactly when the tree is one that the table
   * demands for `p`, its tokens are the ones consumed, and what follows neither binds tighter
   * than `p` nor belongs to an operand at the right edge.
   */
  lemma ParserIsExact(ts: seq<Token>, i: nat, p: nat, e: Tree, j: nat)
    ensures Parse(ts, i, p) == Success((e, j)) <==> Whole(ts, i, p, e, j)
  {
    if Parse(ts, i, p) == Success((e, j)) {
      ParseSound(ts, i, p);
    }
    if Whole(ts, i, p, e, j) {
      WholeParses(ts, i, p, e, j);
    }
  }
}
