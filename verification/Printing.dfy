/** Printing trees with parentheses where the table demands them, and reading them back. */
module Printing {
  import opened Wrappers
  import opened Operators
  import opened Trees
  import opened Pratt
  import opened Parsing
  import opened Accepting

  // ---- the tokens of a tree ----

  function Show(e: Tree): seq<Token> {
    match e
    case Leaf(t) => [t]
    case Tagged(tag, t) => [Sym(tag)] + [t]
    case Prefix(op, a) => [Sym(op)] + Show(a)
    case Postfix(a, op) => Show(a) + [Sym(op)]
    case Binary(l, op, r) => Show(l) + ([Sym(op)] + Show(r))
    case Assignment(l, op, r) => Show(l) + ([Sym(op)] + Show(r))
    case Ternary(t, a, b) => Show(t) + ([Sym(Question)] + (Show(a) + ([Sym(Colon)] + Show(b))))
    case Group(x) => [Sym(LeftParen)] + (Show(x) + [Sym(RightParen)])
    case Vector(x, y, z) =>
      [Sym(LeftParen)] + (Show(x) + ([Sym(Comma)] + (Show(y) + ([Sym(Comma)] + (Show(z) + [Sym(RightParen)])))))
    case Member(o, x) => Show(o) + ([Sym(Dot)] + Show(x))
    case Index(o, x) => Show(o) + ([Sym(LeftBracket)] + (Show(x) + [Sym(RightBracket)]))
    case Call(f, es, trailing) => Show(f) + ([Sym(LeftParen)] + ShowArguments(es, trailing))
    case MethodCall(o, x, es, trailing) => Show(o) + ([Name(x)] + ([Sym(LeftParen)] + ShowArguments(es, trailing)))
  }

  function ShowArguments(es: Trees, trailing: bool): seq<Token> {
    match es
    case Nil => [Sym(RightParen)]
    case Cons(e, rest) =>
      Show(e) + if rest.Cons? || trailing then [Sym(Comma)] + ShowArguments(rest, trailing) else [Sym(RightParen)]
  }

  /** The tokens `s` stand at `i`. */
  predicate Stand(ts: seq<Token>, i: nat, s: seq<Token>) {
    i + |s| <= |ts| && ts[i..i + |s|] == s
  }

  lemma StandIff(ts: seq<Token>, i: nat, a: seq<Token>, b: seq<Token>, j: nat)
    requires j == i + |a|
    ensures Stand(ts, i, a + b) <==> Stand(ts, i, a) && Stand(ts, j, b)
  {
    if Stand(ts, i, a + b) {
      var s := ts[i..i + |a| + |b|];
      assert s == a + b;
      assert ts[i..i + |a|] == s[..|a|] == a;
      assert ts[j..j + |b|] == s[|a|..] == b;
    }
    if Stand(ts, i, a) && Stand(ts, j, b) {
      assert ts[i..i + |a + b|] == ts[i..j] + ts[j..j + |b|];
    }
  }

  lemma StandOne(ts: seq<Token>, i: nat, t: Token)
    requires t != Sym(Other)
    ensures Stand(ts, i, [t]) <==> TokenAt(ts, i) == t
  {
    if TokenAt(ts, i) == t {
      assert ts[i..i + 1] == [t];
    } else if i < |ts| {
      assert ts[i..i + 1][0] == ts[i];
    }
  }

  /** A token, and then more. */
  lemma StandFirst(ts: seq<Token>, i: nat, t: Token, s: seq<Token>)
    requires t != Sym(Other)
    ensures Stand(ts, i, [t] + s) <==> TokenAt(ts, i) == t && Stand(ts, i + 1, s)
  {
    StandIff(ts, i, [t], s, i + 1);
    StandOne(ts, i, t);
  }

  /** No token of the tree is one that the table does not list. */
  predicate Listed(e: Tree) {
    match e
    case Leaf(t) => t != Sym(Other)
    case Tagged(tag, t) => tag != Other && t != Sym(Other)
    case Prefix(op, a) => op != Other && Listed(a)
    case Postfix(a, op) => op != Other && Listed(a)
    case Binary(l, op, r) => op != Other && Listed(l) && Listed(r)
    case Assignment(l, op, r) => op != Other && Listed(l) && Listed(r)
    case Ternary(t, a, b) => Listed(t) && Listed(a) && Listed(b)
    case Group(x) => Listed(x)
    case Vector(x, y, z) => Listed(x) && Listed(y) && Listed(z)
    case Member(o, x) => Listed(o) && Listed(x)
    case Index(o, x) => Listed(o) && Listed(x)
    case Call(f, es, _) => Listed(f) && ListedAll(es)
    case MethodCall(o, _, es, _) => Listed(o) && ListedAll(es)
  }

  predicate ListedAll(es: Trees) {
    match es case Nil => true case Cons(e, rest) => Listed(e) && ListedAll(rest)
  }

  ghost predicate Shown(e: Tree, ts: seq<Token>, i: nat) {
    End(e, i) == i + |Show(e)| && (Spells(e, ts, i) <==> Stand(ts, i, Show(e)))
  }

  /** Spelling a tree is having its tokens. */
  lemma {:induction false} SpellsIffShown(e: Tree, ts: seq<Token>, i: nat)
    requires Listed(e)
    ensures Shown(e, ts, i)
    decreases e, 5
  {
    match e
    case Leaf(_) => LeafShown(e, ts, i);
    case Tagged(_, _) => LeafShown(e, ts, i);
    case Prefix(_, _) => PrefixShown(e, ts, i);
    case Postfix(_, _) => PostfixShown(e, ts, i);
    case Binary(_, _, _) => OperandsShown(e, ts, i);
    case Assignment(_, _, _) => OperandsShown(e, ts, i);
    case Ternary(_, _, _) => TernaryShown(e, ts, i);
    case Group(_) => GroupShown(e, ts, i);
    case Vector(_, _, _) => VectorShown(e, ts, i);
    case Member(_, _) => MemberShown(e, ts, i);
    case Index(_, _) => IndexShown(e, ts, i);
    case Call(_, _, _) => CallShown(e, ts, i);
    case MethodCall(_, _, _, _) => MethodCallShown(e, ts, i);
  }

  lemma LeafShown(e: Tree, ts: seq<Token>, i: nat)
    requires (e.Leaf? || e.Tagged?) && Listed(e)
    ensures Shown(e, ts, i)
  {
    if e.Leaf? {
      StandOne(ts, i, e.token);
    } else {
      StandFirst(ts, i, Sym(e.tag), [e.token]);
      StandOne(ts, i + 1, e.token);
    }
  }

  lemma {:induction false} PrefixShown(e: Tree, ts: seq<Token>, i: nat)
    requires e.Prefix? && Listed(e)
    ensures Shown(e, ts, i)
    decreases e, 1
  {
    SpellsIffShown(e.argument, ts, i + 1);
    StandFirst(ts, i, Sym(e.op), Show(e.argument));
  }

  lemma {:induction false} OperandsShown(e: Tree, ts: seq<Token>, i: nat)
    requires (e.Binary? || e.Assignment?) && Listed(e)
    ensures Shown(e, ts, i)
    decreases e, 2
  {
    var s := Show(e.lhs) + ([Sym(e.op)] + Show(e.rhs));
    InfixShown(e.lhs, Sym(e.op), e.rhs, ts, i, End(e.lhs, i), s, e);
    OperandsAre(e, s, End(e.lhs, i), ts, i);
  }

  lemma OperandsAre(e: Tree, s: seq<Token>, j: nat, ts: seq<Token>, i: nat)
    requires (e.Binary? || e.Assignment?) && s == Show(e.lhs) + ([Sym(e.op)] + Show(e.rhs)) && j == End(e.lhs, i)
    ensures Show(e) == s && End(e, i) == End(e.rhs, j + 1)
    ensures Spells(e, ts, i) <==> Spells(e.lhs, ts, i) && TokenAt(ts, j) == Sym(e.op) && Spells(e.rhs, ts, j + 1)
  {
  }

  lemma {:induction false} MemberShown(e: Tree, ts: seq<Token>, i: nat)
    requires e.Member? && Listed(e)
    ensures Shown(e, ts, i)
    decreases e, 2
  {
    InfixShown(e.owner, Sym(Dot), e.property, ts, i, End(e.owner, i), Show(e.owner) + ([Sym(Dot)] + Show(e.property)), e);
    MemberIs(e, ts, i, End(e.owner, i));
  }

  lemma MemberIs(e: Tree, ts: seq<Token>, i: nat, j: nat)
    requires e.Member? && j == End(e.owner, i)
    ensures Show(e) == Show(e.owner) + ([Sym(Dot)] + Show(e.property)) && End(e, i) == End(e.property, j + 1)
    ensures Spells(e, ts, i) <==> Spells(e.owner, ts, i) && Is(ts, j, Dot) && Spells(e.property, ts, j + 1)
  {
  }

  lemma {:induction false} GroupShown(e: Tree, ts: seq<Token>, i: nat)
    requires e.Group? && Listed(e)
    ensures Shown(e, ts, i)
    decreases e, 2
  {
    BracketShown(e.inner, Sym(LeftParen), [Sym(RightParen)], ts, i, e);
    StandOne(ts, End(e.inner, i + 1), Sym(RightParen));
  }

  lemma {:induction false} PostfixShown(e: Tree, ts: seq<Token>, i: nat)
    requires e.Postfix? && Listed(e)
    ensures Shown(e, ts, i)
    decreases e, 1
  {
    SpellsIffShown(e.argument, ts, i);
    StandIff(ts, i, Show(e.argument), [Sym(e.op)], End(e.argument, i));
    StandOne(ts, End(e.argument, i), Sym(e.op));
  }

  /** A tree, a token, a tree. */
  lemma {:induction false} InfixShown(l: Tree, t: Token, r: Tree, ts: seq<Token>, i: nat, j: nat, s: seq<Token>, e: Tree)
    requires l < e && r < e && Listed(l) && Listed(r) && t != Sym(Other)
    requires j == End(l, i) && s == Show(l) + ([t] + Show(r))
    ensures End(r, j + 1) == i + |s|
    ensures Stand(ts, i, s) <==> Spells(l, ts, i) && TokenAt(ts, j) == t && Spells(r, ts, j + 1)
    decreases e, 1
  {
    var rest := [t] + Show(r);
    SpellsIffShown(l, ts, i);
    LastShown(r, t, rest, ts, j, e);
    StandIff(ts, i, Show(l), rest, j);
  }

  /** A token, a tree, and then more. */
  lemma {:induction false} BracketShown(x: Tree, t: Token, s: seq<Token>, ts: seq<Token>, i: nat, e: Tree)
    requires x < e && Listed(x) && t != Sym(Other)
    ensures var j := End(x, i + 1);
            && j == i + 1 + |Show(x)|
            && (Stand(ts, i, [t] + (Show(x) + s)) <==> TokenAt(ts, i) == t && Spells(x, ts, i + 1) && Stand(ts, j, s))
    decreases e, 0
  {
    var j := End(x, i + 1);
    SpellsIffShown(x, ts, i + 1);
    StandFirst(ts, i, t, Show(x) + s);
    StandIff(ts, i + 1, Show(x), s, j);
  }

  lemma {:induction false} TernaryShown(e: Tree, ts: seq<Token>, i: nat)
    requires e.Ternary? && Listed(e)
    ensures Shown(e, ts, i)
    decreases e, 3
  {
    var j, k := End(e.test, i), End(e.consequent, End(e.test, i) + 1);
    var s := [Sym(Question)] + (Show(e.consequent) + ([Sym(Colon)] + Show(e.alternative)));
    SpellsIffShown(e.test, ts, i);
    SidesShown(e.consequent, e.alternative, ts, j, k, s, e);
    StandIff(ts, i, Show(e.test), s, j);
    TernaryIs(e, s, ts, i, j, k);
  }

  lemma TernaryIs(e: Tree, s: seq<Token>, ts: seq<Token>, i: nat, j: nat, k: nat)
    requires e.Ternary? && j == End(e.test, i) && k == End(e.consequent, j + 1)
    requires s == [Sym(Question)] + (Show(e.consequent) + ([Sym(Colon)] + Show(e.alternative)))
    ensures Show(e) == Show(e.test) + s && End(e, i) == End(e.alternative, k + 1)
    ensures Spells(e, ts, i) <==>
            Spells(e.test, ts, i) && Is(ts, j, Question) && Spells(e.consequent, ts, j + 1)
            && Is(ts, k, Colon) && Spells(e.alternative, ts, k + 1)
  {
    TernaryShows(e, s);
    TernaryRead(e, ts, i, j, k);
  }

  lemma TernaryRead(e: Tree, ts: seq<Token>, i: nat, j: nat, k: nat)
    requires e.Ternary? && j == End(e.test, i) && k == End(e.consequent, j + 1)
    ensures Spells(e, ts, i) <==>
            Spells(e.test, ts, i) && Is(ts, j, Question) && Spells(e.consequent, ts, j + 1)
            && Is(ts, k, Colon) && Spells(e.alternative, ts, k + 1)
  {
  }

  lemma TernaryShows(e: Tree, s: seq<Token>)
    requires e.Ternary? && s == [Sym(Question)] + (Show(e.consequent) + ([Sym(Colon)] + Show(e.alternative)))
    ensures Show(e) == Show(e.test) + s
  {
  }

  lemma {:induction false} SidesShown(a: Tree, b: Tree, ts: seq<Token>, j: nat, k: nat, s: seq<Token>, e: Tree)
    requires a < e && b < e && Listed(a) && Listed(b) && k == End(a, j + 1)
    requires s == [Sym(Question)] + (Show(a) + ([Sym(Colon)] + Show(b)))
    ensures End(b, k + 1) == j + |s|
    ensures Stand(ts, j, s) <==>
            Is(ts, j, Question) && Spells(a, ts, j + 1) && Is(ts, k, Colon) && Spells(b, ts, k + 1)
    decreases e, 2
  {
    var rest := [Sym(Colon)] + Show(b);
    BracketShown(a, Sym(Question), rest, ts, j, e);
    LastShown(b, Sym(Colon), rest, ts, k, e);
  }

  /** A symbol and then the last part. */
  lemma {:induction false} LastShown(b: Tree, t: Token, s: seq<Token>, ts: seq<Token>, k: nat, e: Tree)
    requires b < e && Listed(b) && t != Sym(Other) && s == [t] + Show(b)
    ensures End(b, k + 1) == k + |s| && (Stand(ts, k, s) <==> TokenAt(ts, k) == t && Spells(b, ts, k + 1))
    decreases e, 0
  {
    SpellsIffShown(b, ts, k + 1);
    StandFirst(ts, k, t, Show(b));
  }

  lemma {:induction false} VectorShown(e: Tree, ts: seq<Token>, i: nat)
    requires e.Vector? && Listed(e)
    ensures Shown(e, ts, i)
    decreases e, 3
  {
    var j, k := End(e.x, i + 1), End(e.y, End(e.x, i + 1) + 1);
    var s := [Sym(Comma)] + (Show(e.y) + ([Sym(Comma)] + (Show(e.z) + [Sym(RightParen)])));
    ComponentsShown(e.y, e.z, ts, j, k, s, e);
    BracketShown(e.x, Sym(LeftParen), s, ts, i, e);
    VectorIs(e, s, ts, i, j, k);
  }

  lemma VectorIs(e: Tree, s: seq<Token>, ts: seq<Token>, i: nat, j: nat, k: nat)
    requires e.Vector? && j == End(e.x, i + 1) && k == End(e.y, j + 1)
    requires s == [Sym(Comma)] + (Show(e.y) + ([Sym(Comma)] + (Show(e.z) + [Sym(RightParen)])))
    ensures Show(e) == [Sym(LeftParen)] + (Show(e.x) + s) && End(e, i) == End(e.z, k + 1) + 1
    ensures Spells(e, ts, i) <==>
            Is(ts, i, LeftParen) && Spells(e.x, ts, i + 1) && Is(ts, j, Comma) && Spells(e.y, ts, j + 1)
            && Is(ts, k, Comma) && Spells(e.z, ts, k + 1) && Is(ts, End(e.z, k + 1), RightParen)
  {
    VectorShows(e, s);
  }

  lemma VectorShows(e: Tree, s: seq<Token>)
    requires e.Vector?
    requires s == [Sym(Comma)] + (Show(e.y) + ([Sym(Comma)] + (Show(e.z) + [Sym(RightParen)])))
    ensures Show(e) == [Sym(LeftParen)] + (Show(e.x) + s)
  {
  }

  lemma {:induction false} ComponentsShown(y: Tree, z: Tree, ts: seq<Token>, j: nat, k: nat, s: seq<Token>, e: Tree)
    requires y < e && z < e && Listed(y) && Listed(z) && k == End(y, j + 1)
    requires s == [Sym(Comma)] + (Show(y) + ([Sym(Comma)] + (Show(z) + [Sym(RightParen)])))
    ensures End(z, k + 1) + 1 == j + |s|
    ensures Stand(ts, j, s) <==>
            Is(ts, j, Comma) && Spells(y, ts, j + 1) && Is(ts, k, Comma) && Spells(z, ts, k + 1)
            && Is(ts, End(z, k + 1), RightParen)
    decreases e, 2
  {
    BracketShown(y, Sym(Comma), [Sym(Comma)] + (Show(z) + [Sym(RightParen)]), ts, j, e);
    ThirdShown(z, ts, k, e);
  }

  lemma {:induction false} ThirdShown(z: Tree, ts: seq<Token>, k: nat, e: Tree)
    requires z < e && Listed(z)
    ensures var s := [Sym(Comma)] + (Show(z) + [Sym(RightParen)]);
            && End(z, k + 1) + 1 == k + |s|
            && (Stand(ts, k, s) <==> Is(ts, k, Comma) && Spells(z, ts, k + 1) && Is(ts, End(z, k + 1), RightParen))
    decreases e, 1
  {
    BracketShown(z, Sym(Comma), [Sym(RightParen)], ts, k, e);
    StandOne(ts, End(z, k + 1), Sym(RightParen));
  }

  lemma {:induction false} IndexShown(e: Tree, ts: seq<Token>, i: nat)
    requires e.Index? && Listed(e)
    ensures Shown(e, ts, i)
    decreases e, 2
  {
    var j := End(e.owner, i);
    var last := [Sym(RightBracket)];
    SpellsIffShown(e.owner, ts, i);
    StandIff(ts, i, Show(e.owner), [Sym(LeftBracket)] + (Show(e.index) + last), j);
    BracketShown(e.index, Sym(LeftBracket), last, ts, j, e);
    StandOne(ts, End(e.index, j + 1), Sym(RightBracket));
  }

  lemma {:induction false} CallShown(e: Tree, ts: seq<Token>, i: nat)
    requires e.Call? && Listed(e)
    ensures Shown(e, ts, i)
    decreases e, 1
  {
    var j, args := End(e.callee, i), ShowArguments(e.arguments, e.trailing);
    SpellsIffShown(e.callee, ts, i);
    ArgumentsShown(e.arguments, e.trailing, ts, j + 1);
    StandIff(ts, i, Show(e.callee), [Sym(LeftParen)] + args, j);
    StandFirst(ts, j, Sym(LeftParen), args);
  }

  lemma {:induction false} MethodCallShown(e: Tree, ts: seq<Token>, i: nat)
    requires e.MethodCall? && Listed(e)
    ensures Shown(e, ts, i)
    decreases e, 1
  {
    var j, args := End(e.owner, i), ShowArguments(e.arguments, e.trailing);
    SpellsIffShown(e.owner, ts, i);
    ArgumentsShown(e.arguments, e.trailing, ts, j + 2);
    StandIff(ts, i, Show(e.owner), [Name(e.name)] + ([Sym(LeftParen)] + args), j);
    NameAndParen(ts, j, e.name, args);
  }

  lemma NameAndParen(ts: seq<Token>, j: nat, x: string, args: seq<Token>)
    ensures Stand(ts, j, [Name(x)] + ([Sym(LeftParen)] + args)) <==>
            TokenAt(ts, j) == Name(x) && Is(ts, j + 1, LeftParen) && Stand(ts, j + 2, args)
  {
    StandFirst(ts, j, Name(x), [Sym(LeftParen)] + args);
    StandFirst(ts, j + 1, Sym(LeftParen), args);
  }

  lemma {:induction false} ArgumentsShown(es: Trees, trailing: bool, ts: seq<Token>, i: nat)
    requires ListedAll(es)
    ensures ArgumentsEnd(es, trailing, i) == i + |ShowArguments(es, trailing)|
    ensures SpellsArguments(es, trailing, ts, i) <==> Stand(ts, i, ShowArguments(es, trailing))
    decreases es, 0
  {
    if es.Nil? {
      StandOne(ts, i, Sym(RightParen));
    } else {
      var j := End(es.head, i);
      SpellsIffShown(es.head, ts, i);
      if es.tail.Cons? || trailing {
        ArgumentsShown(es.tail, trailing, ts, j + 1);
        MoreArgumentsShown(es, trailing, ts, i, j);
      } else {
        LastArgumentShown(es, ts, i, j);
      }
    }
  }

  lemma MoreArgumentsShown(es: Trees, trailing: bool, ts: seq<Token>, i: nat, j: nat)
    requires es.Cons? && (es.tail.Cons? || trailing) && j == End(es.head, i) == i + |Show(es.head)|
    requires Spells(es.head, ts, i) <==> Stand(ts, i, Show(es.head))
    requires ArgumentsEnd(es.tail, trailing, j + 1) == j + 1 + |ShowArguments(es.tail, trailing)|
    requires SpellsArguments(es.tail, trailing, ts, j + 1) <==> Stand(ts, j + 1, ShowArguments(es.tail, trailing))
    ensures ArgumentsEnd(es, trailing, i) == i + |ShowArguments(es, trailing)|
    ensures SpellsArguments(es, trailing, ts, i) <==> Stand(ts, i, ShowArguments(es, trailing))
  {
    StandIff(ts, i, Show(es.head), [Sym(Comma)] + ShowArguments(es.tail, trailing), j);
    StandFirst(ts, j, Sym(Comma), ShowArguments(es.tail, trailing));
  }

  lemma LastArgumentShown(es: Trees, ts: seq<Token>, i: nat, j: nat)
    requires es.Cons? && es.tail.Nil? && j == End(es.head, i) == i + |Show(es.head)|
    requires Spells(es.head, ts, i) <==> Stand(ts, i, Show(es.head))
    ensures ArgumentsEnd(es, false, i) == i + |ShowArguments(es, false)|
    ensures SpellsArguments(es, false, ts, i) <==> Stand(ts, i, ShowArguments(es, false))
  {
    StandIff(ts, i, Show(es.head), [Sym(RightParen)], j);
    StandOne(ts, j, Sym(RightParen));
  }
}
