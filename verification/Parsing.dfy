/**
 * What the parser accepts. Parsing succeeds exactly on the trees that the operator table demands,
 * with exactly their tokens, and stops at the first operator that does not bind tightly enough.
 */
module Parsing {
  import opened Wrappers
  import opened Operators
  import opened Trees
  import opened Pratt

  /** The tree stands at `i`, may be parsed with `p`, and leaves the token at `j` to what is around it. */
  ghost predicate Stands(ts: seq<Token>, i: nat, p: nat, e: Tree, j: nat) {
    Shape(e, p) && Spells(e, ts, i) && j == End(e, i) && Precedence(TokenAt(ts, j)) <= RightEdge(e)
  }

  /** What a successful parse with precedence `q` says about its tree. */
  ghost predicate Whole(ts: seq<Token>, i: nat, q: nat, e: Tree, j: nat) {
    Stands(ts, i, q, e, j) && Precedence(TokenAt(ts, j)) <= q
  }

  // ---- larger trees from smaller ones ----

  lemma BinaryStands(ts: seq<Token>, i: nat, p: nat, l: Tree, j: nat, op: Symbol, r: Tree, k: nat)
    requires HasLed(op, LedBinary) && Stands(ts, i, p, l, j) && Is(ts, j, op) && p < Precedence(Sym(op))
    requires Whole(ts, j + 1, NextPrecedence(Sym(op)), r, k)
    ensures Stands(ts, i, p, Binary(l, op, r), k)
  {
    var q := NextPrecedence(Sym(op));
    BinaryShape(p, l, op, r, TokenAt(ts, j), q);
    OperandSpells(ts, i, l, j, op, r, k, q);
  }

  lemma BinaryShape(p: nat, l: Tree, op: Symbol, r: Tree, t: Token, q: int)
    requires HasLed(op, LedBinary) && t == Sym(op) && Shape(l, p) && p < Precedence(t) <= RightEdge(l)
    requires q == NextPrecedence(t) && Shape(r, q)
    ensures Shape(Binary(l, op, r), p)
  {
  }

  /** What both kinds of infix operators spell, and how loose they are at the right. */
  lemma OperandSpells(ts: seq<Token>, i: nat, l: Tree, j: nat, op: Symbol, r: Tree, k: nat, q: int)
    requires Spells(l, ts, i) && j == End(l, i) && Is(ts, j, op) && Spells(r, ts, j + 1) && k == End(r, j + 1)
    requires q == NextPrecedence(Sym(op)) && Precedence(TokenAt(ts, k)) <= q && Precedence(TokenAt(ts, k)) <= RightEdge(r)
    ensures Spells(Binary(l, op, r), ts, i) && k == End(Binary(l, op, r), i)
    ensures Spells(Assignment(l, op, r), ts, i) && k == End(Assignment(l, op, r), i)
    ensures Precedence(TokenAt(ts, k)) <= RightEdge(Binary(l, op, r)) == RightEdge(Assignment(l, op, r))
  {
  }

  lemma AssignmentStands(ts: seq<Token>, i: nat, p: nat, l: Tree, j: nat, op: Symbol, r: Tree, k: nat)
    requires HasLed(op, LedAssignment) && Stands(ts, i, p, l, j) && Is(ts, j, op) && p < Precedence(Sym(op))
    requires Whole(ts, j + 1, NextPrecedence(Sym(op)), r, k)
    ensures Stands(ts, i, p, Assignment(l, op, r), k)
  {
    var q := NextPrecedence(Sym(op));
    AssignmentShape(p, l, op, r, TokenAt(ts, j), q);
    OperandSpells(ts, i, l, j, op, r, k, q);
  }

  lemma AssignmentShape(p: nat, l: Tree, op: Symbol, r: Tree, t: Token, q: int)
    requires HasLed(op, LedAssignment) && t == Sym(op) && Shape(l, p) && p < Precedence(t) <= RightEdge(l)
    requires q == NextPrecedence(t) && Shape(r, q)
    ensures Shape(Assignment(l, op, r), p)
  {
  }

  lemma TernaryStands(ts: seq<Token>, i: nat, p: nat, t: Tree, j: nat, a: Tree, k: nat, b: Tree, m: nat)
    requires Stands(ts, i, p, t, j) && Is(ts, j, Question) && p < Precedence(Sym(Question))
    requires Whole(ts, j + 1, 0, a, k) && Is(ts, k, Colon) && Whole(ts, k + 1, 0, b, m)
    ensures Stands(ts, i, p, Ternary(t, a, b), m)
  {
    TernaryShape(p, t, a, b, TokenAt(ts, j));
    TernarySpells(ts, i, t, j, a, k, b, m);
  }

  lemma TernaryShape(p: nat, t: Tree, a: Tree, b: Tree, q: Token)
    requires Shape(t, p) && q == Sym(Question) && p < Precedence(q) <= RightEdge(t) && Shape(a, 0) && Shape(b, 0)
    ensures Shape(Ternary(t, a, b), p)
  {
  }

  lemma TernarySpells(ts: seq<Token>, i: nat, t: Tree, j: nat, a: Tree, k: nat, b: Tree, m: nat)
    requires Spells(t, ts, i) && j == End(t, i) && Is(ts, j, Question) && Spells(a, ts, j + 1) && k == End(a, j + 1)
    requires Is(ts, k, Colon) && Spells(b, ts, k + 1) && m == End(b, k + 1)
    requires Precedence(TokenAt(ts, m)) <= 0 && Precedence(TokenAt(ts, m)) <= RightEdge(b)
    ensures Spells(Ternary(t, a, b), ts, i) && m == End(Ternary(t, a, b), i)
    ensures Precedence(TokenAt(ts, m)) <= RightEdge(Ternary(t, a, b))
  {
  }

  lemma GroupStands(ts: seq<Token>, i: nat, p: nat, x: Tree, j: nat)
    requires Is(ts, i, LeftParen) && Whole(ts, i + 1, 0, x, j) && Is(ts, j, RightParen)
    ensures Stands(ts, i, p, Group(x), j + 1)
  {
    Loose(TokenAt(ts, j + 1));
  }

  lemma VectorStands(ts: seq<Token>, i: nat, p: nat, x: Tree, j: nat, y: Tree, k: nat, z: Tree, m: nat)
    requires Is(ts, i, LeftParen) && Whole(ts, i + 1, 0, x, j) && Is(ts, j, Comma)
    requires Whole(ts, j + 1, 0, y, k) && Is(ts, k, Comma) && Whole(ts, k + 1, 0, z, m) && Is(ts, m, RightParen)
    ensures Stands(ts, i, p, Vector(x, y, z), m + 1)
  {
    VectorShape(p, x, y, z);
    VectorSpells(ts, i, x, j, y, k, z, m);
    Loose(TokenAt(ts, m + 1));
  }

  lemma VectorShape(p: nat, x: Tree, y: Tree, z: Tree)
    requires Shape(x, 0) && Shape(y, 0) && Shape(z, 0)
    ensures Shape(Vector(x, y, z), p) && RightEdge(Vector(x, y, z)) == TOP
  {
  }

  lemma VectorSpells(ts: seq<Token>, i: nat, x: Tree, j: nat, y: Tree, k: nat, z: Tree, m: nat)
    requires Is(ts, i, LeftParen) && Spells(x, ts, i + 1) && j == End(x, i + 1) && Is(ts, j, Comma)
    requires Spells(y, ts, j + 1) && k == End(y, j + 1) && Is(ts, k, Comma)
    requires Spells(z, ts, k + 1) && m == End(z, k + 1) && Is(ts, m, RightParen)
    ensures Spells(Vector(x, y, z), ts, i) && m + 1 == End(Vector(x, y, z), i)
  {
    VectorEnd(i, x, y, z);
  }

  lemma VectorEnd(i: nat, x: Tree, y: Tree, z: Tree)
    ensures End(Vector(x, y, z), i) == End(z, End(y, End(x, i + 1) + 1) + 1) + 1
  {
  }

  lemma IndexStands(ts: seq<Token>, i: nat, p: nat, o: Tree, j: nat, x: Tree, k: nat)
    requires Stands(ts, i, p, o, j) && Is(ts, j, LeftBracket) && p < Precedence(Sym(LeftBracket))
    requires Whole(ts, j + 1, 0, x, k) && Is(ts, k, RightBracket)
    ensures Stands(ts, i, p, Index(o, x), k + 1)
  {
    IndexShape(p, o, x, TokenAt(ts, j));
    IndexSpells(ts, i, o, j, x, k);
    Loose(TokenAt(ts, k + 1));
  }

  lemma IndexShape(p: nat, o: Tree, x: Tree, q: Token)
    requires Shape(o, p) && q == Sym(LeftBracket) && p < Precedence(q) <= RightEdge(o) && Shape(x, 0)
    ensures Shape(Index(o, x), p) && RightEdge(Index(o, x)) == TOP
  {
  }

  lemma IndexSpells(ts: seq<Token>, i: nat, o: Tree, j: nat, x: Tree, k: nat)
    requires Spells(o, ts, i) && j == End(o, i) && Is(ts, j, LeftBracket) && Spells(x, ts, j + 1) && k == End(x, j + 1)
    requires Is(ts, k, RightBracket)
    ensures Spells(Index(o, x), ts, i) && k + 1 == End(Index(o, x), i)
  {
  }

  /** Arguments from `i` up to the position after the closing parenthesis. */
  ghost predicate ArgumentsStand(ts: seq<Token>, i: nat, es: Trees, trailing: bool, j: nat) {
    && ShapeAll(es) && SpellsArguments(es, trailing, ts, i) && j == ArgumentsEnd(es, trailing, i)
    && Count(es) <= MAX_ARGUMENTS && (trailing ==> es.Cons?)
  }

  lemma CallStands(ts: seq<Token>, i: nat, p: nat, f: Tree, j: nat, es: Trees, trailing: bool, k: nat)
    requires Stands(ts, i, p, f, j) && Is(ts, j, LeftParen) && p < Precedence(Sym(LeftParen))
    requires ArgumentsStand(ts, j + 1, es, trailing, k)
    ensures Stands(ts, i, p, Call(f, es, trailing), k)
  {
    Loose(TokenAt(ts, k));
  }

  lemma MethodCallStands(ts: seq<Token>, i: nat, p: nat, o: Tree, j: nat, x: string, es: Trees, trailing: bool, k: nat)
    requires Stands(ts, i, p, o, j) && TokenAt(ts, j) == Name(x) && Is(ts, j + 1, LeftParen) && p < Precedence(Name(x))
    requires ArgumentsStand(ts, j + 2, es, trailing, k)
    ensures Stands(ts, i, p, MethodCall(o, x, es, trailing), k)
  {
    Loose(TokenAt(ts, k));
  }

  /** Nothing binds tighter than the right edge of a closed tree. */
  lemma Loose(t: Token)
    ensures Precedence(t) <= 80 < TOP
  {
  }

  // ---- everything the parser returns is such a tree ----

  lemma {:induction false} ParseSound(ts: seq<Token>, i: nat, p: nat)
    requires Parse(ts, i, p).Success?
    ensures var (e, j) := Parse(ts, i, p).value; Whole(ts, i, p, e, j)
    decreases Remaining(ts, i), 5
  {
    NudSound(ts, i, p);
    var (left, j) := ParseNud(ts, i).value;
    LoopSound(ts, i, left, j, p);
  }

  lemma {:induction false} LoopSound(ts: seq<Token>, i: nat, left: Tree, j: nat, p: nat)
    requires i < j <= |ts| && Stands(ts, i, p, left, j) && ParseLoop(ts, left, j, p).Success?
    ensures var (e, k) := ParseLoop(ts, left, j, p).value; Whole(ts, i, p, e, k)
    decreases Remaining(ts, j), 2
  {
    if p < Precedence(TokenAt(ts, j)) {
      LedSound(ts, i, left, j, p);
      var (e, k) := ParseLed(ts, left, j).value;
      LoopSound(ts, i, e, k, p);
    }
  }

  lemma {:induction false} NudSound(ts: seq<Token>, i: nat, p: nat)
    requires ParseNud(ts, i).Success?
    ensures var (e, j) := ParseNud(ts, i).value; Stands(ts, i, p, e, j)
    decreases Remaining(ts, i), 4
  {
    match OperatorTable(TokenAt(ts, i)).nud
    case NudLiteral => NudLeafSound(ts, i, p);
    case NudSelf => NudLeafSound(ts, i, p);
    case NudUnary => NudUnarySound(ts, i, p);
    case NudGroup => GroupSound(ts, i, p);
  }

  lemma NudLeafSound(ts: seq<Token>, i: nat, p: nat)
    requires ParseNud(ts, i).Success? && OperatorTable(TokenAt(ts, i)).nud in {NudLiteral, NudSelf}
    ensures var (e, j) := ParseNud(ts, i).value; Stands(ts, i, p, e, j)
  {
  }

  lemma {:induction false} NudUnarySound(ts: seq<Token>, i: nat, p: nat)
    requires ParseNud(ts, i).Success? && OperatorTable(TokenAt(ts, i)).nud == NudUnary
    ensures var (e, j) := ParseNud(ts, i).value; Stands(ts, i, p, e, j)
    decreases Remaining(ts, i), 3
  {
    ParseSound(ts, i + 1, Precedence(TokenAt(ts, i)));
  }

  lemma {:induction false} GroupSound(ts: seq<Token>, i: nat, p: nat)
    requires Is(ts, i, LeftParen) && ParseGroup(ts, i + 1).Success?
    ensures var (e, j) := ParseGroup(ts, i + 1).value; Stands(ts, i, p, e, j)
    decreases Remaining(ts, i), 3
  {
    ParseSound(ts, i + 1, 0);
    var (x, j) := Parse(ts, i + 1, 0).value;
    if Is(ts, j, Comma) {
      VectorSound(ts, i, x, j, p);
    } else {
      GroupStands(ts, i, p, x, j);
    }
  }

  lemma {:induction false} VectorSound(ts: seq<Token>, i: nat, x: Tree, j: nat, p: nat)
    requires Is(ts, i, LeftParen) && Whole(ts, i + 1, 0, x, j) && Is(ts, j, Comma)
    requires ParseVector(ts, x, j).Success?
    ensures var (e, k) := ParseVector(ts, x, j).value; Stands(ts, i, p, e, k)
    decreases Remaining(ts, i), 2
  {
    var y, k, z, m := VectorInverts(ts, x, j);
    ComponentsSound(ts, i, j, y, k, z, m);
    VectorStands(ts, i, p, x, j, y, k, z, m);
  }

  lemma {:induction false} ComponentsSound(ts: seq<Token>, i: nat, j: nat, y: Tree, k: nat, z: Tree, m: nat)
    requires i < j < k && i < |ts| && Parse(ts, j + 1, 0) == Success((y, k)) && Parse(ts, k + 1, 0) == Success((z, m))
    ensures Whole(ts, j + 1, 0, y, k) && Whole(ts, k + 1, 0, z, m)
    decreases Remaining(ts, i), 1
  {
    ParseSound(ts, j + 1, 0);
    ParseSound(ts, k + 1, 0);
  }

  lemma VectorInverts(ts: seq<Token>, x: Tree, j: nat) returns (y: Tree, k: nat, z: Tree, m: nat)
    requires ParseVector(ts, x, j).Success?
    ensures Parse(ts, j + 1, 0) == Success((y, k)) && Is(ts, k, Comma)
    ensures Parse(ts, k + 1, 0) == Success((z, m)) && Is(ts, m, RightParen)
    ensures ParseVector(ts, x, j) == Success((Vector(x, y, z), m + 1)) && j < k
  {
    y, k := Parse(ts, j + 1, 0).value.0, Parse(ts, j + 1, 0).value.1;
    z, m := Parse(ts, k + 1, 0).value.0, Parse(ts, k + 1, 0).value.1;
  }

  lemma {:induction false} LedSound(ts: seq<Token>, i: nat, left: Tree, j: nat, p: nat)
    requires i < j <= |ts| && Stands(ts, i, p, left, j) && p < Precedence(TokenAt(ts, j)) && ParseLed(ts, left, j).Success?
    ensures var (e, k) := ParseLed(ts, left, j).value; Stands(ts, i, p, e, k)
    decreases Remaining(ts, j), 1
  {
    match OperatorTable(TokenAt(ts, j)).led
    case LedBinary => OperandSound(ts, i, left, j, p);
    case LedAssignment => OperandSound(ts, i, left, j, p);
    case LedUnary => PostfixSound(ts, i, left, j, p);
    case LedTernary => TernarySound(ts, i, left, j, p);
    case LedMember => MemberSound(ts, i, left, j, p);
    case LedBracket => IndexSound(ts, i, left, j, p);
    case LedFunction => CallSound(ts, i, left, j, p);
    case LedMemberCall => MethodCallSound(ts, i, left, j, p);
  }

  lemma PostfixSound(ts: seq<Token>, i: nat, left: Tree, j: nat, p: nat)
    requires OperatorTable(TokenAt(ts, j)).led == LedUnary
    requires Stands(ts, i, p, left, j) && p < Precedence(TokenAt(ts, j))
    ensures ParseLed(ts, left, j) == Success((Postfix(left, TokenAt(ts, j).s), j + 1))
    ensures Stands(ts, i, p, Postfix(left, TokenAt(ts, j).s), j + 1)
  {
    Loose(TokenAt(ts, j + 1));
  }

  lemma {:induction false} OperandSound(ts: seq<Token>, i: nat, left: Tree, j: nat, p: nat)
    requires OperatorTable(TokenAt(ts, j)).led in {LedBinary, LedAssignment}
    requires i < j <= |ts| && Stands(ts, i, p, left, j) && p < Precedence(TokenAt(ts, j)) && ParseLed(ts, left, j).Success?
    ensures var (e, k) := ParseLed(ts, left, j).value; Stands(ts, i, p, e, k)
    decreases Remaining(ts, j), 0
  {
    var t := TokenAt(ts, j);
    ParseSound(ts, j + 1, NextPrecedence(t));
    var (r, k) := Parse(ts, j + 1, NextPrecedence(t)).value;
    if OperatorTable(t).led == LedBinary {
      BinaryStands(ts, i, p, left, j, t.s, r, k);
    } else {
      AssignmentStands(ts, i, p, left, j, t.s, r, k);
    }
  }

  lemma IndexInverts(ts: seq<Token>, left: Tree, j: nat) returns (x: Tree, k: nat)
    requires Is(ts, j, LeftBracket) && ParseLed(ts, left, j).Success?
    ensures Parse(ts, j + 1, 0) == Success((x, k)) && Is(ts, k, RightBracket)
    ensures ParseLed(ts, left, j) == Success((Index(left, x), k + 1))
  {
    x, k := Parse(ts, j + 1, 0).value.0, Parse(ts, j + 1, 0).value.1;
  }

  lemma {:induction false} IndexSound(ts: seq<Token>, i: nat, left: Tree, j: nat, p: nat)
    requires Is(ts, j, LeftBracket)
    requires i < j <= |ts| && Stands(ts, i, p, left, j) && p < Precedence(TokenAt(ts, j)) && ParseLed(ts, left, j).Success?
    ensures var (e, k) := ParseLed(ts, left, j).value; Stands(ts, i, p, e, k)
    decreases Remaining(ts, j), 0
  {
    var x, k := IndexInverts(ts, left, j);
    ParseSound(ts, j + 1, 0);
    IndexStands(ts, i, p, left, j, x, k);
  }

  lemma {:induction false} CallSound(ts: seq<Token>, i: nat, left: Tree, j: nat, p: nat)
    requires Is(ts, j, LeftParen)
    requires i < j <= |ts| && Stands(ts, i, p, left, j) && p < Precedence(TokenAt(ts, j)) && ParseLed(ts, left, j).Success?
    ensures var (e, k) := ParseLed(ts, left, j).value; Stands(ts, i, p, e, k)
    decreases Remaining(ts, j), 0
  {
    var es, trailing, k := CallInverts(ts, left, j);
    ArgumentsSound(ts, j + 1, 0);
    CallStands(ts, i, p, left, j, es, trailing, k);
  }

  lemma CallInverts(ts: seq<Token>, left: Tree, j: nat) returns (es: Trees, trailing: bool, k: nat)
    requires Is(ts, j, LeftParen) && ParseLed(ts, left, j).Success?
    ensures ParseArguments(ts, j + 1, 0) == Success((es, trailing, k)) && j < |ts|
    ensures ParseLed(ts, left, j) == Success((Call(left, es, trailing), k))
  {
    var r := ParseArguments(ts, j + 1, 0).value;
    es, trailing, k := r.0, r.1, r.2;
  }

  lemma {:induction false} MethodCallSound(ts: seq<Token>, i: nat, left: Tree, j: nat, p: nat)
    requires TokenAt(ts, j).Name?
    requires i < j <= |ts| && Stands(ts, i, p, left, j) && p < Precedence(TokenAt(ts, j)) && ParseLed(ts, left, j).Success?
    ensures var (e, k) := ParseLed(ts, left, j).value; Stands(ts, i, p, e, k)
    decreases Remaining(ts, j), 0
  {
    var es, trailing, k := MethodCallInverts(ts, left, j);
    ArgumentsSound(ts, j + 2, 0);
    MethodCallStands(ts, i, p, left, j, TokenAt(ts, j).text, es, trailing, k);
  }

  lemma MethodCallInverts(ts: seq<Token>, left: Tree, j: nat) returns (es: Trees, trailing: bool, k: nat)
    requires TokenAt(ts, j).Name? && ParseLed(ts, left, j).Success?
    ensures Is(ts, j + 1, LeftParen) && ParseArguments(ts, j + 2, 0) == Success((es, trailing, k)) && j < |ts|
    ensures ParseLed(ts, left, j) == Success((MethodCall(left, TokenAt(ts, j).text, es, trailing), k))
  {
    var r := ParseArguments(ts, j + 2, 0).value;
    es, trailing, k := r.0, r.1, r.2;
  }

  lemma {:induction false} TernarySound(ts: seq<Token>, i: nat, left: Tree, j: nat, p: nat)
    requires Stands(ts, i, p, left, j) && Is(ts, j, Question) && p < Precedence(TokenAt(ts, j))
    requires ParseTernary(ts, left, j + 1).Success?
    ensures var (e, k) := ParseTernary(ts, left, j + 1).value; Stands(ts, i, p, e, k)
    decreases Remaining(ts, j), 0
  {
    var a, k, b, m := TernaryInverts(ts, left, j);
    ParseSound(ts, j + 1, 0);
    ParseSound(ts, k + 1, 0);
    TernaryStands(ts, i, p, left, j, a, k, b, m);
  }

  lemma TernaryInverts(ts: seq<Token>, left: Tree, j: nat) returns (a: Tree, k: nat, b: Tree, m: nat)
    requires ParseTernary(ts, left, j + 1).Success?
    ensures Parse(ts, j + 1, 0) == Success((a, k)) && Is(ts, k, Colon) && Parse(ts, k + 1, 0) == Success((b, m)) && j < k
    ensures ParseTernary(ts, left, j + 1) == Success((Ternary(left, a, b), m))
  {
    a, k := Parse(ts, j + 1, 0).value.0, Parse(ts, j + 1, 0).value.1;
    b, m := Parse(ts, k + 1, 0).value.0, Parse(ts, k + 1, 0).value.1;
  }

  /** After a dot there is one identifier: nothing binds tighter than the dot. */
  lemma OneName(ts: seq<Token>, i: nat)
    requires TokenAt(ts, i).Name?
    ensures Parse(ts, i, 80) == Success((Leaf(TokenAt(ts, i)), i + 1))
  {
    Loose(TokenAt(ts, i + 1));
    assert ParseNud(ts, i) == Success((Leaf(TokenAt(ts, i)), i + 1));
  }

  lemma MemberStands(ts: seq<Token>, i: nat, p: nat, o: Tree, j: nat)
    requires Stands(ts, i, p, o, j) && Is(ts, j, Dot) && p < Precedence(Sym(Dot)) && TokenAt(ts, j + 1).Name?
    ensures Stands(ts, i, p, Member(o, Leaf(TokenAt(ts, j + 1))), j + 2)
  {
    Loose(TokenAt(ts, j + 2));
  }

  lemma MemberSound(ts: seq<Token>, i: nat, left: Tree, j: nat, p: nat)
    requires Is(ts, j, Dot) && Stands(ts, i, p, left, j) && p < Precedence(TokenAt(ts, j)) && ParseLed(ts, left, j).Success?
    ensures var (e, k) := ParseLed(ts, left, j).value; Stands(ts, i, p, e, k)
  {
    MemberInverts(ts, left, j);
    MemberStands(ts, i, p, left, j);
  }

  lemma MemberInverts(ts: seq<Token>, left: Tree, j: nat)
    requires Is(ts, j, Dot) && ParseLed(ts, left, j).Success?
    ensures TokenAt(ts, j + 1).Name? && ParseLed(ts, left, j) == Success((Member(left, Leaf(TokenAt(ts, j + 1))), j + 2))
  {
    OneName(ts, j + 1);
  }

  // ---- arguments ----

  /** Arguments that come after `n` others. */
  ghost predicate MoreStand(ts: seq<Token>, i: nat, n: nat, es: Trees, trailing: bool, j: nat) {
    && ShapeAll(es) && SpellsArguments(es, trailing, ts, i) && j == ArgumentsEnd(es, trailing, i)
    && (es.Cons? ==> Count(es) + n <= MAX_ARGUMENTS) && (es.Nil? ==> trailing == (n > 0))
  }

  lemma MoreStands(ts: seq<Token>, i: nat, n: nat, e: Tree, j: nat, es: Trees, trailing: bool, k: nat)
    requires Whole(ts, i, 0, e, j) && Is(ts, j, Comma) && MoreStand(ts, j + 1, n + 1, es, trailing, k) && n < MAX_ARGUMENTS
    ensures MoreStand(ts, i, n, Cons(e, es), trailing, k)
  {
  }

  lemma LastStands(ts: seq<Token>, i: nat, n: nat, e: Tree, j: nat)
    requires Whole(ts, i, 0, e, j) && Is(ts, j, RightParen) && n < MAX_ARGUMENTS
    ensures MoreStand(ts, i, n, Cons(e, Nil), false, j + 1)
  {
  }

  lemma {:induction false} ArgumentsSound(ts: seq<Token>, i: nat, n: nat)
    requires ParseArguments(ts, i, n).Success?
    ensures var (es, trailing, j) := ParseArguments(ts, i, n).value; MoreStand(ts, i, n, es, trailing, j)
    decreases Remaining(ts, i), 6
  {
    if Is(ts, i, RightParen) {
      NoneStand(ts, i, n);
    } else {
      var e, j := ArgumentInverts(ts, i, n);
      ParseSound(ts, i, 0);
      if Is(ts, j, Comma) {
        ArgumentsSound(ts, j + 1, n + 1);
        var (es, trailing, k) := ParseArguments(ts, j + 1, n + 1).value;
        MoreStands(ts, i, n, e, j, es, trailing, k);
      } else {
        LastStands(ts, i, n, e, j);
      }
    }
  }

  lemma NoneStand(ts: seq<Token>, i: nat, n: nat)
    requires Is(ts, i, RightParen)
    ensures ParseArguments(ts, i, n) == Success((Nil, n > 0, i + 1)) && MoreStand(ts, i, n, Nil, n > 0, i + 1)
  {
  }

  lemma ArgumentInverts(ts: seq<Token>, i: nat, n: nat) returns (e: Tree, j: nat)
    requires !Is(ts, i, RightParen) && ParseArguments(ts, i, n).Success?
    ensures Parse(ts, i, 0) == Success((e, j)) && n < MAX_ARGUMENTS && i < j
    ensures if Is(ts, j, Comma) then
              ParseArguments(ts, j + 1, n + 1).Success? &&
              var (es, trailing, k) := ParseArguments(ts, j + 1, n + 1).value;
              ParseArguments(ts, i, n) == Success((Cons(e, es), trailing, k))
            else Is(ts, j, RightParen) && ParseArguments(ts, i, n) == Success((Cons(e, Nil), false, j + 1))
  {
    e, j := Parse(ts, i, 0).value.0, Parse(ts, i, 0).value.1;
  }
}
