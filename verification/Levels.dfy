/**
 * How operators group, symbol by symbol: what the parser makes of sequences of tokens in which two operators
 * compete for an operand. The symbols are listed here by name, without the operator table.
 */
module Levels {
  import opened Wrappers
  import opened Operators
  import opened Trees
  import opened Pratt
  import opened Accepting
  import opened Printing
  import opened Roundtrip

  predicate IsProduct(s: Symbol) {
    s.Multiply? || s.Divide? || s.Modulo?
  }

  predicate IsSum(s: Symbol) {
    s.Plus? || s.Minus?
  }

  /** Shifts, comparisons and bitwise operators. */
  predicate IsMiddle(s: Symbol) {
    || s.LShift? || s.RShift? || s.Less? || s.LEqual? || s.Greater? || s.GEqual? || s.Equals? || s.NEqual?
    || s.BitwiseAnd? || s.BitwiseOr? || s.BitwiseXor?
  }

  predicate IsLogical(s: Symbol) {
    s.LogicalAnd? || s.LogicalOr?
  }

  predicate IsBinary(s: Symbol) {
    IsProduct(s) || IsSum(s) || IsMiddle(s) || IsLogical(s)
  }

  predicate IsAssignment(s: Symbol) {
    || s.Assign? || s.DivAssign? || s.MulAssign? || s.ModAssign? || s.LShiftAssign? || s.RShiftAssign? || s.XorAssign?
    || s.OrAssign? || s.AndAssign? || s.PlusAssign? || s.MinusAssign?
  }

  predicate IsNot(s: Symbol) {
    s.Bang? || s.Tilde?
  }

  predicate IsPrefix(s: Symbol) {
    IsNot(s) || IsSum(s)
  }

  /** `high` binds tighter than `low`. */
  predicate Tighter(high: Symbol, low: Symbol) {
    || (IsProduct(high) && (IsSum(low) || IsMiddle(low) || IsLogical(low)))
    || (IsSum(high) && (IsMiddle(low) || IsLogical(low)))
    || (IsMiddle(high) && IsLogical(low))
  }

  predicate SameLevel(a: Symbol, b: Symbol) {
    || (IsProduct(a) && IsProduct(b))
    || (IsSum(a) && IsSum(b))
    || (IsMiddle(a) && IsMiddle(b))
    || (IsLogical(a) && IsLogical(b))
  }

  /** A name, a literal, or `self`. */
  predicate Operand(t: Token) {
    !t.Sym?
  }

  /** The whole of the tokens is one expression, with this tree. */
  predicate Reads(ts: seq<Token>, e: Tree) {
    Parse(ts, 0, 0) == Success((e, |ts|))
  }

  // ---- what the table says of the symbols ----

  predicate Infix(s: Symbol, p: nat) {
    HasLed(s, LedBinary) && Precedence(Sym(s)) == p && NextPrecedence(Sym(s)) == p
  }

  lemma ProductBinds(s: Symbol)
    requires IsProduct(s)
    ensures Infix(s, 60)
  {
  }

  lemma SumBinds(s: Symbol)
    requires IsSum(s)
    ensures Infix(s, 50)
  {
  }

  lemma MiddleBinds(s: Symbol)
    requires IsMiddle(s)
    ensures Infix(s, 40)
  {
  }

  lemma LogicalBinds(s: Symbol)
    requires IsLogical(s)
    ensures Infix(s, 30)
  {
  }

  lemma BinaryBinds(s: Symbol) returns (p: nat)
    requires IsBinary(s)
    ensures Infix(s, p) && 30 <= p <= 60 && (if IsProduct(s) then p == 60 else p <= 50)
  {
    if IsProduct(s) {
      ProductBinds(s);
      p := 60;
    } else if IsSum(s) {
      SumBinds(s);
      p := 50;
    } else if IsMiddle(s) {
      MiddleBinds(s);
      p := 40;
    } else {
      LogicalBinds(s);
      p := 30;
    }
  }

  lemma TighterBinds(high: Symbol, low: Symbol) returns (p: nat, q: nat)
    requires Tighter(high, low)
    ensures Infix(high, p) && Infix(low, q) && 0 < q < p <= 60
  {
    if IsProduct(high) {
      ProductBinds(high);
      p := 60;
      q := BinaryBinds(low);
    } else if IsSum(high) {
      SumBinds(high);
      p := 50;
      q := LooserBinds(low);
    } else {
      MiddleBinds(high);
      LogicalBinds(low);
      p, q := 40, 30;
    }
  }

  lemma LooserBinds(s: Symbol) returns (p: nat)
    requires (IsMiddle(s) || IsLogical(s))
    ensures Infix(s, p) && 0 < p < 50
  {
    if IsMiddle(s) {
      MiddleBinds(s);
      p := 40;
    } else {
      LogicalBinds(s);
      p := 30;
    }
  }

  lemma SameLevelBinds(a: Symbol, b: Symbol) returns (p: nat)
    requires SameLevel(a, b)
    ensures Infix(a, p) && Infix(b, p) && 0 < p <= 60
  {
    if IsProduct(a) {
      ProductBinds(a);
      ProductBinds(b);
      p := 60;
    } else if IsSum(a) {
      SumBinds(a);
      SumBinds(b);
      p := 50;
    } else if IsMiddle(a) {
      MiddleBinds(a);
      MiddleBinds(b);
      p := 40;
    } else {
      LogicalBinds(a);
      LogicalBinds(b);
      p := 30;
    }
  }

  lemma AssignmentBinds(s: Symbol)
    requires IsAssignment(s)
    ensures HasLed(s, LedAssignment) && Precedence(Sym(s)) == 10 && NextPrecedence(Sym(s)) == 9
  {
  }

  lemma OperandIsLeaf(t: Token)
    requires Operand(t)
    ensures Sane(Leaf(t)) && forall p: int :: Shape(Leaf(t), p)
  {
  }

  lemma ReadsIf(e: Tree, ts: seq<Token>)
    requires Sane(e) && Shape(e, 0) && Show(e) == ts
    ensures Reads(ts, e)
  {
    ShapeParses(e);
  }

  // ---- sequences in parts ----

  lemma TwoAndMore<T>(a: T, b: T, s: seq<T>)
    ensures [a, b] + s == [a] + ([b] + s)
  {
  }

  lemma ThreeAndMore<T>(a: T, b: T, c: T, s: seq<T>)
    ensures [a, b, c] + s == [a] + ([b] + ([c] + s))
  {
  }

  lemma FourAndMore<T>(a: T, b: T, c: T, d: T, s: seq<T>)
    ensures [a, b, c, d] + s == [a] + [b] + [c] + [d] + s
  {
  }

  lemma FiveInParts<T>(a: T, b: T, c: T, d: T, e: T)
    ensures [a, b, c, d, e] == [a] + ([b] + [c, d, e]) == [a, b, c] + ([d] + [e]) == [a] + [b] + [c] + [d] + [e]
  {
  }

  lemma SevenInParts<T>(a: T, b: T, c: T, d: T, e: T, f: T, g: T)
    ensures [a, b, c, d, e, f, g] == [a] + ([b] + [c, d, e, f, g])
  {
  }

  lemma Nested<T>(a: seq<T>, b: T, c: seq<T>, d: T, e: seq<T>)
    ensures a + [b] + c + [d] + e == a + ([b] + (c + ([d] + e)))
  {
  }

  lemma SixInTwo<T>(a: T, b: T, c: T, d: T, e: T, f: T)
    ensures [a, b, c, d, e, f] == [a] + [b, c, d, e, f]
  {
  }

  lemma SevenInTwo<T>(a: T, b: T, c: T, d: T, e: T, f: T, g: T)
    ensures [a, b, c, d, e, f, g] == [a, b, c, d] + [e, f, g]
  {
  }

  lemma NineInTwo<T>(a: T, b: T, c: T, d: T, e: T, f: T, g: T, h: T, i: T)
    ensures [a, b, c, d, e, f, g, h, i] == [a, b, c, d] + [e, f, g, h, i]
  {
  }

  lemma FiveBracketed<T>(a: T, b: T, c: T, d: T, e: T)
    ensures [a, b, c, d, e] == [a] + [b, c, d] + [e]
    ensures [a, b, c, d, e] == [a] + ([b] + ([c] + [d, e]))
  {
  }

  lemma ElevenInFive<T>(a: T, b: T, c: T, d: T, e: T, f: T, g: T, h: T, i: T, j: T, k: T)
    ensures [a, b, c, d, e, f, g, h, i, j, k] == [a, b, c] + [d] + [e, f, g] + [h] + [i, j, k]
  {
  }

  // ---- two binary operators ----

  /** `l op r` is an expression for the precedences below that of `op`. */
  lemma InfixShape(l: Tree, op: Symbol, m: nat, r: Tree, p: int)
    requires Infix(op, m) && Sane(l) && Sane(r) && p < m <= RightEdge(l) && Shape(l, p) && Shape(r, m)
    ensures Sane(Binary(l, op, r)) && Shape(Binary(l, op, r), p) && RightEdge(Binary(l, op, r)) == Min(m, RightEdge(r))
  {
  }

  lemma InfixShows(l: Tree, op: Symbol, r: Tree, a: seq<Token>, b: seq<Token>, ts: seq<Token>)
    requires Show(l) == a && Show(r) == b && ts == a + ([Sym(op)] + b)
    ensures Show(Binary(l, op, r)) == ts && Show(Assignment(l, op, r)) == ts
  {
  }

  lemma InfixReads(l: Tree, op: Symbol, m: nat, r: Tree, a: seq<Token>, b: seq<Token>, ts: seq<Token>)
    requires Infix(op, m) && Sane(l) && Sane(r) && 0 < m <= RightEdge(l) && Shape(l, 0) && Shape(r, m)
    requires Show(l) == a && Show(r) == b && ts == a + ([Sym(op)] + b)
    ensures Reads(ts, Binary(l, op, r))
  {
    InfixShape(l, op, m, r, 0);
    InfixShows(l, op, r, a, b, ts);
    ReadsIf(Binary(l, op, r), ts);
  }

  /** `x op y` for operands. */
  lemma PairShape(x: Token, op: Symbol, m: nat, y: Token, p: int) returns (e: Tree)
    requires Infix(op, m) && Operand(x) && Operand(y) && p < m <= 60
    ensures e == Binary(Leaf(x), op, Leaf(y)) && Sane(e) && Shape(e, p) && RightEdge(e) == m && Show(e) == [x, Sym(op), y]
  {
    e := Binary(Leaf(x), op, Leaf(y));
    OperandIsLeaf(x);
    OperandIsLeaf(y);
    InfixShape(Leaf(x), op, m, Leaf(y), p);
    InfixShows(Leaf(x), op, Leaf(y), [x], [y], [x, Sym(op), y]);
  }

  /** The tighter operator takes the operand between the two, wherever it stands. */
  lemma TighterTakesFirst(x: Token, low: Symbol, y: Token, high: Symbol, z: Token)
    requires Operand(x) && Operand(y) && Operand(z) && Tighter(high, low)
    ensures Reads([x, Sym(low), y, Sym(high), z], Binary(Leaf(x), low, Binary(Leaf(y), high, Leaf(z))))
    ensures Reads([x, Sym(high), y, Sym(low), z], Binary(Binary(Leaf(x), high, Leaf(y)), low, Leaf(z)))
  {
    var p, q := TighterBinds(high, low);
    RightPair(x, low, q, y, high, p, z);
    LeftPair(x, high, p, y, low, q, z);
  }

  lemma RightPair(x: Token, op: Symbol, m: nat, y: Token, next: Symbol, n: nat, z: Token)
    requires Operand(x) && Operand(y) && Operand(z) && Infix(op, m) && Infix(next, n) && 0 < m < n <= 60
    ensures Reads([x, Sym(op), y, Sym(next), z], Binary(Leaf(x), op, Binary(Leaf(y), next, Leaf(z))))
  {
    var pair := PairShape(y, next, n, z, m);
    OperandIsLeaf(x);
    FiveInParts(x, Sym(op), y, Sym(next), z);
    InfixReads(Leaf(x), op, m, pair, [x], [y, Sym(next), z], [x, Sym(op), y, Sym(next), z]);
  }

  lemma LeftPair(x: Token, op: Symbol, m: nat, y: Token, next: Symbol, n: nat, z: Token)
    requires Operand(x) && Operand(y) && Operand(z) && Infix(op, m) && Infix(next, n) && 0 < n <= m <= 60
    ensures Reads([x, Sym(op), y, Sym(next), z], Binary(Binary(Leaf(x), op, Leaf(y)), next, Leaf(z)))
  {
    var pair := PairShape(x, op, m, y, 0);
    OperandIsLeaf(z);
    FiveInParts(x, Sym(op), y, Sym(next), z);
    InfixReads(pair, next, n, Leaf(z), [x, Sym(op), y], [z], [x, Sym(op), y, Sym(next), z]);
  }

  /** Operators of one level group to the left. */
  lemma LevelGroupsLeft(x: Token, op: Symbol, y: Token, next: Symbol, z: Token)
    requires Operand(x) && Operand(y) && Operand(z) && SameLevel(op, next)
    ensures Reads([x, Sym(op), y, Sym(next), z], Binary(Binary(Leaf(x), op, Leaf(y)), next, Leaf(z)))
  {
    var p := SameLevelBinds(op, next);
    LeftPair(x, op, p, y, next, p, z);
  }

  // ---- assignments ----

  lemma AssignmentShape(l: Tree, op: Symbol, r: Tree, p: int)
    requires IsAssignment(op) && p < 10 && Sane(l) && Sane(r) && Shape(l, p) && RightEdge(l) >= 10 && Shape(r, 9)
    ensures Sane(Assignment(l, op, r)) && Shape(Assignment(l, op, r), p)
  {
    AssignmentBinds(op);
  }

  lemma AssignmentReads(l: Tree, op: Symbol, r: Tree, a: seq<Token>, b: seq<Token>, ts: seq<Token>)
    requires IsAssignment(op) && Sane(l) && Sane(r) && Shape(l, 0) && RightEdge(l) >= 10 && Shape(r, 9)
    requires Show(l) == a && Show(r) == b && ts == a + ([Sym(op)] + b)
    ensures Reads(ts, Assignment(l, op, r))
  {
    AssignmentShape(l, op, r, 0);
    InfixShows(l, op, r, a, b, ts);
    ReadsIf(Assignment(l, op, r), ts);
  }

  /** Assignments group to the right, whichever they are. */
  lemma AssignmentsGroupRight(x: Token, op: Symbol, y: Token, next: Symbol, z: Token)
    requires Operand(x) && Operand(y) && Operand(z) && IsAssignment(op) && IsAssignment(next)
    ensures Reads([x, Sym(op), y, Sym(next), z], Assignment(Leaf(x), op, Assignment(Leaf(y), next, Leaf(z))))
  {
    var last := OperandAssignment(y, next, z);
    FiveInParts(x, Sym(op), y, Sym(next), z);
    OperandAssigned(x, op, last, [y, Sym(next), z], [x, Sym(op), y, Sym(next), z]);
  }

  lemma OperandAssigned(x: Token, op: Symbol, r: Tree, shown: seq<Token>, ts: seq<Token>)
    requires Operand(x) && IsAssignment(op) && Sane(r) && Shape(r, 9) && Show(r) == shown
    requires ts == [x] + ([Sym(op)] + shown)
    ensures Reads(ts, Assignment(Leaf(x), op, r))
  {
    OperandIsLeaf(x);
    AssignmentReads(Leaf(x), op, r, [x], shown, ts);
  }

  /** A binary operator binds tighter than an assignment, on either side of it. */
  lemma BinaryBeforeAssignment(x: Token, op: Symbol, y: Token, assign: Symbol, z: Token)
    requires Operand(x) && Operand(y) && Operand(z) && IsBinary(op) && IsAssignment(assign)
    ensures Reads([x, Sym(assign), y, Sym(op), z], Assignment(Leaf(x), assign, Binary(Leaf(y), op, Leaf(z))))
    ensures Reads([x, Sym(op), y, Sym(assign), z], Assignment(Binary(Leaf(x), op, Leaf(y)), assign, Leaf(z)))
  {
    var m := BinaryBinds(op);
    OperandIsLeaf(x);
    OperandIsLeaf(z);
    var r := PairShape(y, op, m, z, 9);
    var l := PairShape(x, op, m, y, 0);
    FiveInParts(x, Sym(assign), y, Sym(op), z);
    FiveInParts(x, Sym(op), y, Sym(assign), z);
    AssignmentReads(Leaf(x), assign, r, [x], [y, Sym(op), z], [x, Sym(assign), y, Sym(op), z]);
    AssignmentReads(l, assign, Leaf(z), [x, Sym(op), y], [z], [x, Sym(op), y, Sym(assign), z]);
  }

  // ---- the conditional operator ----

  lemma TernaryShape(t: Tree, a: Tree, b: Tree, p: int)
    requires p < 20 <= RightEdge(t) && Sane(t) && Sane(a) && Sane(b) && Shape(t, p) && Shape(a, 0) && Shape(b, 0)
    ensures Sane(Ternary(t, a, b)) && Shape(Ternary(t, a, b), p)
  {
  }

  lemma TernaryShows(t: Tree, a: Tree, b: Tree, st: seq<Token>, sa: seq<Token>, sb: seq<Token>, ts: seq<Token>)
    requires Show(t) == st && Show(a) == sa && Show(b) == sb && ts == st + [Sym(Question)] + sa + [Sym(Colon)] + sb
    ensures Show(Ternary(t, a, b)) == ts
  {
    Nested(st, Sym(Question), sa, Sym(Colon), sb);
  }

  lemma TernaryReads(t: Tree, a: Tree, b: Tree, st: seq<Token>, sa: seq<Token>, sb: seq<Token>, ts: seq<Token>)
    requires 20 <= RightEdge(t) && Sane(t) && Sane(a) && Sane(b) && Shape(t, 0) && Shape(a, 0) && Shape(b, 0)
    requires Show(t) == st && Show(a) == sa && Show(b) == sb && ts == st + [Sym(Question)] + sa + [Sym(Colon)] + sb
    ensures Reads(ts, Ternary(t, a, b))
  {
    TernaryShape(t, a, b, 0);
    TernaryShows(t, a, b, st, sa, sb, ts);
    ReadsIf(Ternary(t, a, b), ts);
  }

  /** All binary operators bind tighter than `? :`, in its three parts. */
  lemma BinaryBeforeTernary(x: Token, op: Symbol, y: Token, u: Token, op1: Symbol, v: Token, z: Token, op2: Symbol, w: Token)
    requires Operand(x) && Operand(y) && Operand(u) && Operand(v) && Operand(z) && Operand(w)
    requires IsBinary(op) && IsBinary(op1) && IsBinary(op2)
    ensures Reads([x, Sym(op), y, Sym(Question), u, Sym(op1), v, Sym(Colon), z, Sym(op2), w],
                  Ternary(Binary(Leaf(x), op, Leaf(y)), Binary(Leaf(u), op1, Leaf(v)), Binary(Leaf(z), op2, Leaf(w))))
  {
    var ts := [x, Sym(op), y, Sym(Question), u, Sym(op1), v, Sym(Colon), z, Sym(op2), w];
    var t := AnyPair(x, op, y);
    var a := AnyPair(u, op1, v);
    var b := AnyPair(z, op2, w);
    ElevenInFive(x, Sym(op), y, Sym(Question), u, Sym(op1), v, Sym(Colon), z, Sym(op2), w);
    TernaryReads(t, a, b, [x, Sym(op), y], [u, Sym(op1), v], [z, Sym(op2), w], ts);
  }

  lemma AnyPair(x: Token, op: Symbol, y: Token) returns (e: Tree)
    requires Operand(x) && Operand(y) && IsBinary(op)
    ensures e == Binary(Leaf(x), op, Leaf(y)) && Sane(e) && Shape(e, 0) && RightEdge(e) >= 30 && Show(e) == [x, Sym(op), y]
  {
    var m := BinaryBinds(op);
    e := PairShape(x, op, m, y, 0);
  }

  /** `x = y ? u : v` assigns the whole conditional expression. */
  lemma TernaryBeforeAssignment(x: Token, assign: Symbol, y: Token, u: Token, v: Token)
    requires Operand(x) && Operand(y) && Operand(u) && Operand(v) && IsAssignment(assign)
    ensures Reads([x, Sym(assign), y, Sym(Question), u, Sym(Colon), v],
                  Assignment(Leaf(x), assign, Ternary(Leaf(y), Leaf(u), Leaf(v))))
  {
    var r := OperandTernary(y, u, v);
    SevenInParts(x, Sym(assign), y, Sym(Question), u, Sym(Colon), v);
    OperandAssigned(x, assign, r, [y, Sym(Question), u, Sym(Colon), v], [x, Sym(assign), y, Sym(Question), u, Sym(Colon), v]);
  }

  /** Both sides of `? :` go as far as they can: the second takes another conditional expression, or an assignment. */
  lemma TernaryTakesAll(x: Token, y: Token, z: Token, u: Token, v: Token, assign: Symbol)
    requires Operand(x) && Operand(y) && Operand(z) && Operand(u) && Operand(v) && IsAssignment(assign)
    ensures Reads([x, Sym(Question), y, Sym(Colon), z, Sym(Question), u, Sym(Colon), v],
                  Ternary(Leaf(x), Leaf(y), Ternary(Leaf(z), Leaf(u), Leaf(v))))
    ensures Reads([x, Sym(Question), y, Sym(Colon), z, Sym(assign), u],
                  Ternary(Leaf(x), Leaf(y), Assignment(Leaf(z), assign, Leaf(u))))
  {
    var c := OperandTernary(z, u, v);
    NineInTwo(x, Sym(Question), y, Sym(Colon), z, Sym(Question), u, Sym(Colon), v);
    Alternative(x, y, c, [z, Sym(Question), u, Sym(Colon), v],
                [x, Sym(Question), y, Sym(Colon), z, Sym(Question), u, Sym(Colon), v]);
    var d := OperandAssignment(z, assign, u);
    SevenInTwo(x, Sym(Question), y, Sym(Colon), z, Sym(assign), u);
    Alternative(x, y, d, [z, Sym(assign), u], [x, Sym(Question), y, Sym(Colon), z, Sym(assign), u]);
  }

  lemma OperandTernary(x: Token, y: Token, z: Token) returns (e: Tree)
    requires Operand(x) && Operand(y) && Operand(z)
    ensures e == Ternary(Leaf(x), Leaf(y), Leaf(z)) && Sane(e) && Shape(e, 0) && Shape(e, 9)
    ensures Show(e) == [x, Sym(Question), y, Sym(Colon), z]
  {
    e := Ternary(Leaf(x), Leaf(y), Leaf(z));
    OperandIsLeaf(x);
    OperandIsLeaf(y);
    OperandIsLeaf(z);
    TernaryShape(Leaf(x), Leaf(y), Leaf(z), 0);
    TernaryShape(Leaf(x), Leaf(y), Leaf(z), 9);
    FiveInParts(x, Sym(Question), y, Sym(Colon), z);
    TernaryShows(Leaf(x), Leaf(y), Leaf(z), [x], [y], [z], [x, Sym(Question), y, Sym(Colon), z]);
  }

  lemma OperandAssignment(x: Token, assign: Symbol, y: Token) returns (e: Tree)
    requires Operand(x) && Operand(y) && IsAssignment(assign)
    ensures e == Assignment(Leaf(x), assign, Leaf(y)) && Sane(e) && Shape(e, 0) && Shape(e, 9)
    ensures Show(e) == [x, Sym(assign), y]
  {
    e := Assignment(Leaf(x), assign, Leaf(y));
    OperandIsLeaf(x);
    OperandIsLeaf(y);
    AssignmentShape(Leaf(x), assign, Leaf(y), 0);
    AssignmentShape(Leaf(x), assign, Leaf(y), 9);
    InfixShows(Leaf(x), assign, Leaf(y), [x], [y], [x, Sym(assign), y]);
  }

  lemma Alternative(x: Token, y: Token, b: Tree, shown: seq<Token>, ts: seq<Token>)
    requires Operand(x) && Operand(y) && Sane(b) && Shape(b, 0) && Show(b) == shown
    requires ts == [x, Sym(Question), y, Sym(Colon)] + shown
    ensures Reads(ts, Ternary(Leaf(x), Leaf(y), b))
  {
    OperandIsLeaf(x);
    OperandIsLeaf(y);
    FourAndMore(x, Sym(Question), y, Sym(Colon), shown);
    TernaryReads(Leaf(x), Leaf(y), b, [x], [y], shown, ts);
  }

  // ---- prefix operators ----

  /** A prefix operator whose operand is parsed with precedence `m`. */
  predicate Unary(s: Symbol, m: nat) {
    OperatorTable(Sym(s)).nud == NudUnary && Precedence(Sym(s)) == m
  }

  lemma PrefixBinds(s: Symbol) returns (m: nat)
    requires IsPrefix(s)
    ensures Unary(s, m) && m == if IsNot(s) then 70 else 50
  {
    m := if IsNot(s) then 70 else 50;
  }

  lemma PrefixShape(s: Symbol, m: nat, a: Tree, p: int, shown: seq<Token>) returns (e: Tree)
    requires Unary(s, m) && Sane(a) && Shape(a, m) && Show(a) == shown
    ensures e == Prefix(s, a) && Sane(e) && Shape(e, p) && RightEdge(e) == Min(m, RightEdge(a)) && Show(e) == [Sym(s)] + shown
  {
    e := Prefix(s, a);
  }

  lemma PrefixReads(s: Symbol, m: nat, a: Tree, shown: seq<Token>, ts: seq<Token>)
    requires Unary(s, m) && Sane(a) && Shape(a, m) && Show(a) == shown && ts == [Sym(s)] + shown
    ensures Reads(ts, Prefix(s, a))
  {
    var e := PrefixShape(s, m, a, 0, shown);
    ReadsIf(e, ts);
  }

  /** `!` and `~` take an operand before any binary operator does. */
  lemma NotBeforeBinary(not: Symbol, x: Token, op: Symbol, y: Token)
    requires Operand(x) && Operand(y) && IsNot(not) && IsBinary(op)
    ensures Reads([Sym(not), x, Sym(op), y], Binary(Prefix(not, Leaf(x)), op, Leaf(y)))
    ensures Reads([x, Sym(op), Sym(not), y], Binary(Leaf(x), op, Prefix(not, Leaf(y))))
  {
    var m := PrefixBinds(not);
    var n := BinaryBinds(op);
    PrefixFirst(not, m, x, op, n, y);
    PrefixSecond(x, op, n, not, m, y);
  }

  /** Prefix `-` and `+` do so before all but the products, of which the first is part of their operand. */
  lemma SignBeforeSum(sign: Symbol, x: Token, op: Symbol, y: Token)
    requires Operand(x) && Operand(y) && IsSum(sign) && IsBinary(op)
    ensures Reads([Sym(sign), x, Sym(op), y],
                  if IsProduct(op) then Prefix(sign, Binary(Leaf(x), op, Leaf(y))) else Binary(Prefix(sign, Leaf(x)), op, Leaf(y)))
    ensures Reads([x, Sym(op), Sym(sign), y], Binary(Leaf(x), op, Prefix(sign, Leaf(y))))
  {
    var m := PrefixBinds(sign);
    var n := BinaryBinds(op);
    PrefixSecond(x, op, n, sign, m, y);
    if IsProduct(op) {
      var product := PairShape(x, op, n, y, 50);
      PrefixReads(sign, m, product, [x, Sym(op), y], [Sym(sign), x, Sym(op), y]);
    } else {
      PrefixFirst(sign, m, x, op, n, y);
    }
  }

  lemma PrefixFirst(s: Symbol, m: nat, x: Token, op: Symbol, n: nat, y: Token)
    requires Operand(x) && Operand(y) && Unary(s, m) && Infix(op, n) && 0 < n <= m < 100
    ensures Reads([Sym(s), x, Sym(op), y], Binary(Prefix(s, Leaf(x)), op, Leaf(y)))
  {
    OperandIsLeaf(x);
    OperandIsLeaf(y);
    var e := PrefixShape(s, m, Leaf(x), 0, [x]);
    InfixReads(e, op, n, Leaf(y), [Sym(s), x], [y], [Sym(s), x, Sym(op), y]);
  }

  lemma PrefixSecond(x: Token, op: Symbol, n: nat, s: Symbol, m: nat, y: Token)
    requires Operand(x) && Operand(y) && Unary(s, m) && Infix(op, n) && 0 < n <= 60
    ensures Reads([x, Sym(op), Sym(s), y], Binary(Leaf(x), op, Prefix(s, Leaf(y))))
  {
    OperandIsLeaf(x);
    OperandIsLeaf(y);
    var e := PrefixShape(s, m, Leaf(y), n, [y]);
    InfixReads(Leaf(x), op, n, e, [x], [Sym(s), y], [x, Sym(op), Sym(s), y]);
  }

  // ---- what stands behind an operand ----

  /** The suffixes of an operand: `++`, `--`, a member, an index, a call with and without argument. */
  datatype Suffix = Counted(op: Symbol) | Of(property: string) | At(index: Token) | Called | CalledWith(argument: Token)

  predicate IsSuffix(f: Suffix) {
    match f
    case Counted(op) => op == Increment || op == Decrement
    case Of(_) => true
    case At(i) => Operand(i)
    case Called => true
    case CalledWith(a) => Operand(a)
  }

  function Tokens(f: Suffix): seq<Token> {
    match f
    case Counted(op) => [Sym(op)]
    case Of(x) => [Sym(Dot), Name(x)]
    case At(i) => [Sym(LeftBracket), i, Sym(RightBracket)]
    case Called => [Sym(LeftParen), Sym(RightParen)]
    case CalledWith(a) => [Sym(LeftParen), a, Sym(RightParen)]
  }

  function Applied(e: Tree, f: Suffix): Tree {
    match f
    case Counted(op) => Postfix(e, op)
    case Of(x) => Member(e, Leaf(Name(x)))
    case At(i) => Index(e, Leaf(i))
    case Called => Call(e, Nil, false)
    case CalledWith(a) => Call(e, Cons(Leaf(a), Nil), false)
  }

  lemma OneArgument(a: Token)
    requires Operand(a)
    ensures var es := Cons(Leaf(a), Nil);
            && SaneAll(es) && ShapeAll(es) && Count(es) == 1 && Listed(Leaf(a))
            && ShowArguments(es, false) == [a, Sym(RightParen)]
  {
    OperandIsLeaf(a);
    assert SaneAll(Nil) && ShapeAll(Nil) && Count(Nil) == 0;
    assert ShowArguments(Cons(Leaf(a), Nil), false) == [a] + [Sym(RightParen)];
  }

  lemma SuffixShape(e: Tree, f: Suffix, p: int)
    requires IsSuffix(f) && Sane(e) && Shape(e, p) && p < 80 <= RightEdge(e)
    ensures Sane(Applied(e, f)) && Shape(Applied(e, f), p) && RightEdge(Applied(e, f)) == TOP
  {
    match f
    case At(i) => IndexShape(e, i, p);
    case CalledWith(a) => CallsShape(e, a, p);
    case Of(x) => MemberShape(e, x, p);
    case Counted(op) => CountedShape(e, op, p);
    case Called =>
  }

  lemma CountedShape(e: Tree, op: Symbol, p: int)
    requires (op == Increment || op == Decrement) && Sane(e) && Shape(e, p) && p < 80 <= RightEdge(e)
    ensures Sane(Postfix(e, op)) && Shape(Postfix(e, op), p)
  {
  }

  lemma MemberShape(e: Tree, x: string, p: int)
    requires Sane(e) && Shape(e, p) && p < 80 <= RightEdge(e)
    ensures Sane(Member(e, Leaf(Name(x)))) && Shape(Member(e, Leaf(Name(x))), p)
  {
  }

  lemma IndexShape(e: Tree, i: Token, p: int)
    requires Operand(i) && Sane(e) && Shape(e, p) && p < 80 <= RightEdge(e)
    ensures Sane(Index(e, Leaf(i))) && Shape(Index(e, Leaf(i)), p)
  {
    OperandIsLeaf(i);
  }

  lemma CallsShape(e: Tree, a: Token, p: int)
    requires Operand(a) && Sane(e) && Shape(e, p) && p < 80 <= RightEdge(e)
    ensures var c := Call(e, Cons(Leaf(a), Nil), false); Sane(c) && Shape(c, p)
  {
    OneArgument(a);
  }

  lemma SuffixShown(e: Tree, f: Suffix, shown: seq<Token>)
    requires IsSuffix(f) && Show(e) == shown
    ensures Show(Applied(e, f)) == shown + Tokens(f)
  {
    match f
    case At(i) => IndexShows(e, i, shown);
    case CalledWith(a) => CallShows(e, Cons(Leaf(a), Nil), shown, [a, Sym(RightParen)]) by { OneArgument(a); }
    case Called => CallShows(e, Nil, shown, [Sym(RightParen)]);
    case Of(x) => MemberShows(e, x, shown);
    case Counted(_) =>
  }

  lemma IndexShows(e: Tree, i: Token, shown: seq<Token>)
    requires Show(e) == shown
    ensures Show(Index(e, Leaf(i))) == shown + [Sym(LeftBracket), i, Sym(RightBracket)]
  {
    assert [Sym(LeftBracket)] + ([i] + [Sym(RightBracket)]) == [Sym(LeftBracket), i, Sym(RightBracket)];
  }

  lemma CallShows(e: Tree, es: Trees, shown: seq<Token>, last: seq<Token>)
    requires Show(e) == shown && ShowArguments(es, false) == last
    ensures Show(Call(e, es, false)) == shown + ([Sym(LeftParen)] + last)
  {
  }

  lemma MemberShows(e: Tree, x: string, shown: seq<Token>)
    requires Show(e) == shown
    ensures Show(Member(e, Leaf(Name(x)))) == shown + [Sym(Dot), Name(x)]
  {
    assert [Sym(Dot)] + [Name(x)] == [Sym(Dot), Name(x)];
  }

  lemma OperandWithSuffix(x: Token, f: Suffix, p: int) returns (e: Tree)
    requires Operand(x) && IsSuffix(f) && p < 80
    ensures e == Applied(Leaf(x), f) && Sane(e) && Shape(e, p) && RightEdge(e) == TOP && Show(e) == [x] + Tokens(f)
  {
    e := Applied(Leaf(x), f);
    OperandIsLeaf(x);
    SuffixShape(Leaf(x), f, p);
    SuffixShown(Leaf(x), f, [x]);
  }

  /** A suffix takes the operand before any prefix or binary operator in front of it does. */
  lemma SuffixBeforePrefix(s: Symbol, x: Token, f: Suffix)
    requires Operand(x) && IsSuffix(f) && IsPrefix(s)
    ensures Reads([Sym(s), x] + Tokens(f), Prefix(s, Applied(Leaf(x), f)))
  {
    var m := PrefixBinds(s);
    var e := OperandWithSuffix(x, f, m);
    TwoAndMore(Sym(s), x, Tokens(f));
    PrefixReads(s, m, e, [x] + Tokens(f), [Sym(s), x] + Tokens(f));
  }

  lemma SuffixBeforeBinary(x: Token, op: Symbol, y: Token, f: Suffix)
    requires Operand(x) && Operand(y) && IsSuffix(f) && IsBinary(op)
    ensures Reads([x, Sym(op), y] + Tokens(f), Binary(Leaf(x), op, Applied(Leaf(y), f)))
  {
    var m := BinaryBinds(op);
    OperandIsLeaf(x);
    var e := OperandWithSuffix(y, f, m);
    ThreeAndMore(x, Sym(op), y, Tokens(f));
    InfixReads(Leaf(x), op, m, e, [x], [y] + Tokens(f), [x, Sym(op), y] + Tokens(f));
  }

  /** Suffixes are applied from left to right. */
  lemma SuffixesInOrder(x: Token, f: Suffix, g: Suffix)
    requires Operand(x) && IsSuffix(f) && IsSuffix(g)
    ensures Reads([x] + Tokens(f) + Tokens(g), Applied(Applied(Leaf(x), f), g))
  {
    var e := OperandWithSuffix(x, f, 0);
    SuffixShape(e, g, 0);
    SuffixShown(e, g, [x] + Tokens(f));
    ReadsIf(Applied(e, g), [x] + Tokens(f) + Tokens(g));
  }

  /** A method call `x f(y)` takes the operand in front of it, and what `!` or a binary operator takes is the call. */
  lemma MethodCallFirst(s: Symbol, x: Token, f: string, y: Token)
    requires Operand(x) && Operand(y) && IsPrefix(s)
    ensures Reads([Sym(s), x, Name(f), Sym(LeftParen), y, Sym(RightParen)],
                  Prefix(s, MethodCall(Leaf(x), f, Cons(Leaf(y), Nil), false)))
  {
    var m := PrefixBinds(s);
    var e := MethodCallShape(x, f, y, m);
    SixInTwo(Sym(s), x, Name(f), Sym(LeftParen), y, Sym(RightParen));
    PrefixReads(s, m, e, [x, Name(f), Sym(LeftParen), y, Sym(RightParen)],
                [Sym(s), x, Name(f), Sym(LeftParen), y, Sym(RightParen)]);
  }

  lemma MethodCallShape(x: Token, f: string, y: Token, p: int) returns (e: Tree)
    requires Operand(x) && Operand(y) && p < 80
    ensures e == MethodCall(Leaf(x), f, Cons(Leaf(y), Nil), false) && Sane(e) && Shape(e, p)
    ensures Show(e) == [x, Name(f), Sym(LeftParen), y, Sym(RightParen)]
  {
    e := MethodCall(Leaf(x), f, Cons(Leaf(y), Nil), false);
    OperandIsLeaf(x);
    OneArgument(y);
    FiveBracketed(x, Name(f), Sym(LeftParen), y, Sym(RightParen));
  }

  predicate AllOperands(es: Trees) {
    match es case Nil => true case Cons(e, rest) => e.Leaf? && Operand(e.token) && AllOperands(rest)
  }

  lemma {:induction false} OperandsShape(es: Trees)
    requires AllOperands(es)
    ensures SaneAll(es) && ShapeAll(es)
  {
    if es.Cons? {
      OperandIsLeaf(es.head.token);
      OperandsShape(es.tail);
    }
  }

  /** A call is read if and only if it has at most 32 arguments. */
  lemma CallLimit(f: Token, es: Trees)
    requires Operand(f) && AllOperands(es)
    ensures var e := Call(Leaf(f), es, false); Reads(Show(e), e) <==> Count(es) <= 32
  {
    var e := Call(Leaf(f), es, false);
    OperandIsLeaf(f);
    OperandsShape(es);
    if Reads(Show(e), e) {
      ParserIsExact(Show(e), 0, 0, e, |Show(e)|);
      assert Shape(e, 0);
    } else if Count(es) <= 32 {
      ReadsIf(e, Show(e));
    }
  }

  /** After the last argument there may be a comma. */
  lemma TrailingComma(f: Token, a: Token)
    requires Operand(f) && Operand(a)
    ensures Reads([f, Sym(LeftParen), a, Sym(Comma), Sym(RightParen)], Call(Leaf(f), Cons(Leaf(a), Nil), true))
  {
    var es := Cons(Leaf(a), Nil);
    var ts := [f, Sym(LeftParen), a, Sym(Comma), Sym(RightParen)];
    OperandIsLeaf(f);
    OneArgument(a);
    assert ShowArguments(Nil, true) == [Sym(RightParen)];
    assert ShowArguments(es, true) == [a] + ([Sym(Comma)] + [Sym(RightParen)]);
    assert ts == [f] + ([Sym(LeftParen)] + ([a] + ([Sym(Comma)] + [Sym(RightParen)])));
    ReadsIf(Call(Leaf(f), es, true), ts);
  }

  // ---- what stands for itself ----

  /** Single tokens, and the literals of two tokens, in front of nothing. */
  lemma LiteralsAlone(x: Token, s: string)
    requires Operand(x)
    ensures Reads([x], Leaf(x))
    ensures Reads([Sym(BitwiseAnd), Text(s)], Tagged(BitwiseAnd, Text(s)))
    ensures Reads([Sym(Modulo), Name(s)], Tagged(Modulo, Name(s)))
    ensures Reads([Sym(ScopeResolution), Name(s)], Tagged(ScopeResolution, Name(s)))
  {
    OperandIsLeaf(x);
    ReadsIf(Leaf(x), [x]);
    TaggedReads(BitwiseAnd, Text(s));
    TaggedReads(Modulo, Name(s));
    TaggedReads(ScopeResolution, Name(s));
  }

  lemma TaggedReads(tag: Symbol, t: Token)
    requires IsTagged(tag, t)
    ensures Reads([Sym(tag), t], Tagged(tag, t))
  {
    assert Show(Tagged(tag, t)) == [Sym(tag)] + [t];
    ReadsIf(Tagged(tag, t), [Sym(tag), t]);
  }

  /** Parentheses overrule all this, and three expressions in them are a vector. */
  lemma ParenthesesGroup(x: Token, high: Symbol, y: Token, low: Symbol, z: Token)
    requires Operand(x) && Operand(y) && Operand(z) && IsBinary(high) && IsBinary(low)
    ensures Reads([x, Sym(high), Sym(LeftParen), y, Sym(low), z, Sym(RightParen)],
                  Binary(Leaf(x), high, Group(Binary(Leaf(y), low, Leaf(z)))))
    ensures Reads([Sym(LeftParen), x, Sym(Comma), y, Sym(Comma), z, Sym(RightParen)], Vector(Leaf(x), Leaf(y), Leaf(z)))
  {
    var m := BinaryBinds(high);
    var inner := AnyPair(y, low, z);
    OperandIsLeaf(x);
    FiveBracketed(Sym(LeftParen), y, Sym(low), z, Sym(RightParen));
    SevenInParts(x, Sym(high), Sym(LeftParen), y, Sym(low), z, Sym(RightParen));
    GroupShape(inner, [y, Sym(low), z], [Sym(LeftParen), y, Sym(low), z, Sym(RightParen)], m);
    InfixReads(Leaf(x), high, m, Group(inner), [x], [Sym(LeftParen), y, Sym(low), z, Sym(RightParen)],
               [x, Sym(high), Sym(LeftParen), y, Sym(low), z, Sym(RightParen)]);
    VectorReads(x, y, z);
  }

  lemma GroupShape(x: Tree, shown: seq<Token>, ts: seq<Token>, p: int)
    requires Sane(x) && Shape(x, 0) && Show(x) == shown && ts == [Sym(LeftParen)] + shown + [Sym(RightParen)]
    ensures Sane(Group(x)) && Shape(Group(x), p) && Show(Group(x)) == ts
  {
    assert ts == [Sym(LeftParen)] + (shown + [Sym(RightParen)]);
  }

  lemma VectorReads(x: Token, y: Token, z: Token)
    requires Operand(x) && Operand(y) && Operand(z)
    ensures Reads([Sym(LeftParen), x, Sym(Comma), y, Sym(Comma), z, Sym(RightParen)], Vector(Leaf(x), Leaf(y), Leaf(z)))
  {
    OperandIsLeaf(x);
    OperandIsLeaf(y);
    OperandIsLeaf(z);
    var s := [Sym(Comma)] + ([y] + ([Sym(Comma)] + ([z] + [Sym(RightParen)])));
    VectorShows(Vector(Leaf(x), Leaf(y), Leaf(z)), s);
    var ts := [Sym(LeftParen), x, Sym(Comma), y, Sym(Comma), z, Sym(RightParen)];
    assert ts == [Sym(LeftParen)] + ([x] + s);
    ReadsIf(Vector(Leaf(x), Leaf(y), Leaf(z)), ts);
  }

  // ---- what cannot stand where ----

  predicate IsTag(s: Symbol) {
    s.BitwiseAnd? || s.Modulo? || s.ScopeResolution?
  }

  /** The symbols that start something which is not modelled. */
  predicate StartsElsewhere(s: Symbol) {
    s.Hash? || s.LeftBracket? || s.LeftBrace? || s.Thread? || s.FileReference?
  }

  /** No other symbol starts an expression, whatever follows it. */
  lemma NotAPrefix(s: Symbol, rest: seq<Token>)
    requires !IsPrefix(s) && !IsTag(s) && s != LeftParen
    ensures Parse([Sym(s)] + rest, 0, 0) == Failure(if StartsElsewhere(s) then NotModelled else UnexpectedToken)
  {
    var ts := [Sym(s)] + rest;
    assert TokenAt(ts, 0) == Sym(s);
    NoNudFails(s);
    FailsAtOnce(ts, OperatorTable(Sym(s)).nud);
  }

  lemma NoNudFails(s: Symbol)
    requires !IsPrefix(s) && !IsTag(s) && s != LeftParen
    ensures OperatorTable(Sym(s)).nud == if StartsElsewhere(s) then NudElsewhere else NoNud
  {
  }

  lemma FailsAtOnce(ts: seq<Token>, nud: Nud)
    requires OperatorTable(TokenAt(ts, 0)).nud == nud && (nud == NoNud || nud == NudElsewhere)
    ensures Parse(ts, 0, 0) == Failure(if nud == NoNud then UnexpectedToken else NotModelled)
  {
  }

  predicate EndsExpression(s: Symbol) {
    s.ScopeResolution? || s.Hash? || s.Colon? || s.Comma? || s.RightParen? || s.RightBracket? || s.Other?
  }

  /** An expression ends before these symbols; `!`, `~` and an opening brace may not stand behind an operand. */
  lemma NotAnInfix(x: Token, s: Symbol, rest: seq<Token>)
    requires Operand(x)
    ensures EndsExpression(s) ==> Parse([x, Sym(s)] + rest, 0, 0) == Success((Leaf(x), 1))
    ensures IsNot(s) || s == LeftBrace ==> Parse([x, Sym(s)] + rest, 0, 0) == Failure(UnexpectedToken)
  {
    var ts := [x, Sym(s)] + rest;
    assert TokenAt(ts, 0) == x && TokenAt(ts, 1) == Sym(s);
    LeafRead(ts);
    if EndsExpression(s) {
      EndBinds(s);
    } else if IsNot(s) || s == LeftBrace {
      NoLedBinds(s);
      StopsAt(ts, Leaf(x), 1);
    }
  }

  lemma LeafRead(ts: seq<Token>)
    requires Operand(TokenAt(ts, 0)) && |ts| >= 2
    ensures Parse(ts, 0, 0) == ParseLoop(ts, Leaf(TokenAt(ts, 0)), 1, 0)
  {
    OperandIsLeaf(TokenAt(ts, 0));
  }

  lemma EndBinds(s: Symbol)
    requires EndsExpression(s)
    ensures Precedence(Sym(s)) == 0
  {
  }

  lemma NoLedBinds(s: Symbol)
    requires IsNot(s) || s == LeftBrace
    ensures Precedence(Sym(s)) > 0 && HasLed(s, NoLed)
  {
  }

  lemma StopsAt(ts: seq<Token>, left: Tree, i: nat)
    requires i < |ts| && ts[i].Sym? && Precedence(ts[i]) > 0 && HasLed(ts[i].s, NoLed)
    ensures ParseLoop(ts, left, i, 0) == Failure(UnexpectedToken)
  {
  }
}
