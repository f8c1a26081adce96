/**
 * What the operators compute, in terms of the integers of mathematics: `Binop` and `Unary` are not
 * unfolded in any statement here, and every statement is about all operands.
 */
module Arithmetic {
  import opened Wrappers
  import opened Values
  import opened Syntax
  import opened Semantics

  // ---- powers, congruence and bits ----

  function Power(n: nat): (p: nat)
    ensures p >= 1
  {
    if n == 0 then 1 else Power(n - 1) + Power(n - 1)
  }

  /** Equal as 64-bit words. */
  predicate Congruent(x: int, y: int) {
    (x - y) % 0x1_0000_0000_0000_0000 == 0
  }

  predicate InRange(x: int) {
    -0x8000_0000_0000_0000 <= x < 0x8000_0000_0000_0000
  }

  /** Bit `k` of a number in two's complement. */
  predicate Bit(a: int, k: nat) {
    a / Power(k) % 2 == 1
  }

  predicate SameBits(x: int, y: int, n: nat) {
    forall k :: 0 <= k < n ==> Bit(x, k) == Bit(y, k)
  }

  lemma {:induction false} PowersAgree(n: nat)
    ensures PowerOfTwo(n) == Power(n)
  {
    if n > 0 {
      PowersAgree(n - 1);
    }
  }

  lemma WrapIsCongruent(x: int, c: Int64)
    ensures InRange(c)
    ensures c == Wrap(x) <==> Congruent(c, x)
  {
  }

  // ---- addition, subtraction, multiplication ----

  /** The 64-bit word that is congruent to the exact sum; it is the sum itself if that is in range. */
  lemma AddIsExact(a: Int64, b: Int64, c: Int64)
    ensures Binop(Add, Int(a), Int(b)) == Success(Int(c)) <==> Congruent(c, a + b)
    ensures InRange(a + b) ==> Binop(Add, Int(a), Int(b)) == Success(Int(a + b))
  {
    WrapIsCongruent(a + b, c);
  }

  lemma SubIsExact(a: Int64, b: Int64, c: Int64)
    ensures Binop(Sub, Int(a), Int(b)) == Success(Int(c)) <==> Congruent(c, a - b)
    ensures InRange(a - b) ==> Binop(Sub, Int(a), Int(b)) == Success(Int(a - b))
  {
    WrapIsCongruent(a - b, c);
  }

  lemma MulIsExact(a: Int64, b: Int64, c: Int64)
    ensures Binop(Mul, Int(a), Int(b)) == Success(Int(c)) <==> Congruent(c, a * b)
    ensures InRange(a * b) ==> Binop(Mul, Int(a), Int(b)) == Success(Int(a * b))
  {
    WrapIsCongruent(a * b, c);
  }

  /** `x + y - y` is `x`, however much the sum overflows. */
  lemma SubUndoesAdd(x: Int64, y: Int64) returns (sum: Int64)
    ensures Binop(Add, Int(x), Int(y)) == Success(Int(sum))
    ensures Binop(Sub, Int(sum), Int(y)) == Success(Int(x))
  {
    sum := Wrap(x + y);
    AddIsExact(x, y, sum);
    SubIsExact(sum, y, x);
  }

  /** `(x + y) * z` is `x * z + y * z`, however much either overflows. */
  lemma MulDistributes(x: Int64, y: Int64, z: Int64) returns (sum: Int64, xz: Int64, yz: Int64, r: Int64)
    ensures Binop(Add, Int(x), Int(y)) == Success(Int(sum)) && Binop(Mul, Int(sum), Int(z)) == Success(Int(r))
    ensures Binop(Mul, Int(x), Int(z)) == Success(Int(xz)) && Binop(Mul, Int(y), Int(z)) == Success(Int(yz))
    ensures Binop(Add, Int(xz), Int(yz)) == Success(Int(r))
  {
    sum, xz, yz, r := Wrap(x + y), Wrap(x * z), Wrap(y * z), Wrap(Wrap(x + y) * z);
    WrapIsCongruent(x + y, sum);
    WrapIsCongruent(x * z, xz);
    WrapIsCongruent(y * z, yz);
    WrapIsCongruent(sum * z, r);
    CongruentProduct(sum, x + y, z);
    Distributed(r, sum, x, y, z, xz, yz);
    AddIsExact(xz, yz, r);
  }

  lemma CongruentProduct(a: int, b: int, z: int)
    requires Congruent(a, b)
    ensures Congruent(a * z, b * z)
  {
    var m := (a - b) / 0x1_0000_0000_0000_0000;
    Multiple(a * z - b * z, m * z) by {
      assert a - b == m * 0x1_0000_0000_0000_0000;
      ProductOfMultiple(a, b, z, m);
    }
  }

  lemma ProductOfMultiple(a: int, b: int, z: int, m: int)
    requires a - b == m * 0x1_0000_0000_0000_0000
    ensures a * z - b * z == (m * z) * 0x1_0000_0000_0000_0000
  {
    assert a * z - b * z == (a - b) * z;
  }

  lemma Multiple(x: int, m: int)
    requires x == m * 0x1_0000_0000_0000_0000
    ensures x % 0x1_0000_0000_0000_0000 == 0
  {
  }

  lemma Distributed(r: int, sum: int, x: int, y: int, z: int, xz: int, yz: int)
    requires Congruent(r, sum * z) && Congruent(sum * z, (x + y) * z) && Congruent(xz, x * z) && Congruent(yz, y * z)
    ensures Congruent(r, xz + yz)
  {
    Sums(r, sum * z, x * z, y * z, xz, yz) by {
      assert (x + y) * z == x * z + y * z;
    }
  }

  lemma Sums(r: int, p: int, xz: int, yz: int, a: int, b: int)
    requires Congruent(r, p) && Congruent(p, xz + yz) && Congruent(a, xz) && Congruent(b, yz)
    ensures Congruent(r, a + b)
  {
  }

  // ---- comparisons ----

  predicate Says(op: BinaryOp, a: Int64, b: Int64) {
    Binop(op, Int(a), Int(b)) == Success(Bool(true))
  }

  predicate Denies(op: BinaryOp, a: Int64, b: Int64) {
    Binop(op, Int(a), Int(b)) == Success(Bool(false))
  }

  /** The comparisons answer with a boolean, and are the order of the integers. */
  lemma Compares(a: Int64, b: Int64)
    ensures forall op :: op in {Less, LessEqual, Greater, GreaterEqual, Equal, NotEqual} ==> Says(op, a, b) != Denies(op, a, b)
    ensures Says(Less, a, b) <==> b - a > 0
    ensures Says(Less, a, b) <==> Says(Greater, b, a)
    ensures Says(Equal, a, b) <==> Denies(Less, a, b) && Denies(Greater, a, b)
    ensures !(Says(Less, a, b) && Says(Greater, a, b))
    ensures Says(LessEqual, a, b) <==> Says(Less, a, b) || Says(Equal, a, b)
    ensures Says(GreaterEqual, a, b) <==> Says(LessEqual, b, a)
    ensures Says(NotEqual, a, b) <==> Denies(Equal, a, b)
  {
  }

  /** Whether the difference is negative tells the order if and only if the difference does not overflow. */
  lemma DifferenceTellsOrderIff(a: Int64, b: Int64, d: Int64)
    requires Binop(Sub, Int(a), Int(b)) == Success(Int(d))
    ensures (Says(Less, a, b) <==> Says(Less, d, 0)) <==> InRange(a - b)
  {
    SubIsExact(a, b, d);
  }

  // ---- division ----

  function Abs(x: int): nat {
    if x < 0 then -x else x
  }

  /** Quotient and remainder are the two numbers of C: the remainder is small and has the sign of the dividend. */
  lemma DivModIsExact(a: Int64, b: Int64, q: Int64, r: Int64)
    requires b != 0 && !(a == -0x8000_0000_0000_0000 && b == -1)
    ensures Binop(Div, Int(a), Int(b)) == Success(Int(q)) && Binop(Mod, Int(a), Int(b)) == Success(Int(r)) <==>
            a == q * b + r && Abs(r) < Abs(b) && (r == 0 || (r < 0 <==> a < 0))
  {
    var q0, r0 := TruncatedDiv(a, b), TruncatedMod(a, b);
    Truncates(a, b, q0, r0);
    QuotientInRange(a, b, q0, r0);
    assert Wrap(q0) == q0 && Wrap(r0) == r0;
    if a == q * b + r && Abs(r) < Abs(b) && (r == 0 || (r < 0 <==> a < 0)) {
      QuotientIsUnique(a, b, q0, r0, q, r);
    }
  }

  lemma Truncates(a: int, b: int, q: int, r: int)
    requires b != 0 && q == TruncatedDiv(a, b) && r == TruncatedMod(a, b)
    ensures a == q * b + r && Abs(r) < Abs(b) && (r == 0 || (r < 0 <==> a < 0))
  {
  }

  lemma QuotientInRange(a: Int64, b: Int64, q: int, r: int)
    requires b != 0 && !(a == -0x8000_0000_0000_0000 && b == -1)
    requires a == q * b + r && Abs(r) < Abs(b) && (r == 0 || (r < 0 <==> a < 0))
    ensures InRange(q) && InRange(r)
  {
    AbsProduct(q, b);
    if q != 0 {
      AtLeastOnce(Abs(q), Abs(b));
    }
    NoLarger(a, q * b, r, b);
    if Abs(b) > 1 {
      Doubled(Abs(q), Abs(b));
    } else {
      assert q == a || q == -a;
    }
  }

  /** The product that the quotient stands for is no larger than the dividend. */
  lemma NoLarger(a: int, product: int, r: int, b: int)
    requires a == product + r && Abs(r) < Abs(b) && (r == 0 || (r < 0 <==> a < 0))
    requires product == 0 || Abs(product) >= Abs(b)
    ensures Abs(product) <= Abs(a)
  {
  }

  lemma AbsProduct(x: int, y: int)
    ensures Abs(x * y) == Abs(x) * Abs(y)
  {
  }

  lemma Doubled(x: nat, y: nat)
    requires y >= 2
    ensures x * y >= 2 * x
  {
  }

  lemma QuotientIsUnique(a: int, b: int, q0: int, r0: int, q: int, r: int)
    requires b != 0 && a == q0 * b + r0 && a == q * b + r
    requires Abs(r0) < Abs(b) && (r0 == 0 || (r0 < 0 <==> a < 0))
    requires Abs(r) < Abs(b) && (r == 0 || (r < 0 <==> a < 0))
    ensures q == q0 && r == r0
  {
    assert (q - q0) * b == r0 - r;
    assert Abs(r0 - r) < Abs(b);
    AbsProduct(q - q0, b);
    if q != q0 {
      AtLeastOnce(Abs(q - q0), Abs(b));
    }
  }

  lemma AtLeastOnce(x: nat, y: nat)
    requires x >= 1
    ensures x * y >= y
  {
  }

  /** Where C divides by zero, the quotient is 0; the other cases that C leaves undefined are faults. */
  lemma DivModElsewhere(a: Int64, b: Int64)
    requires b == 0 || (a == -0x8000_0000_0000_0000 && b == -1)
    ensures Binop(Div, Int(a), Int(b)) == if b == 0 then Success(Int(0)) else Failure(ArithmeticFault)
    ensures Binop(Mod, Int(a), Int(b)) == Failure(ArithmeticFault)
  {
  }

  // ---- shifts ----

  /** A shift to the left is multiplication by a power of two, modulo 2^64. */
  lemma ShiftLeftIsExact(a: Int64, n: Int64, c: Int64)
    ensures Binop(ShiftLeft, Int(a), Int(n)) == Success(Int(c)) <==> 0 <= n < 64 && Congruent(c, a * Power(n))
    ensures !(0 <= n < 64) ==> Binop(ShiftLeft, Int(a), Int(n)) == Failure(ArithmeticFault)
  {
    if 0 <= n < 64 {
      PowersAgree(n);
      WrapIsCongruent(a * Power(n), c);
    }
  }

  /** A shift to the right is division by a power of two, rounded down. */
  lemma ShiftRightIsExact(a: Int64, n: Int64, c: Int64)
    ensures Binop(ShiftRight, Int(a), Int(n)) == Success(Int(c)) <==>
            0 <= n < 64 && c * Power(n) <= a < c * Power(n) + Power(n)
    ensures !(0 <= n < 64) ==> Binop(ShiftRight, Int(a), Int(n)) == Failure(ArithmeticFault)
  {
    if 0 <= n < 64 {
      var q := Shifted(a, n, Power(n));
      FloorIs(a, Power(n), c);
      FloorIs(a, Power(n), q);
    }
  }

  lemma Shifted(a: Int64, n: Int64, p: nat) returns (q: Int64)
    requires 0 <= n < 64 && p == Power(n)
    ensures Binop(ShiftRight, Int(a), Int(n)) == Success(Int(q)) && q == a / p
  {
    PowersAgree(n);
    FloorIs(a, p, a / p);
    FloorInRange(a, p, a / p);
    q := a / p;
    assert Wrap(q) == q;
  }

  lemma FloorIs(a: int, p: int, c: int)
    requires p >= 1
    ensures c == a / p <==> c * p <= a < c * p + p
  {
    if c * p <= a < c * p + p {
      var d := a / p;
      assert d * p <= a < d * p + p;
      Between(c, d, p);
      Between(d, c, p);
    }
  }

  lemma Between(c: int, d: int, p: int)
    requires p >= 1 && c * p < d * p + p
    ensures c <= d
  {
    if c > d {
      AtLeastOnce(c - d, p);
      Spread(c, d, p);
    }
  }

  lemma Spread(c: int, d: int, p: int)
    ensures (c - d) * p == c * p - d * p
  {
  }

  lemma FloorInRange(a: Int64, p: int, q: int)
    requires p >= 1 && q * p <= a < q * p + p
    ensures InRange(q)
  {
    if q >= 0 {
      AtLeastOnce(p, q);
    } else {
      AtLeastOnce(p, -q - 1);
      assert (-q - 1) * p == -(q * p) - p;
    }
  }

  /** Shifting back and forth is the identity if nothing was lost. */
  lemma ShiftBack(a: Int64, n: Int64)
    requires 0 <= n < 64 && InRange(a * Power(n))
    ensures var s := Binop(ShiftLeft, Int(a), Int(n));
            s == Success(Int(a * Power(n))) && Binop(ShiftRight, s.value, Int(n)) == Success(Int(a))
  {
    ShiftLeftIsExact(a, n, a * Power(n));
    ShiftRightIsExact(a * Power(n), n, a);
  }

  // ---- bits ----

  lemma FloorTwice(a: int, p: int)
    requires p >= 1
    ensures a / (p + p) == a / 2 / p
  {
    var h := a / 2;
    var q := h / p;
    FloorIs(h, p, q);
    assert q * (p + p) == 2 * (q * p);
    FloorIs(a, p + p, q);
  }

  /** The bits of a number are its parity, and the bits of its half. */
  lemma BitAbove(a: int, k: nat)
    ensures Bit(a, 0) <==> a % 2 == 1
    ensures Bit(a, k + 1) <==> Bit(a / 2, k)
  {
    FloorTwice(a, Power(k));
  }

  lemma {:induction false} BitwiseBits(f: (bool, bool) -> bool, a: int, b: int, bits: nat, k: nat)
    requires k < bits
    ensures Bit(Bitwise(f, a, b, bits), k) == f(Bit(a, k), Bit(b, k))
    decreases bits
  {
    var r, rest := Bitwise(f, a, b, bits), Bitwise(f, a / 2, b / 2, bits - 1);
    assert r / 2 == rest && (r % 2 == 1 <==> f(a % 2 == 1, b % 2 == 1));
    if k == 0 {
      BitAbove(r, 0);
      BitAbove(a, 0);
      BitAbove(b, 0);
    } else {
      BitAbove(r, k - 1);
      BitAbove(a, k - 1);
      BitAbove(b, k - 1);
      BitwiseBits(f, a / 2, b / 2, bits - 1, k - 1);
    }
  }

  /** Numbers that differ by a multiple of 2^n have the same lowest bits, and only those. */
  lemma {:induction false} MultipleKeepsBits(x: int, y: int, m: int, n: nat, k: nat)
    requires x == y + m * Power(n) && k < n
    ensures Bit(x, k) == Bit(y, k)
    decreases n
  {
    var h := m * Power(n - 1);
    assert x == y + (h + h);
    if k == 0 {
      BitAbove(x, 0);
      BitAbove(y, 0);
    } else {
      BitAbove(x, k - 1);
      BitAbove(y, k - 1);
      MultipleKeepsBits(x / 2, y / 2, m, n - 1, k - 1);
    }
  }

  lemma {:induction false} BitsTellMultiple(x: int, y: int, n: nat) returns (m: int)
    requires SameBits(x, y, n)
    ensures x == y + m * Power(n)
    decreases n
  {
    if n == 0 {
      m := x - y;
    } else {
      assert Bit(x, 0) == Bit(y, 0);
      BitAbove(x, 0);
      BitAbove(y, 0);
      forall k | 0 <= k < n - 1 ensures Bit(x / 2, k) == Bit(y / 2, k) {
        BitAbove(x, k);
        BitAbove(y, k);
        var above := k + 1;
        assert Bit(x, above) == Bit(y, above);
      }
      m := BitsTellMultiple(x / 2, y / 2, n - 1);
      var h := m * Power(n - 1);
      assert m * Power(n) == h + h;
    }
  }

  lemma {:induction false} PowerSum(m: nat, n: nat)
    ensures Power(m + n) == Power(m) * Power(n)
    decreases m
  {
    if m > 0 {
      PowerSum(m - 1, n);
    }
  }

  lemma WordSize()
    ensures Power(64) == 0x1_0000_0000_0000_0000
  {
    assert Power(1) == 2 && Power(2) == 4;
    PowerSum(2, 2);
    PowerSum(4, 4);
    PowerSum(8, 8);
    PowerSum(16, 16);
    PowerSum(32, 32);
  }

  /** Wrapping around leaves the 64 bits of the result alone. */
  lemma WrapKeepsBits(x: int, k: nat)
    requires k < 64
    ensures Bit(Wrap(x), k) == Bit(x, k)
  {
    WrapIsCongruent(x, Wrap(x));
    var m := (Wrap(x) - x) / 0x1_0000_0000_0000_0000;
    WordSize();
    MultipleKeepsBits(Wrap(x), x, m, 64, k);
  }

  /** A 64-bit word is known by its bits. */
  lemma WordOfBits(c: Int64, d: Int64)
    requires SameBits(c, d, 64)
    ensures c == d
  {
    var m := BitsTellMultiple(c, d, 64);
    WordSize();
  }

  /** The word `c` is, bit by bit, what `f` says. */
  predicate BitByBit(f: (bool, bool) -> bool, a: Int64, b: Int64, c: Int64) {
    forall k :: 0 <= k < 64 ==> Bit(c, k) == f(Bit(a, k), Bit(b, k))
  }

  lemma BitwiseIsExact(f: (bool, bool) -> bool, a: Int64, b: Int64, c: Int64)
    ensures c == Wrap(Bitwise(f, a, b, 64)) <==> BitByBit(f, a, b, c)
  {
    var d := Wrap(Bitwise(f, a, b, 64));
    forall k | 0 <= k < 64 ensures Bit(d, k) == f(Bit(a, k), Bit(b, k)) {
      BitwiseBits(f, a, b, 64, k);
      WrapKeepsBits(Bitwise(f, a, b, 64), k);
    }
    if BitByBit(f, a, b, c) {
      WordOfBits(c, d);
    }
  }

  lemma BitAndIsExact(a: Int64, b: Int64, c: Int64)
    ensures Binop(BitAnd, Int(a), Int(b)) == Success(Int(c)) <==> forall k :: 0 <= k < 64 ==> Bit(c, k) == (Bit(a, k) && Bit(b, k))
  {
    BitwiseIsExact((x, y) => x && y, a, b, c);
  }

  lemma BitOrIsExact(a: Int64, b: Int64, c: Int64)
    ensures Binop(BitOr, Int(a), Int(b)) == Success(Int(c)) <==> forall k :: 0 <= k < 64 ==> Bit(c, k) == (Bit(a, k) || Bit(b, k))
  {
    BitwiseIsExact((x, y) => x || y, a, b, c);
  }

  lemma BitXorIsExact(a: Int64, b: Int64, c: Int64)
    ensures Binop(BitXor, Int(a), Int(b)) == Success(Int(c)) <==> forall k :: 0 <= k < 64 ==> Bit(c, k) == (Bit(a, k) != Bit(b, k))
  {
    BitwiseIsExact((x, y) => x != y, a, b, c);
  }

  // ---- one operand ----

  /** `~x` is -1 - x; it has none of the bits of x and all others; and it is its own inverse. */
  lemma BitNotIsExact(x: Int64)
    ensures InRange(-1 - x) && Unary(BitNot, Int(x)) == Success(Int(-1 - x))
    ensures Unary(BitNot, Int(-1 - x)) == Success(Int(x))
    ensures forall k :: 0 <= k < 64 ==> Bit(-1 - x, k) != Bit(x, k)
  {
    forall k | 0 <= k < 64 ensures Bit(-1 - x, k) != Bit(x, k) {
      Complement(x, k);
    }
  }

  lemma {:induction false} Complement(x: int, k: nat)
    ensures Bit(-1 - x, k) != Bit(x, k)
    decreases k
  {
    HalfOfComplement(x, -1 - x);
    if k == 0 {
      BitAbove(x, 0);
      BitAbove(-1 - x, 0);
    } else {
      BitAbove(x, k - 1);
      BitAbove(-1 - x, k - 1);
      Complement(x / 2, k - 1);
    }
  }

  lemma HalfOfComplement(x: int, y: int)
    requires y == -1 - x
    ensures y / 2 == -1 - x / 2 && (y % 2 == 1 <==> x % 2 != 1)
  {
  }

  /** An integer is true when it is not zero, undefined is false. */
  predicate Truth(v: Value) {
    match v
    case Undefined => false
    case Int(i) => i != 0
    case Bool(b) => b
    case Ref(_, _) => true
  }

  /** `!` inverts the truth value, as a condition too, for everything but references; `~` is for integers only. */
  lemma NotInverts(v: Value)
    ensures Unary(Not, v).Success? <==> !v.Ref?
    ensures Unary(Not, v).Success? ==>
              var r := Unary(Not, v).value;
              && Truth(r) == !Truth(v) && Test(r) == Success(!Truth(v))
              && (r.Int? <==> v.Int?) && (r.Int? ==> r.i == 0 || r.i == 1)
              && Unary(Not, r).Success? && Truth(Unary(Not, r).value) == Truth(v)
    ensures Unary(BitNot, v).Success? <==> v.Int?
  {
  }

  /** So `!x` as a condition is the opposite of `x` as a condition, unless `x` is a nonzero multiple of 2^32, when both are false. */
  lemma NotOppositeIff(i: Int64)
    ensures Unary(Not, Int(i)).Success?
    ensures Test(Unary(Not, Int(i)).value) != Test(Int(i)) <==> i == 0 || i % 0x1_0000_0000 != 0
  {
    NotInverts(Int(i));
  }

  // ---- operands of other types ----

  /** A boolean counts as 0 or 1, next to an integer or another boolean. */
  lemma BooleanCounts(op: BinaryOp, p: bool, v: Value)
    requires v.Int? || v.Bool?
    ensures var n := Int(if p then 1 else 0);
            Binop(op, Bool(p), v) == Binop(op, n, v) && Binop(op, v, Bool(p)) == Binop(op, v, n)
  {
  }

  /** Undefined equals only undefined, and takes part in nothing but comparisons for equality. */
  lemma UndefinedIsAlone(op: BinaryOp, v: Value)
    ensures Binop(Equal, Undefined, v) == Binop(Equal, v, Undefined) == Success(Bool(v.Undefined?))
    ensures Binop(NotEqual, Undefined, v) == Binop(NotEqual, v, Undefined) == Success(Bool(!v.Undefined?))
    ensures op != Equal && op != NotEqual ==> Binop(op, Undefined, v) == Binop(op, v, Undefined) == Failure(TypeFault)
  {
  }

  /** References are equal when they are the same, and compare with nothing else. */
  lemma ReferencesAreIdentities(op: BinaryOp, frame: nat, slot: nat, v: Value)
    requires !v.Undefined?
    ensures Binop(Equal, Ref(frame, slot), v) == if v.Ref? then Success(Bool(v == Ref(frame, slot))) else Failure(TypeFault)
    ensures Binop(NotEqual, Ref(frame, slot), v) == if v.Ref? then Success(Bool(v != Ref(frame, slot))) else Failure(TypeFault)
    ensures op != Equal && op != NotEqual ==> Binop(op, Ref(frame, slot), v) == Failure(TypeFault)
    ensures (op != Equal && op != NotEqual) || !v.Ref? ==> Binop(op, v, Ref(frame, slot)) == Failure(TypeFault)
  {
  }

  /** The combinations at the end of `&&` and `||` are those of the truth values. */
  lemma LogicalIsExact(a: Value, b: Value)
    requires (a.Int? || a.Bool?) && (b.Int? || b.Bool?)
    ensures Binop(LogicalAnd, a, b) == Success(Bool(Truth(a) && Truth(b)))
    ensures Binop(LogicalOr, a, b) == Success(Bool(Truth(a) || Truth(b)))
  {
  }

  /** A literal is the value that it spells, and tests as such. */
  lemma LiteralsMeanThemselves(i: Int64, p: bool)
    ensures Binop(Sub, ValueOf(IntLiteral(i)), Int(i)) == Success(Int(0)) && ValueOf(IntLiteral(i)).Int?
    ensures Test(ValueOf(BoolLiteral(p))) == Success(p) && ValueOf(BoolLiteral(p)).Bool?
    ensures Binop(Equal, ValueOf(UndefinedLiteral), Undefined) == Success(Bool(true))
    ensures Test(ValueOf(UndefinedLiteral)) == Failure(TypeFault)
  {
    SubIsExact(i, i, 0);
  }

  // ---- in expressions ----

  /** The left operand is evaluated first, and the result is that of the integers. */
  lemma BinaryMeans(src: Source, l: Expr, r: Expr, store: Store, fuel: nat, a: Int64, s1: Store, b: Int64, s: Store, c: Int64)
    requires Eval(src, l, store, fuel) == Success((Int(a), s1)) && Eval(src, r, s1, fuel) == Success((Int(b), s))
    ensures Eval(src, Binary(Less, l, r), store, fuel) == Success((Bool(b - a > 0), s))
    ensures Eval(src, Binary(Add, l, r), store, fuel) == Success((Int(c), s)) <==> Congruent(c, a + b)
    ensures Eval(src, Binary(Sub, l, r), store, fuel) == Success((Int(c), s)) <==> Congruent(c, a - b)
    ensures Eval(src, Binary(Mul, l, r), store, fuel) == Success((Int(c), s)) <==> Congruent(c, a * b)
  {
    Compares(a, b);
    AddIsExact(a, b, c);
    SubIsExact(a, b, c);
    MulIsExact(a, b, c);
    BinaryApplies(src, Less, l, r, store, fuel, Int(a), s1, Int(b), s);
    BinaryApplies(src, Add, l, r, store, fuel, Int(a), s1, Int(b), s);
    BinaryApplies(src, Sub, l, r, store, fuel, Int(a), s1, Int(b), s);
    BinaryApplies(src, Mul, l, r, store, fuel, Int(a), s1, Int(b), s);
  }

  lemma BinaryApplies(src: Source, op: BinaryOp, l: Expr, r: Expr, store: Store, fuel: nat, a: Value, s1: Store, b: Value, s: Store)
    requires Eval(src, l, store, fuel) == Success((a, s1)) && Eval(src, r, s1, fuel) == Success((b, s))
    ensures Binop(op, a, b).Success? ==> Eval(src, Binary(op, l, r), store, fuel) == Success((Binop(op, a, b).value, s))
  {
  }

  /** `x++` and `x--` have the old value, and leave one more or less in the variable. */
  lemma PostfixCounts(src: Source, increment: bool, x: string, store: Store, fuel: nat, a: Int64, s: Store, c: Int64)
    requires Eval(src, Id(x), store, fuel) == Success((Int(a), store))
    requires Eval(src, Postfix(increment, Id(x)), store, fuel) == Success((Int(a), s))
    ensures Eval(src, Id(x), s, fuel) == Success((Int(c), s)) <==> Congruent(c, if increment then a + 1 else a - 1)
  {
    AddIsExact(a, 1, c);
    SubIsExact(a, 1, c);
  }

  /** It always has a result on integers. */
  lemma PostfixSucceeds(src: Source, increment: bool, x: string, store: Store, fuel: nat, a: Int64)
    requires Eval(src, Id(x), store, fuel) == Success((Int(a), store))
    ensures Eval(src, Postfix(increment, Id(x)), store, fuel).Success?
    ensures Eval(src, Postfix(increment, Id(x)), store, fuel).value.0 == Int(a)
  {
  }

  /** `x op= r` leaves in the variable what the operator makes of it and the operand, and has that value. */
  lemma OpAssignMeans(src: Source, op: BinaryOp, x: string, r: Expr, store: Store, fuel: nat, a: Value, b: Value, s: Store, v: Value)
    requires Eval(src, Id(x), store, fuel) == Success((a, store)) && Eval(src, r, store, fuel) == Success((b, s))
    requires Binop(op, a, b) == Success(v)
    ensures Eval(src, OpAssign(op, Id(x), r), store, fuel).Success?
    ensures var after := Eval(src, OpAssign(op, Id(x), r), store, fuel).value;
            after.0 == v && Eval(src, Id(x), after.1, fuel) == Success((v, after.1))
  {
    OpAssignStores(src, op, x, r, store, fuel, a, b, s, v);
    ReadsStored(src, x, s, fuel, v);
  }

  lemma OpAssignStores(src: Source, op: BinaryOp, x: string, r: Expr, store: Store, fuel: nat, a: Value, b: Value, s: Store, v: Value)
    requires Eval(src, Id(x), store, fuel) == Success((a, store)) && Eval(src, r, store, fuel) == Success((b, s))
    requires Binop(op, a, b) == Success(v)
    ensures Eval(src, OpAssign(op, Id(x), r), store, fuel) == Success((v, s[Lower(x) := v]))
  {
    var e, l := OpAssign(op, Id(x), r), Id(x);
    assert e.lhs == l && e.rhs == r && Eval(src, l, store, fuel) == Success((a, store));
    assert Lift(Binop(op, a, b)) == Success(v) && Update(s, l, v) == Success(s[Lower(x) := v]);
  }

  lemma ReadsStored(src: Source, x: string, s: Store, fuel: nat, v: Value)
    ensures Eval(src, Id(x), s[Lower(x) := v], fuel) == Success((v, s[Lower(x) := v]))
  {
  }
}
