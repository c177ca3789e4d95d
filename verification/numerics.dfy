/** Fixed-width integers of the C# source and the opaque 64-bit float. */
module Numerics {

  const MinLong: int := -0x8000_0000_0000_0000
  const MaxLong: int := 0x7FFF_FFFF_FFFF_FFFF
  const TwoTo64: int := 0x1_0000_0000_0000_0000

  /** C# `long`. */
  type Int64 = x: int | -0x8000_0000_0000_0000 <= x < 0x8000_0000_0000_0000

  /** C# `int`. */
  type Int32 = x: int | -0x8000_0000 <= x < 0x8000_0000

  function Abs(x: int): nat {
    if x < 0 then -x else x
  }

  /** Unchecked 64-bit two's-complement wrap-around, the default for `+`, `-`
      and `*` on `long`. */
  function Wrap(x: int): (r: Int64)
    ensures (x - r) % TwoTo64 == 0
    ensures MinLong <= x <= MaxLong ==> r == x
  {
    var m := (x + 0x8000_0000_0000_0000) % TwoTo64;
    assert x - (m - 0x8000_0000_0000_0000) == ((x + 0x8000_0000_0000_0000) / TwoTo64) * TwoTo64;
    m - 0x8000_0000_0000_0000
  }

  /** C# integer division: the quotient is truncated toward zero. */
  function TruncDiv(a: int, b: int): (q: int)
    requires b != 0
    ensures Abs(q) <= Abs(a)
  {
    var q0 := Abs(a) / Abs(b);
    QuotientBound(Abs(a), Abs(b));
    if (a >= 0) == (b > 0) then q0 else -q0
  }

  lemma {:induction false} ProductAtLeast(q: nat, y: nat)
    requires y >= 1
    ensures q * y >= q
  {
    if y > 1 {
      ProductAtLeast(q, y - 1);
      assert q * y == q * (y - 1) + q;
    }
  }

  lemma QuotientBound(x: nat, y: nat)
    requires y > 0
    ensures x / y <= x
  {
    var q := x / y;
    assert x == q * y + x % y;
    ProductAtLeast(q, y);
  }

  lemma QuotientHalf(x: nat, y: nat)
    requires y >= 2
    ensures 2 * (x / y) <= x
  {
    var q := x / y;
    assert x == q * y + x % y;
    var z: nat := y - 2;
    assert q * y == q * z + 2 * q;
    assert q * z >= 0;
  }

  /** The remainder left by `TruncDiv` is smaller than the divisor and is zero
      or carries the dividend's sign: the quotient is rounded toward zero,
      unlike Dafny's own Euclidean `/`. */
  lemma TruncDivRemainder(a: int, b: int)
    requires b != 0
    ensures Abs(a - TruncDiv(a, b) * b) < Abs(b)
    ensures a - TruncDiv(a, b) * b == 0 || (a - TruncDiv(a, b) * b < 0 <==> a < 0)
  {
    var q := TruncDiv(a, b);
    var A: int, B: int := Abs(a), Abs(b);
    var q0: int, r0: int := A / B, A % B;
    assert A == q0 * B + r0 && 0 <= r0 < B;
    if (a >= 0) == (b > 0) {
      assert q == q0;
      SameSignProduct(a, b, q0);
      assert a - q * b == if a >= 0 then r0 else -r0;
    } else {
      assert q == -q0;
      OppositeSignProduct(a, b, q0);
      assert a - q * b == if a >= 0 then r0 else -r0;
    }
  }

  /** When dividend and divisor agree in sign, `q * b` is `q * |b|` with the
      dividend's sign. */
  lemma SameSignProduct(a: int, b: int, q: int)
    requires b != 0 && (a >= 0) == (b > 0)
    ensures q * b == if a >= 0 then q * Abs(b) else -(q * Abs(b))
  {
  }

  /** When they differ in sign, `-q * b` is `q * |b|` with the dividend's
      sign. */
  lemma OppositeSignProduct(a: int, b: int, q: int)
    requires b != 0 && (a >= 0) != (b > 0)
    ensures -q * b == if a >= 0 then q * Abs(b) else -(q * Abs(b))
  {
  }

  /** The unsigned reading of a `long`'s two's-complement bit pattern. */
  function Unsigned(x: Int64): (u: nat)
    ensures u < TwoTo64
  {
    if x < 0 then x + TwoTo64 else x
  }

  /** The `long` whose two's-complement bit pattern reads as `u`. */
  function Signed(u: nat): Int64
    requires u < TwoTo64
  {
    if u <= MaxLong then u else u - TwoTo64
  }

  /** Bitwise or (`isOr`) or and of `x` and `y` on the bits below `bound`
      (a power of two), least significant bit first. */
  function Bitwise(x: nat, y: nat, bound: nat, isOr: bool): (r: nat)
    requires bound >= 1
    ensures r < bound
    decreases bound
  {
    if bound == 1 then 0
    else
      var low := if isOr then x % 2 == 1 || y % 2 == 1 else x % 2 == 1 && y % 2 == 1;
      2 * Bitwise(x / 2, y / 2, bound / 2, isOr) + (if low then 1 else 0)
  }

  /** `long | long`. */
  function BitOr(a: Int64, b: Int64): Int64 {
    Signed(Bitwise(Unsigned(a), Unsigned(b), TwoTo64, true))
  }

  /** `long & long`. */
  function BitAnd(a: Int64, b: Int64): Int64 {
    Signed(Bitwise(Unsigned(a), Unsigned(b), TwoTo64, false))
  }

  lemma {:induction false} BitwiseOfZero(bound: nat, isOr: bool)
    requires bound >= 1
    ensures Bitwise(0, 0, bound, isOr) == 0
    decreases bound
  {
    if bound > 1 {
      BitwiseOfZero(bound / 2, isOr);
    }
  }

  /** 2 to the power `n`: the bounds `Bitwise` halves through. */
  function Pow2(n: nat): (r: nat)
    ensures r >= 1
  {
    if n == 0 then 1 else 2 * Pow2(n - 1)
  }

  lemma {:induction false} Pow2Add(a: nat, b: nat)
    ensures Pow2(a + b) == Pow2(a) * Pow2(b)
    decreases a
  {
    if a > 0 {
      Pow2Add(a - 1, b);
      assert Pow2(a + b) == 2 * Pow2(a - 1 + b);
    }
  }

  lemma Pow2Is64Bits()
    ensures Pow2(64) == TwoTo64
  {
    assert Pow2(2) == 4;
    Pow2Add(2, 2);
    assert Pow2(4) == 0x10;
    Pow2Add(4, 4);
    assert Pow2(8) == 0x100;
    Pow2Add(8, 8);
    assert Pow2(16) == 0x1_0000;
    Pow2Add(16, 16);
    assert Pow2(32) == 0x1_0000_0000;
    Pow2Add(32, 32);
  }

  lemma {:induction false} BitwiseCommutes(x: nat, y: nat, bound: nat, isOr: bool)
    requires bound >= 1
    ensures Bitwise(x, y, bound, isOr) == Bitwise(y, x, bound, isOr)
    decreases bound
  {
    if bound > 1 {
      BitwiseCommutes(x / 2, y / 2, bound / 2, isOr);
    }
  }

  /** Or with no bits and and with all bits give back every bit of `x`, as
      does combining `x` with itself. */
  lemma {:induction false} BitwiseIdentities(x: nat, n: nat, isOr: bool)
    requires x < Pow2(n)
    ensures Bitwise(x, 0, Pow2(n), true) == x
    ensures Bitwise(x, Pow2(n) - 1, Pow2(n), false) == x
    ensures Bitwise(x, x, Pow2(n), isOr) == x
    decreases n
  {
    if n > 0 {
      assert Pow2(n) / 2 == Pow2(n - 1);
      assert (Pow2(n) - 1) / 2 == Pow2(n - 1) - 1 && (Pow2(n) - 1) % 2 == 1;
      BitwiseIdentities(x / 2, n - 1, isOr);
    }
  }

  /** And with no bits clears every bit. */
  lemma {:induction false} BitwiseAndZero(x: nat, bound: nat)
    requires bound >= 1
    ensures Bitwise(x, 0, bound, false) == 0
    decreases bound
  {
    if bound > 1 {
      BitwiseAndZero(x / 2, bound / 2);
    }
  }

  /** `|` and `&` on any two longs: both commute and are idempotent, 0 is
      the unit of `|` and the zero of `&`, and -1 (all bits set) is the
      unit of `&`. */
  lemma BitOperatorLaws(a: Int64, b: Int64)
    ensures BitOr(a, b) == BitOr(b, a) && BitAnd(a, b) == BitAnd(b, a)
    ensures BitOr(a, a) == a && BitAnd(a, a) == a
    ensures BitOr(a, 0) == a && BitAnd(a, 0) == 0 && BitAnd(a, -1) == a
  {
    var x, y := Unsigned(a), Unsigned(b);
    BitwiseCommutes(x, y, TwoTo64, true);
    BitwiseCommutes(x, y, TwoTo64, false);
    Pow2Is64Bits();
    BitwiseIdentities(x, 64, true);
    BitwiseIdentities(x, 64, false);
    BitwiseAndZero(x, TwoTo64);
    assert Unsigned(0) == 0 && Unsigned(-1) == TwoTo64 - 1;
    assert Signed(x) == a;
  }

  /** The laws above hold of max and min as well; this instance tells the
      bit operators apart from them: `6 | 3` is 7 and `6 & 3` is 2. */
  lemma BitOperatorExample()
    ensures BitOr(6, 3) == 7 && BitAnd(6, 3) == 2
  {
    var b0 := TwoTo64;
    var b1, b2, b3 := b0 / 2, b0 / 4, b0 / 8;
    assert b1 > 1 && b2 > 1 && b3 > 1 && b2 == b1 / 2 && b3 == b2 / 2;
    BitwiseOfZero(b3, true);
    BitwiseOfZero(b3, false);
    assert Bitwise(1, 0, b2, true) == 1 && Bitwise(1, 0, b2, false) == 0;
    assert Bitwise(3, 1, b1, true) == 3 && Bitwise(3, 1, b1, false) == 1;
    assert Bitwise(6, 3, b0, true) == 7 && Bitwise(6, 3, b0, false) == 2;
  }

  /** On the truth values 0 and 1 that the comparisons produce, `|` and `&`
      act as logical or and logical and. */
  lemma LogicalOnTruthValues(a: Int64, b: Int64)
    requires 0 <= a <= 1 && 0 <= b <= 1
    ensures BitOr(a, b) == if a == 1 || b == 1 then 1 else 0
    ensures BitAnd(a, b) == if a == 1 && b == 1 then 1 else 0
  {
    BitwiseOnTruthValues(a, b, true);
    BitwiseOnTruthValues(a, b, false);
  }

  /** On 0 and 1 only the lowest bit takes part. */
  lemma BitwiseOnTruthValues(a: nat, b: nat, isOr: bool)
    requires a <= 1 && b <= 1
    ensures Bitwise(a, b, TwoTo64, isOr) == if (if isOr then a == 1 || b == 1 else a == 1 && b == 1) then 1 else 0
  {
    var half := TwoTo64 / 2;
    assert a / 2 == 0 && b / 2 == 0 && a % 2 == a && b % 2 == b;
    BitwiseOfZero(half, isOr);
  }

  /** A C# `double`, kept as its IEEE 754 bit pattern. Its arithmetic is not
      interpreted: every operation on it comes from a `FloatOps` value. */
  datatype Double = Double(bits: bv64)

  /** 0.0 */
  const Zero: Double := Double(0)

  /** 1.0 */
  const One: Double := Double(0x3FF0_0000_0000_0000)

  /** The floating-point primitives the engine calls, left uninterpreted.
      `math` stands for Math.Sqrt, Math.Round, Math.Ceiling and Math.Floor
      (keyed by the operator that selects them), `arith` for `+ - * /` and
      Math.Pow, `less`/`lessOrEqual` for `<` and `<=` (IEEE `a > b` is `b < a`).
      `toLong` and `toInt` are the `(long)` and `(int)` casts, `fromLong` the
      implicit widening of a `long` (or `int`) to `double`. */
  datatype FloatOps = FloatOps(
    math: (MathFunction, Double) -> Double,
    arith: (ArithOp, Double, Double) -> Double,
    less: (Double, Double) -> bool,
    lessOrEqual: (Double, Double) -> bool,
    toLong: Double -> Int64,
    toInt: Double -> Int32,
    fromLong: Int64 -> Double)

  /** Math.Sqrt, Math.Round (which rounds halves to even), Math.Ceiling, Math.Floor. */
  datatype MathFunction = SqrtOf | RoundOf | CeilingOf | FloorOf

  /** `+`, `-`, `*`, `/` and Math.Pow on doubles. */
  datatype ArithOp = Plus | Minus | Times | Over | Pow
}
