/** The shell's intmax_t arithmetic: 64-bit two's complement, with every result wrapped to the width
    of the type because expr.c does no overflow checking. */
module Integers {

  const TWO63: int := 0x8000_0000_0000_0000
  const TWO64: int := 0x1_0000_0000_0000_0000
  const INTMAX_MIN: int := -0x8000_0000_0000_0000
  const INTMAX_MAX: int := 0x7fff_ffff_ffff_ffff

  type intmax = x: int | -0x8000_0000_0000_0000 <= x <= 0x7fff_ffff_ffff_ffff

  /** The intmax_t value congruent to `x` modulo 2^64. */
  function Wrap(x: int): intmax {
    (x + TWO63) % TWO64 - TWO63
  }

  lemma WrapOf(a: intmax)
    ensures Wrap(a) == a
    ensures Wrap(a + 1) == if a < INTMAX_MAX then a + 1 else INTMAX_MIN
  {
  }

  lemma WrapPeriodic(x: int, k: int)
    ensures Wrap(x + k * TWO64) == Wrap(x)
  {
  }

  /** How far wrapping moved `x`, in multiples of 2^64. */
  lemma WrapQuotient(x: int) returns (k: int)
    ensures x == Wrap(x) + k * TWO64
  {
    k := (x + TWO63) / TWO64;
  }

  lemma WrapAdd(a: int, b: int)
    ensures Wrap(Wrap(a) + b) == Wrap(a + b)
  {
    var k := WrapQuotient(a);
    WrapPeriodic(Wrap(a) + b, k);
  }

  lemma WrapMul(a: int, b: int)
    ensures Wrap(Wrap(a) * b) == Wrap(a * b)
  {
    var k := WrapQuotient(a);
    assert a * b == Wrap(a) * b + (k * b) * TWO64 by {
      assert (Wrap(a) + k * TWO64) * b == Wrap(a) * b + (k * TWO64) * b;
      assert (k * TWO64) * b == (k * b) * TWO64;
    }
    WrapPeriodic(Wrap(a) * b, k * b);
  }

  lemma {:induction false} WrapMulBoth(a: int, b: int)
    ensures Wrap(Wrap(a) * Wrap(b)) == Wrap(a * b)
  {
    WrapMul(a, Wrap(b));
    WrapMul(b, a);
    assert a * Wrap(b) == Wrap(b) * a;
    assert a * b == b * a;
  }

  function Abs(x: int): int {
    if x < 0 then -x else x
  }

  lemma ProductAtLeast(q: int, b: int)
    requires q >= 0 && b >= 1
    ensures b * q >= q
    ensures b >= 2 ==> b * q >= 2 * q
  {
    assert (b - 1) * q >= 0;
    if b >= 2 {
      assert (b - 2) * q >= 0;
    }
  }

  lemma QuotientBound(a: int, b: int)
    requires a >= 0 && b > 0
    ensures 0 <= a / b <= a
    ensures b > 1 && a > 0 ==> a / b < a
  {
    ProductAtLeast(a / b, b);
  }

  /** C division: the quotient is truncated towards zero. */
  function TruncDiv(a: intmax, b: intmax): intmax
    requires b != 0
    requires !(a == INTMAX_MIN && b == -1)
  {
    var q := Abs(a) / Abs(b);
    QuotientBound(Abs(a), Abs(b));
    if (a < 0) == (b < 0) then q else -q
  }

  /** C remainder: the sign follows the dividend. */
  function TruncRem(a: intmax, b: intmax): intmax
    requires b != 0
  {
    var r := Abs(a) % Abs(b);
    if a < 0 then -r else r
  }

  lemma Signs(d: int, q: int)
    ensures (-d) * q == -(d * q) && d * (-q) == -(d * q) && (-d) * (-q) == d * q
  {
  }

  /** Division and remainder are the two halves of one identity, as imaxdiv promises. */
  lemma TruncDivRem(a: intmax, b: intmax)
    requires b != 0 && !(a == INTMAX_MIN && b == -1)
    ensures a == b * TruncDiv(a, b) + TruncRem(a, b)
    ensures Abs(TruncRem(a, b)) < Abs(b)
    ensures TruncRem(a, b) != 0 ==> (TruncRem(a, b) < 0) == (a < 0)
  {
    var p, d := Abs(a), Abs(b);
    var q := p / d;
    var m := d * q;
    assert p == m + p % d;
    Signs(d, q);
    assert b * TruncDiv(a, b) == if a < 0 then -m else m;
  }

  /** A left shift, one bit at a time. */
  function ShiftLeftBy(a: intmax, n: nat): intmax
    decreases n
  {
    if n == 0 then a else ShiftLeftBy(Wrap(2 * a), n - 1)
  }

  /** An arithmetic right shift, one bit at a time. */
  function ShiftRightBy(a: intmax, n: nat): intmax
    decreases n
  {
    if n == 0 then a else ShiftRightBy(a / 2, n - 1)
  }

  /** The shift instructions take the low six bits of the count. */
  function ShiftCount(b: intmax): nat {
    b % 64
  }

  datatype Bitwise = AndBits | OrBits | XorBits

  function OnBit(f: Bitwise, x: int, y: int): int
    requires x in {0, 1} && y in {0, 1}
  {
    match f
    case AndBits => if x == 1 && y == 1 then 1 else 0
    case OrBits => if x == 1 || y == 1 then 1 else 0
    case XorBits => if x != y then 1 else 0
  }

  /** Two's complement bitwise operation on integers of any width: -1 is all ones, 0 all zeros. */
  function BitOp(f: Bitwise, a: int, b: int): int
    decreases Abs(a) + Abs(b)
  {
    if a in {0, -1} && b in {0, -1} then
      -OnBit(f, -a, -b)
    else
      2 * BitOp(f, a / 2, b / 2) + OnBit(f, a % 2, b % 2)
  }

  function PowerOfTwo(n: nat): (r: int)
    ensures r > 0
  {
    if n == 0 then 1 else 2 * PowerOfTwo(n - 1)
  }

  /** A bitwise operation on two n-bit signed numbers is again an n-bit signed number. */
  lemma {:induction false} BitOpRange(f: Bitwise, a: int, b: int, n: nat)
    requires -PowerOfTwo(n) <= a < PowerOfTwo(n)
    requires -PowerOfTwo(n) <= b < PowerOfTwo(n)
    ensures -PowerOfTwo(n) <= BitOp(f, a, b) < PowerOfTwo(n)
    decreases n
  {
    if !(a in {0, -1} && b in {0, -1}) {
      assert n > 0;
      BitOpRange(f, a / 2, b / 2, n - 1);
    }
  }

  lemma EightMore(n: nat)
    ensures PowerOfTwo(n + 8) == 256 * PowerOfTwo(n)
  {
    assert PowerOfTwo(n + 2) == 4 * PowerOfTwo(n);
    assert PowerOfTwo(n + 4) == 4 * PowerOfTwo(n + 2);
    assert PowerOfTwo(n + 6) == 4 * PowerOfTwo(n + 4);
  }

  lemma PowerOfTwo63()
    ensures PowerOfTwo(63) == TWO63
  {
    assert PowerOfTwo(7) == 128;
    hide PowerOfTwo;
    EightMore(7);
    EightMore(15);
    EightMore(23);
    EightMore(31);
    EightMore(39);
    EightMore(47);
    EightMore(55);
  }

  function BitOp64(f: Bitwise, a: intmax, b: intmax): intmax {
    PowerOfTwo63();
    BitOpRange(f, a, b, 63);
    BitOp(f, a, b)
  }
}
