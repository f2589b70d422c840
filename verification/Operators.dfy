/** What the arithmetic operators compute, said without the table of their definitions: by the laws of addition and
    multiplication modulo 2^64, of division, of order, of shifts and of single bits. */
module Operators {
  import opened Integers
  import opened Options
  import opened Tokens
  import opened Trees

  /** The result of an operation that has one. */
  function Of(op: BinOp, a: intmax, b: intmax): intmax
    requires Compute(op, a, b).Some?
  {
    Compute(op, a, b).value
  }

  predicate Congruent(x: int, y: int) {
    (x - y) % TWO64 == 0
  }

  lemma WrapCongruent(x: int)
    ensures Congruent(Wrap(x), x)
  {
    var k := WrapQuotient(x);
    assert (Wrap(x) - x) == (-k) * TWO64;
    MultipleOf(-k);
  }

  lemma MultipleOf(k: int)
    ensures (k * TWO64) % TWO64 == 0
  {
  }

  /** A word is the only one in its class. */
  lemma WordsDiffer(a: intmax, b: intmax)
    ensures Congruent(a, b) <==> a == b
  {
  }

  /** Only division and remainder can fail, and only by zero. */
  lemma Defined(op: BinOp, a: intmax, b: intmax)
    ensures Compute(op, a, b).None? <==> op in {Div, Mod} && b == 0
  {
  }

  // ---------------------------------------------------------------- sums and products

  /** Addition counts on by ones and subtraction undoes it, both round the corner of the word. */
  lemma SumLaws(a: intmax, b: intmax)
    ensures Congruent(Of(Add, a, b), a + b) && Congruent(Of(Sub, a, b), a - b)
    ensures Of(Add, Of(Sub, a, b), b) == a && Of(Sub, Of(Add, a, b), b) == a
    ensures Of(Add, a, 0) == a && Of(Add, a, 1) == (if a < INTMAX_MAX then a + 1 else INTMAX_MIN)
    ensures b < INTMAX_MAX ==> Of(Add, a, b + 1) == Of(Add, Of(Add, a, b), 1)
  {
    hide Congruent, Wrap, Compute;
    var s, d, e: int := Wrap(a + b), Wrap(a - b), 0 - b;
    SumIs(a, b);
    SumIs(d, b);
    SumIs(s, b);
    SumIs(a, 0);
    SumIs(a, 1);
    SumIs(s, 1);
    WrapCongruent(a + b);
    WrapCongruent(a - b);
    WrapAdd(a - b, b);
    WrapAdd(a + b, e);
    WrapAdd(a + b, 1);
    WrapOf(a);
    if b < INTMAX_MAX {
      SumIs(a, b + 1);
    }
  }

  lemma SumIs(a: intmax, b: intmax)
    ensures Compute(Add, a, b) == Some(Wrap(a + b)) && Compute(Sub, a, b) == Some(Wrap(a - b))
  {
  }

  /** Multiplication is repeated addition. */
  lemma ProductLaws(a: intmax, b: intmax)
    ensures Congruent(Of(Mul, a, b), a * b)
    ensures Of(Mul, a, 0) == 0
    ensures b < INTMAX_MAX ==> Of(Mul, a, b + 1) == Of(Add, Of(Mul, a, b), a)
  {
    WrapCongruent(a * b);
    WrapAdd(a * b, a);
    assert a * (b + 1) == a * b + a;
  }

  // ---------------------------------------------------------------- quotients

  /** Quotient and remainder recompose the dividend; the remainder is smaller than the divisor and has the sign of the
      dividend. Only for the smallest number and -1 does the quotient not fit; it then wraps. */
  lemma QuotientLaws(a: intmax, b: intmax)
    requires b != 0
    ensures Compute(Div, a, b).Some? && Compute(Mod, a, b).Some?
    ensures var q, r := Of(Div, a, b), Of(Mod, a, b);
            && Abs(r) < Abs(b) && (r != 0 ==> (r < 0) == (a < 0))
            && Congruent(b * q + r, a)
            && (!(a == INTMAX_MIN && b == -1) ==> b * q + r == a)
  {
    if !(a == INTMAX_MIN && b == -1) {
      TruncDivRem(a, b);
    }
  }

  // ---------------------------------------------------------------- order

  /** Every comparison is 0 or 1; `<` goes up by ones and is a strict order, exactly one of `<`, `==` and `>` holds, and
      `>=`, `!=` and `<=` are their negations. */
  lemma OrderLaws(a: intmax, b: intmax, c: intmax)
    ensures forall op :: op in {EqEq, NotEq, LessEq, GreaterEq, Less, Greater} ==> Of(op, a, b) in {0, 1}
    ensures a < INTMAX_MAX ==> Of(Less, a, a + 1) == 1
    ensures Of(Less, a, b) == 1 && Of(Less, b, c) == 1 ==> Of(Less, a, c) == 1
    ensures Of(Less, a, b) + Of(EqEq, a, b) + Of(Greater, a, b) == 1
    ensures Of(EqEq, a, b) == 1 <==> a == b
    ensures Of(Greater, a, b) == Of(Less, b, a)
    ensures Of(GreaterEq, a, b) == 1 - Of(Less, a, b)
    ensures Of(NotEq, a, b) == 1 - Of(EqEq, a, b)
    ensures Of(LessEq, a, b) == 1 - Of(Greater, a, b)
  {
  }

  // ---------------------------------------------------------------- shifts

  lemma {:induction false} ShiftLeftMeans(a: intmax, n: nat)
    ensures ShiftLeftBy(a, n) == Wrap(a * PowerOfTwo(n))
    decreases n
  {
    if n > 0 {
      ShiftLeftMeans(Wrap(2 * a), n - 1);
      WrapMul(2 * a, PowerOfTwo(n - 1));
      DoubleEither(a, PowerOfTwo(n - 1));
    }
  }

  lemma DoubleEither(a: int, h: int)
    ensures (2 * a) * h == a * (2 * h)
  {
  }

  lemma {:induction false} ShiftRightMeans(a: intmax, n: nat)
    ensures ShiftRightBy(a, n) * PowerOfTwo(n) <= a < (ShiftRightBy(a, n) + 1) * PowerOfTwo(n)
    decreases n
  {
    if n > 0 {
      ShiftRightMeans(a / 2, n - 1);
      Doubled(ShiftRightBy(a, n), PowerOfTwo(n - 1), a / 2);
    }
  }

  lemma Doubled(v: int, h: int, a: int)
    requires v * h <= a < (v + 1) * h
    ensures v * (2 * h) <= 2 * a && 2 * a + 1 < (v + 1) * (2 * h)
  {
    var p, q := v * h, (v + 1) * h;
    assert v * (2 * h) == 2 * p;
    assert (v + 1) * (2 * h) == 2 * q;
  }

  /** Shifting left multiplies by a power of two, modulo 2^64; shifting right divides by it and rounds down. */
  lemma ShiftLaws(a: intmax, n: intmax)
    requires 0 <= n < 64
    ensures Congruent(Of(ShiftLeft, a, n), a * PowerOfTwo(n))
    ensures var v := Of(ShiftRight, a, n); v * PowerOfTwo(n) <= a < (v + 1) * PowerOfTwo(n)
  {
    hide Congruent, ShiftLeftBy, ShiftRightBy, Wrap, PowerOfTwo;
    ShiftLeftMeans(a, n);
    ShiftRightMeans(a, n);
    WrapCongruent(a * PowerOfTwo(n));
  }

  // ---------------------------------------------------------------- bits

  /** The i-th bit of a number in two's complement, of any width. */
  function Bit(a: int, i: nat): int {
    (a / PowerOfTwo(i)) % 2
  }

  lemma HalfBit(a: int, i: nat)
    requires i > 0
    ensures Bit(a, i) == Bit(a / 2, i - 1)
  {
    DivideTwice(a, PowerOfTwo(i - 1));
  }

  lemma DivideTwice(a: int, h: int)
    requires h > 0
    ensures a / (2 * h) == (a / 2) / h
  {
    var q := (a / 2) / h;
    var r := (a / 2) % h;
    assert a / 2 == q * h + r;
    assert a == (2 * h) * q + (2 * r + a % 2) by {
      assert a == 2 * (a / 2) + a % 2;
      assert 2 * (q * h) == (2 * h) * q;
    }
    QuotientIs(a, 2 * h, q, 2 * r + a % 2);
  }

  lemma QuotientIs(a: int, d: int, q: int, r: int)
    requires d > 0 && a == d * q + r && 0 <= r < d
    ensures a / d == q
  {
    var k := a / d - q;
    assert a == d * (a / d) + a % d;
    assert d * k == r - a % d by {
      assert d * k == d * (a / d) - d * q;
    }
    ProductGrows(d, k);
  }

  lemma ProductGrows(d: int, k: int)
    requires d > 0
    ensures k >= 1 ==> d * k >= d
    ensures k <= -1 ==> d * k <= -d
  {
    if k >= 1 {
      assert d * (k - 1) >= 0;
    } else if k <= -1 {
      assert d * (-1 - k) >= 0;
    }
  }

  /** The bits of 0 and of -1. */
  lemma SameBits(a: int, i: nat)
    requires a == 0 || a == -1
    ensures Bit(a, i) == -a
  {
    if a == -1 {
      QuotientIs(-1, PowerOfTwo(i), -1, PowerOfTwo(i) - 1);
    }
  }

  lemma {:induction false} BitOpBits(f: Bitwise, a: int, b: int, i: nat)
    ensures Bit(BitOp(f, a, b), i) == OnBit(f, Bit(a, i), Bit(b, i))
    decreases i
  {
    var r := BitOp(f, a, b);
    if a in {0, -1} && b in {0, -1} {
      SameBits(a, i);
      SameBits(b, i);
      SameBits(r, i);
    } else if i > 0 {
      HalfBit(a, i);
      HalfBit(b, i);
      HalfBit(r, i);
      assert r / 2 == BitOp(f, a / 2, b / 2);
      BitOpBits(f, a / 2, b / 2, i - 1);
    }
  }

  /** Every bit of the result is the operation on the two bits at its place. */
  lemma BitLaws(a: intmax, b: intmax, i: nat)
    ensures Bit(Of(BitAnd, a, b), i) == 1 <==> Bit(a, i) == 1 && Bit(b, i) == 1
    ensures Bit(Of(BitOr, a, b), i) == 1 <==> Bit(a, i) == 1 || Bit(b, i) == 1
    ensures Bit(Of(BitXor, a, b), i) == 1 <==> Bit(a, i) != Bit(b, i)
  {
    hide BitOp, Bit;
    BitOpBits(AndBits, a, b, i);
    BitOpBits(OrBits, a, b, i);
    BitOpBits(XorBits, a, b, i);
    ZeroOrOne(a, i);
    ZeroOrOne(b, i);
  }

  lemma ZeroOrOne(a: int, i: nat)
    ensures Bit(a, i) in {0, 1}
  {
  }

  /** Numbers of n bits and a sign are told apart by these bits, so the laws leave no choice. */
  lemma {:induction false} BitsDetermine(a: int, b: int, n: nat)
    requires -PowerOfTwo(n) <= a < PowerOfTwo(n) && -PowerOfTwo(n) <= b < PowerOfTwo(n)
    requires forall i :: 0 <= i <= n ==> Bit(a, i) == Bit(b, i)
    ensures a == b
    decreases n
  {
    assert PowerOfTwo(0) == 1;
    assert Bit(a, 0) == a % 2 && Bit(b, 0) == b % 2;
    if n > 0 {
      forall i | 0 <= i <= n - 1
        ensures Bit(a / 2, i) == Bit(b / 2, i)
      {
        HalfBit(a, i + 1);
        HalfBit(b, i + 1);
      }
      BitsDetermine(a / 2, b / 2, n - 1);
    }
  }

  // ---------------------------------------------------------------- unary operators

  lemma UnaryLaws(a: intmax)
    ensures Of(Add, ComputeUnary(Negate, a), a) == 0
    ensures Of(Add, ComputeUnary(BitNot, a), a) == -1
    ensures ComputeUnary(Plus, a) == a
    ensures ComputeUnary(LogNot, a) == (if a == 0 then 1 else 0)
  {
    WrapAdd(0 - a, a);
  }
}
