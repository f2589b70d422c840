/** Exponentiation by repeated squaring (ipow), against the mathematical power. */
module Exponent {
  import opened Integers

  function Power(base: int, exp: nat): int {
    if exp == 0 then 1 else base * Power(base, exp - 1)
  }

  lemma {:induction false} PowerAdd(base: int, m: nat, n: nat)
    ensures Power(base, m + n) == Power(base, m) * Power(base, n)
    decreases m
  {
    if m > 0 {
      PowerAdd(base, m - 1, n);
      Associate(base, Power(base, m - 1), Power(base, n));
    }
  }

  lemma Associate(a: int, b: int, c: int)
    ensures a * (b * c) == (a * b) * c
  {
  }

  lemma {:induction false} PowerOfSquare(base: int, n: nat)
    ensures Power(base * base, n) == Power(base, 2 * n)
    decreases n
  {
    if n > 0 {
      PowerOfSquare(base, n - 1);
      Associate(base, base, Power(base, 2 * n - 2));
      assert Power(base, 2 * n) == base * Power(base, 2 * n - 1);
      assert Power(base, 2 * n - 1) == base * Power(base, 2 * n - 2);
    }
  }

  lemma WrapSame(a: int, b: int, a': int, b': int)
    requires a == Wrap(a') && Wrap(b) == Wrap(b')
    ensures Wrap(a * b) == Wrap(a' * b')
  {
    WrapMul(a', b);
    WrapMulBoth(a', b);
    WrapMulBoth(a', b');
  }

  /** Wrapping the base first does not change the wrapped power. */
  lemma {:induction false} PowerOfWrapped(base: int, n: nat)
    ensures Wrap(Power(Wrap(base), n)) == Wrap(Power(base, n))
    decreases n
  {
    if n > 0 {
      hide Wrap;
      PowerOfWrapped(base, n - 1);
      WrapSame(Wrap(base), Power(Wrap(base), n - 1), base, Power(base, n - 1));
    }
  }

  /** The number of binary digits of `n`. */
  function BitLength(n: nat): nat {
    if n == 0 then 0 else 1 + BitLength(n / 2)
  }

  lemma PowerHalves(base: int, exp: nat)
    ensures Power(base, exp) == (if exp % 2 == 1 then base else 1) * Power(base * base, exp / 2)
  {
    var h := exp / 2;
    PowerOfSquare(base, h);
    if exp % 2 == 1 {
      assert exp - 1 == 2 * h;
    } else {
      assert exp == 2 * h;
    }
  }

  /** One step of squaring keeps `result * base^exp` modulo 2^64. */
  lemma SquaringStep(result: intmax, base: intmax, exp: nat)
    requires exp > 0
    ensures var result' := if exp % 2 == 1 then Wrap(result * base) else result;
            Wrap(result' * Power(Wrap(base * base), exp / 2)) == Wrap(result * Power(base, exp))
  {
    hide Wrap, Power;
    var h, square := exp / 2, Power(base * base, exp / 2);
    var factor := if exp % 2 == 1 then base else 1;
    var result' := if exp % 2 == 1 then Wrap(result * base) else result;
    WrapOf(result);
    PowerOfWrapped(base * base, h);
    WrapSame(result', Power(Wrap(base * base), h), result * factor, square);
    PowerHalves(base, exp);
    Associate(result, factor, square);
  }

  /** What the squaring loop leaves in its accumulator. */
  function Squared(result: intmax, base: intmax, exp: nat): intmax
    decreases exp
  {
    if exp == 0 then result
    else Squared(if exp % 2 == 1 then Wrap(result * base) else result, Wrap(base * base), exp / 2)
  }

  lemma {:induction false} SquaredIsPower(result: intmax, base: intmax, exp: nat)
    ensures Squared(result, base, exp) == Wrap(result * Power(base, exp))
    decreases exp
  {
    if exp > 0 {
      SquaredIsPower(if exp % 2 == 1 then Wrap(result * base) else result, Wrap(base * base), exp / 2);
      SquaringStep(result, base, exp);
    }
  }

  /** The body of the loop: use the low bit of the exponent, drop it, square the base. */
  method SquareOnce(result0: intmax, base0: intmax, exp0: intmax) returns (result: intmax, base: intmax, exp: intmax)
    requires exp0 > 0
    ensures exp == exp0 / 2
    ensures Squared(result, base, exp) == Squared(result0, base0, exp0)
  {
    result := result0;
    if exp0 % 2 == 1 {
      result := Wrap(result0 * base0);
    }
    exp := exp0 / 2;
    base := Wrap(base0 * base0);
  }

  /** base^exp modulo 2^64, one squaring for each binary digit of the exponent. A negative exponent
      would never shift down to zero, so the caller must have rejected it. */
  method IPow(base0: intmax, exp0: intmax) returns (result: intmax, ghost squarings: nat)
    requires exp0 >= 0
    ensures result == Wrap(Power(base0, exp0))
    ensures squarings == BitLength(exp0)
  {
    var base, exp := base0, exp0;
    result, squarings := 1, 0;
    while exp != 0
      invariant exp >= 0
      invariant Squared(result, base, exp) == Squared(1, base0, exp0)
      invariant squarings + BitLength(exp) == BitLength(exp0)
      decreases exp
    {
      result, base, exp := SquareOnce(result, base, exp);
      squarings := squarings + 1;
    }
    SquaredIsPower(1, base0, exp0);
  }

  /** 63 squarings are enough for every exponent that fits the type. */
  lemma {:induction false} BitLengthBound(n: nat, bits: nat)
    requires n < PowerOfTwo(bits)
    ensures BitLength(n) <= bits
    decreases bits
  {
    if n > 0 {
      BitLengthBound(n / 2, bits - 1);
    }
  }
}
