/** Integer constants of arithmetic expressions (strlong): decimal, 0 octal, 0x hexadecimal and base#digits. */
module Numbers {
  import opened Integers
  import opened Options
  import opened Text

  predicate ValidNumChar(c: char) {
    IsAlnum(c) || c == '_' || c == '@'
  }

  /** The digit a character stands for. Letters ignore case up to base 36. */
  function DigitOf(c: char, base: int): (d: int)
    requires ValidNumChar(c)
    ensures 0 <= d < 64
  {
    if IsDigit(c) then c as int - '0' as int
    else if 'a' <= c <= 'z' then c as int - 'a' as int + 10
    else if 'A' <= c <= 'Z' then c as int - 'A' as int + (if base <= 36 then 10 else 36)
    else if c == '@' then 62
    else 63
  }

  /** Above base 36 distinct characters are distinct digits and all 64 digits are available. */
  lemma {:induction false} DigitsDistinctAbove36(c: char, d: char, base: int)
    requires ValidNumChar(c) && ValidNumChar(d)
    ensures base > 36 ==> (DigitOf(c, base) == DigitOf(d, base) <==> c == d)
    ensures base <= 36 && IsAlpha(c) && IsAlpha(d) ==>
              (DigitOf(c, base) == DigitOf(d, base) <==>
               (c as int - d as int) in {0, 'a' as int - 'A' as int, 'A' as int - 'a' as int})
  {
  }

  /** The digit characters in order: 0 to 9, a to z, A to Z, @ and _. */
  function DigitAfter(c: char): char
    requires ValidNumChar(c) && c != '_'
  {
    match c
    case '9' => 'a'
    case 'z' => 'A'
    case 'Z' => '@'
    case '@' => '_'
    case _ => c + 1 as char
  }

  /** Above base 36 the digits count up from 0 in this order; up to base 36 they do as far as z, and a capital letter
      stands for the small one. */
  lemma DigitsInOrder(c: char, base: int)
    requires ValidNumChar(c)
    ensures DigitOf('0', base) == 0
    ensures c != '_' && base > 36 ==>
              ValidNumChar(DigitAfter(c)) && DigitOf(DigitAfter(c), base) == DigitOf(c, base) + 1
    ensures IsDigit(c) || 'a' <= c < 'z' ==>
              ValidNumChar(DigitAfter(c)) && DigitOf(DigitAfter(c), base) == DigitOf(c, base) + 1
    ensures base <= 36 && 'A' <= c <= 'Z' ==> DigitOf(c, base) == DigitOf(c - 'A' + 'a', base)
  {
  }

  predicate AllDigits(t: string, base: int) {
    forall i :: 0 <= i < |t| ==> ValidNumChar(t[i]) && DigitOf(t[i], base) < base
  }

  /** Positional value of the digits `t` in `base`, without any wrapping. */
  function Positional(t: string, base: int): int
    requires AllDigits(t, base)
  {
    if t == [] then 0 else Positional(t[..|t| - 1], base) * base + DigitOf(t[|t| - 1], base)
  }

  /** The value of `t` in `base`, or nothing when a character is not a digit of the base. */
  function InBase(t: string, base: int): Option<intmax> {
    if AllDigits(t, base) then Some(Wrap(Positional(t, base))) else None
  }

  /** The longest prefix made of constant characters. */
  function NumberSpan(s: string, i: nat): (j: nat)
    requires i <= |s|
    ensures i <= j <= |s|
    ensures forall k :: i <= k < j ==> ValidNumChar(s[k]) || s[k] == '#'
    ensures j < |s| ==> !ValidNumChar(s[j]) && s[j] != '#'
    decreases |s| - i
  {
    if i < |s| && (ValidNumChar(s[i]) || s[i] == '#') then NumberSpan(s, i + 1) else i
  }

  /** The first '#' at or after `i`, or the end. */
  function HashAt(s: string, i: nat): (j: nat)
    requires i <= |s|
    ensures i <= j <= |s|
    ensures forall k :: i <= k < j ==> s[k] != '#'
    ensures j < |s| ==> s[j] == '#'
    decreases |s| - i
  {
    if i < |s| && s[i] != '#' then HashAt(s, i + 1) else i
  }

  /** What a constant made only of constant characters denotes; None is an evaluation error. */
  function TokenValue(t: string): Option<intmax> {
    if At(t, 0) == '0' then
      if At(t, 1) == 'x' || At(t, 1) == 'X' then InBase(t[2..], 16) else InBase(t[1..], 8)
    else
      var h := HashAt(t, 0);
      if h == |t| then InBase(t, 10)
      else
        match InBase(t[..h], 10)
        case None => None
        case Some(base) => if 2 <= base <= 64 && h + 1 < |t| then InBase(t[h + 1..], base) else None
  }

  /** What strlong returns for the text of a constant: it reads up to the first other character. */
  function NumberValue(s: string): Option<intmax> {
    TokenValue(s[..NumberSpan(s, 0)])
  }

  lemma InBaseExtend(t: string, c: char, base: int)
    requires ValidNumChar(c)
    ensures InBase(t + [c], base) ==
            if InBase(t, base).Some? && DigitOf(c, base) < base
            then Some(Wrap(InBase(t, base).value * base + DigitOf(c, base))) else None
  {
    var u := t + [c];
    assert u[..|u| - 1] == t;
    assert u[|t|] == c;
    if AllDigits(u, base) {
      assert forall i :: 0 <= i < |t| ==> t[i] == u[i];
      WrapAdd(Positional(t, base) * base, DigitOf(c, base));
      WrapMul(Positional(t, base), base);
      WrapAdd(Wrap(Positional(t, base)) * base, DigitOf(c, base));
    } else if AllDigits(t, base) {
      assert forall i :: 0 <= i < |t| ==> u[i] == t[i];
    }
  }

  /** A character that is no digit of the base spoils every longer text. */
  lemma InBaseRejects(t: string, k: nat, base: int)
    requires k < |t|
    requires !ValidNumChar(t[k]) || DigitOf(t[k], base) >= base
    ensures InBase(t, base) == None
  {
  }

  lemma HashFound(t: string, h: nat)
    requires h <= |t|
    requires forall k :: 0 <= k < h ==> t[k] != '#'
    ensures h < |t| && t[h] == '#' ==> HashAt(t, 0) == h
    ensures h == |t| ==> HashAt(t, 0) == h
    ensures HashAt(t, 0) >= h
  {
  }

  /** The reading loop: the value so far, the base, and whether the base is settled. */
  function ReadFrom(s: string, i: nat, base: int, foundBase: bool, val: intmax): Option<intmax>
    requires i <= |s|
    decreases |s| - i
  {
    if i == |s| then Some(val)
    else if s[i] == '#' then
      if foundBase || val < 2 || val > 64 || !ValidNumChar(At(s, i + 1)) then None
      else ReadFrom(s, i + 1, val, true, 0)
    else if ValidNumChar(s[i]) then
      if DigitOf(s[i], base) >= base then None
      else ReadFrom(s, i + 1, base, foundBase, Wrap(val * base + DigitOf(s[i], base)))
    else Some(val)
  }

  /** With the base settled, the rest of the constant is read in that base. */
  lemma {:induction false} ReadInBase(s: string, start: nat, i: nat, base: int, val: intmax)
    requires start <= i <= |s|
    requires InBase(s[start..i], base) == Some(val)
    ensures ReadFrom(s, i, base, true, val) == InBase(s[start..NumberSpan(s, i)], base)
    decreases |s| - i
  {
    var n := NumberSpan(s, i);
    if i < n && s[i] == '#' {
      InBaseRejects(s[start..n], i - start, base);
    } else if i < n {
      assert s[start..i] + [s[i]] == s[start..i + 1];
      InBaseExtend(s[start..i], s[i], base);
      if DigitOf(s[i], base) >= base {
        InBaseRejects(s[start..n], i - start, base);
      } else {
        ReadInBase(s, start, i + 1, base, Wrap(val * base + DigitOf(s[i], base)));
      }
    }
  }

  /** Without a leading 0, decimal digits are read until a '#' turns them into the base. */
  lemma {:induction false} ReadDecimal(s: string, i: nat, val: intmax)
    requires i <= |s| && At(s, 0) != '0'
    requires InBase(s[..i], 10) == Some(val)
    requires forall k :: 0 <= k < i ==> s[k] != '#'
    ensures ReadFrom(s, i, 10, false, val) == TokenValue(s[..NumberSpan(s, i)])
    decreases |s| - i
  {
    var n := NumberSpan(s, i);
    var t := s[..n];
    HashFound(t, i);
    assert t[..i] == s[..i];
    if i == n {
    } else if s[i] == '#' {
      if 2 <= val <= 64 && ValidNumChar(At(s, i + 1)) {
        assert s[i + 1..i + 1] == "";
        ReadInBase(s, i + 1, i + 1, val, 0);
        assert t[i + 1..] == s[i + 1..n];
      } else if i + 1 < n && 2 <= val <= 64 {
        InBaseRejects(t[i + 1..], 0, val);
      }
    } else if DigitOf(s[i], 10) >= 10 {
      var h := HashAt(t, 0);
      InBaseRejects(t[..h], i, 10);
    } else {
      assert s[..i] + [s[i]] == s[..i + 1];
      InBaseExtend(s[..i], s[i], 10);
      ReadDecimal(s, i + 1, Wrap(val * 10 + DigitOf(s[i], 10)));
    }
  }

  /** A leading 0 or 0x settles the base before the loop. */
  lemma {:induction false} ReadPrefixed(s: string)
    requires At(s, 0) == '0'
    ensures At(s, 1) == NUL ==> NumberValue(s) == Some(0)
    ensures At(s, 1) in {'x', 'X'} ==> ReadFrom(s, 2, 16, true, 0) == NumberValue(s)
    ensures At(s, 1) !in {'x', 'X', NUL} ==> ReadFrom(s, 1, 8, true, 0) == NumberValue(s)
  {
    var n := NumberSpan(s, 0);
    assert n == NumberSpan(s, 1);
    var t := s[..n];
    assert At(t, 0) == '0';
    if At(s, 1) in {'x', 'X'} {
      assert n == NumberSpan(s, 2);
      assert At(t, 1) == At(s, 1) && t[2..] == s[2..n];
      assert s[2..2] == "";
      ReadInBase(s, 2, 2, 16, 0);
    } else {
      assert At(t, 1) !in {'x', 'X'} && t[1..] == s[1..n];
      assert s[1..1] == "";
      ReadInBase(s, 1, 1, 8, 0);
      if At(s, 1) == NUL {
        assert n == 1;
      }
    }
  }

  /** Reads a constant from left to right, as strlong does; None is an evaluation error. */
  method StrLong(s: string) returns (r: Option<intmax>)
    requires NoNul(s)
    ensures r == NumberValue(s)
  {
    var i, base, foundBase := 0, 10, false;
    if At(s, i) == '0' {
      ReadPrefixed(s);
      i := i + 1;
      if At(s, i) == NUL {
        return Some(0);
      }
      if At(s, i) == 'x' || At(s, i) == 'X' {
        base := 16;
        i := i + 1;
      } else {
        base := 8;
      }
      foundBase := true;
    } else {
      assert s[..0] == "";
      ReadDecimal(s, 0, 0);
    }
    var val: intmax := 0;
    while i < |s|
      invariant i <= |s|
      invariant ReadFrom(s, i, base, foundBase, val) == NumberValue(s)
    {
      var c := s[i];
      if c == '#' {
        if foundBase {
          return None;
        }
        if val < 2 || val > 64 {
          return None;
        }
        base, val, foundBase := val, 0, true;
        if !ValidNumChar(At(s, i + 1)) {
          return None;
        }
      } else if ValidNumChar(c) {
        if DigitOf(c, base) >= base {
          return None;
        }
        val := Wrap(val * base + DigitOf(c, base));
      } else {
        break;
      }
      i := i + 1;
    }
    r := Some(val);
  }
}
