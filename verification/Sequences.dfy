/** Sequence expressions inside braces: {x..y} and {x..y..incr}, with integers or letters. */
module Sequences {
  import opened Integers
  import opened Text
  import opened Options

  datatype TermType = CharTerm | IntTerm | PaddedTerm

  // ---------------------------------------------------------------- reading integers

  /** What strtoimax finds: a value, where it stopped (0 if there were no digits), and whether it overflowed. */
  datatype Parsed = Parsed(value: intmax, end: nat, range: bool)

  function SkipSpace(s: string, i: nat): (j: nat)
    requires i <= |s|
    ensures i <= j <= |s|
    ensures j < |s| ==> !IsSpace(s[j])
    decreases |s| - i
  {
    if i < |s| && IsSpace(s[i]) then SkipSpace(s, i + 1) else i
  }

  function DigitsEnd(s: string, i: nat): (j: nat)
    requires i <= |s|
    ensures i <= j <= |s|
    ensures forall k :: i <= k < j ==> IsDigit(s[k])
    ensures j < |s| ==> !IsDigit(s[j])
    decreases |s| - i
  {
    if i < |s| && IsDigit(s[i]) then DigitsEnd(s, i + 1) else i
  }

  function StrToIMax(s: string): (r: Parsed)
    ensures r.end <= |s|
  {
    var b := SkipSpace(s, 0);
    var signed := At(s, b) == '-' || At(s, b) == '+';
    var d := if signed then b + 1 else b;
    var e := DigitsEnd(s, d);
    if e == d then Parsed(0, 0, false) else Clamped(At(s, b) == '-', DecimalValue(s[d..e]), e)
  }

  /** A number out of range becomes the nearest one in range. */
  function Clamped(negative: bool, v: nat, end: nat): (r: Parsed)
    ensures r.end == end
  {
    var value: int := if negative then 0 - v else v;
    if value > INTMAX_MAX then Parsed(INTMAX_MAX, end, true)
    else if value < INTMAX_MIN then Parsed(INTMAX_MIN, end, true)
    else Parsed(value, end, false)
  }

  /** valid_number: the whole text is a number in range, blanks around it allowed. */
  function ValidNumber(s: string): Option<intmax> {
    var p := StrToIMax(s);
    if p.range || p.end == 0 then None
    else if At(s, SkipSpace(s, p.end)) == NUL then Some(p.value)
    else None
  }

  // ---------------------------------------------------------------- generating the terms

  /** The increment that leads from start towards end. */
  function Step(start: int, end: int, incr: int): int {
    if (start < end) == (incr < 0) then -incr else incr
  }

  function ZeroPad(t: string, negative: bool, width: nat): string
    requires |t| > 0
  {
    if |t| >= width then t
    else if negative then t[..1] + Zeros(width - |t|) + t[1..]
    else Zeros(width - |t|) + t
  }

  function Zeros(n: nat): (z: string)
    ensures |z| == n
    ensures forall i :: 0 <= i < n ==> z[i] == '0'
  {
    seq(n, _ => '0')
  }

  function Term(n: intmax, kind: TermType, width: nat): string {
    match kind
    case IntTerm => Itos(n)
    case PaddedTerm => ZeroPad(Itos(n), n < 0, width)
    case CharTerm => if 0 <= n < 256 then [n as char] else "?"
  }

  /** Whether mkseq can count from start to end at all: both the increment and the distance must have an
      absolute value in range. */
  predicate Countable(start: intmax, end: intmax, incr: intmax) {
    incr != INTMAX_MIN && Abs(end - start) <= INTMAX_MAX
  }

  function Effective(incr: intmax): intmax {
    if incr == 0 then 1 else incr
  }

  function TermCount(start: intmax, end: intmax, incr: intmax): int {
    Abs(end - start) / Abs(Effective(incr)) + 1
  }

  function NthValue(start: intmax, end: intmax, incr: intmax, i: int): int {
    start + i * Step(start, end, Effective(incr))
  }

  lemma CountBound(distance: int, size: int, i: int)
    requires distance >= 0 && size > 0 && 0 <= i <= distance / size
    ensures 0 <= i * size <= distance
  {
    var q := distance / size;
    assert q * size + distance % size == distance;
    MulMonotone(i, q, size);
  }

  lemma {:induction false} MulMonotone(i: int, q: int, size: int)
    requires 0 <= i <= q && size > 0
    ensures 0 <= i * size <= q * size
  {
    assert (q - i) * size >= 0;
    assert i * size >= 0;
  }

  /** Every term lies between the two ends, so no step of the loop can overflow. */
  lemma {:induction false} NthInRange(start: intmax, end: intmax, incr: intmax, i: int)
    requires Countable(start, end, incr) && 0 <= i < TermCount(start, end, incr)
    ensures start <= end ==> start <= NthValue(start, end, incr, i) <= end
    ensures start >= end ==> end <= NthValue(start, end, incr, i) <= start
  {
    var size := Abs(Effective(incr));
    CountBound(Abs(end - start), size, i);
    var step := Step(start, end, Effective(incr));
    if start < end {
      assert step == size;
    } else {
      assert step == -size;
      assert i * -size == -(i * size);
    }
  }

  /** One step more than there are terms would lead past the end. */
  lemma NoFurtherTerm(start: intmax, end: intmax, incr: intmax)
    requires Countable(start, end, incr)
    ensures var n := TermCount(start, end, incr);
            n >= 1 && Abs(end - NthValue(start, end, incr, n - 1)) < Abs(Effective(incr))
  {
    CountPositive(start, end, incr);
    var size, distance := Abs(Effective(incr)), Abs(end - start);
    var q := distance / size;
    assert q * size + distance % size == distance;
    var step := Step(start, end, Effective(incr));
    if step != size {
      assert q * -size == -(q * size);
    }
  }

  /** From term to term the numbers go towards the end by the increment, by 1 if it is 0; its sign does not matter. */
  lemma StepSize(start: intmax, end: intmax, incr: intmax, i: nat)
    ensures var size := if incr == 0 then 1 else Abs(incr);
            var a, b := NthValue(start, end, incr, i), NthValue(start, end, incr, i + 1);
            (start < end ==> b == a + size) && (start > end ==> b == a - size)
    ensures NthValue(start, end, incr, 0) == start
  {
    var step := Step(start, end, Effective(incr));
    assert (i + 1) * step == i * step + step;
  }

  lemma NthFirst(start: intmax, end: intmax, incr: intmax)
    ensures NthValue(start, end, incr, 0) == start
  {
  }

  lemma NthNext(start: intmax, end: intmax, incr: intmax, i: int)
    ensures NthValue(start, end, incr, i + 1) == NthValue(start, end, incr, i) + Step(start, end, Effective(incr))
  {
    var step := Step(start, end, Effective(incr));
    assert (i + 1) * step == i * step + step;
  }

  /** The first `n` terms. */
  function Terms(start: intmax, end: intmax, incr: intmax, kind: TermType, width: nat, n: nat): (r: seq<string>)
    requires Countable(start, end, incr) && n <= TermCount(start, end, incr)
    ensures |r| == n
    ensures forall i :: 0 <= i < n ==> r[i] == Term(Nth(start, end, incr, i), kind, width)
  {
    if n == 0 then []
    else Terms(start, end, incr, kind, width, n - 1) + [Term(Nth(start, end, incr, n - 1), kind, width)]
  }

  /** The i-th value, which is in range. */
  function Nth(start: intmax, end: intmax, incr: intmax, i: nat): (v: intmax)
    requires Countable(start, end, incr) && i < TermCount(start, end, incr)
    ensures v == NthValue(start, end, incr, i)
    ensures start <= end ==> start <= v <= end
    ensures start >= end ==> end <= v <= start
  {
    NthInRange(start, end, incr, i);
    NthValue(start, end, incr, i)
  }

  lemma CountPositive(start: intmax, end: intmax, incr: intmax)
    requires Countable(start, end, incr)
    ensures TermCount(start, end, incr) >= 1
  {
    QuotientBound(Abs(end - start), Abs(Effective(incr)));
  }

  /** What mkseq returns: nothing, or all the terms. */
  function Sequence(start: intmax, end: intmax, incr: intmax, kind: TermType, width: nat): Option<seq<string>> {
    if !Countable(start, end, incr) then None
    else
      CountPositive(start, end, incr);
      Some(Terms(start, end, incr, kind, width, TermCount(start, end, incr)))
  }

  /** mkseq. Every intermediate value is an intmax_t: no addition of the loop overflows. */
  method MkSeq(start: intmax, end: intmax, incr0: intmax, kind: TermType, width: nat) returns (r: Option<seq<string>>)
    ensures r == Sequence(start, end, incr0, kind, width)
  {
    hide NthValue, Term;
    var incr := incr0;
    if incr == 0 {
      incr := 1;
    }
    if incr == INTMAX_MIN {
      return None;
    }
    var absIncr: intmax := if incr < 0 then -incr else incr;
    if (start < end) == (incr < 0) {
      incr := -incr;
    }
    var distance := if start < end then end - start else start - end;
    if distance > INTMAX_MAX {
      return None;
    }
    assert incr == Step(start, end, Effective(incr0));
    assert distance / absIncr + 1 == TermCount(start, end, incr0);
    CountPositive(start, end, incr0);
    var result := CountUp(start, end, incr0, incr, distance / absIncr + 2, kind, width);
    r := Some(result);
  }

  /** The loop of mkseq; nelem counts a trailing null. */
  method CountUp(start: intmax, end: intmax, ghost incr0: intmax, incr: intmax, nelem: int, kind: TermType, width: nat)
      returns (result: seq<string>)
    requires Countable(start, end, incr0) && incr == Step(start, end, Effective(incr0))
    requires nelem - 1 == TermCount(start, end, incr0) >= 1
    ensures result == Terms(start, end, incr0, kind, width, nelem - 1)
  {
    hide NthValue, Term, TermCount, Step, Countable;
    result := [];
    var i := 0;
    var n: intmax := start;
    NthFirst(start, end, incr0);
    while true
      invariant 0 <= i < nelem - 1
      invariant n == NthValue(start, end, incr0, i)
      invariant result == Terms(start, end, incr0, kind, width, i)
      decreases nelem - i
    {
      result := result + [Term(n, kind, width)];
      i := i + 1;
      if i >= nelem - 1 {
        break;
      }
      NthNext(start, end, incr0, i - 1);
      NthInRange(start, end, incr0, i);
      n := n + incr;
    }
  }

  // ---------------------------------------------------------------- padding

  /** A text denotes an integer: an optional minus sign in front of digits. */
  predicate Denotes(t: string, n: int) {
    if n < 0 then
      |t| > 1 && t[0] == '-' && (forall i :: 1 <= i < |t| ==> IsDigit(t[i])) && DecimalValue(t[1..]) == -n
    else
      |t| > 0 && (forall i :: 0 <= i < |t| ==> IsDigit(t[i])) && DecimalValue(t) == n
  }

  lemma {:induction false} LeadingZeros(k: nat, d: string)
    requires forall i :: 0 <= i < |d| ==> IsDigit(d[i])
    ensures DecimalValue(Zeros(k) + d) == DecimalValue(d)
    decreases |d| + k
  {
    var s := Zeros(k) + d;
    if |d| > 0 {
      var front := d[..|d| - 1];
      LeadingZeros(k, front);
      assert s[..|s| - 1] == Zeros(k) + front;
      assert s[|s| - 1] == d[|d| - 1];
    } else if k > 0 {
      LeadingZeros(k - 1, d);
      assert s[..|s| - 1] == Zeros(k - 1) + d;
      assert s[|s| - 1] == '0';
    }
  }

  lemma PaddedShape(n: intmax, width: nat)
    requires |Itos(n)| <= width
    ensures var zeros := Zeros(width - |Itos(n)|);
            var t := Term(n, PaddedTerm, width);
            if n < 0 then t[0] == '-' && t[1..] == zeros + Decimal(0 - n) else t == zeros + Decimal(n)
  {
    hide Decimal;
    var t := Itos(n);
    if n < 0 {
      assert t[1..] == Decimal(0 - n) && t[..1] == "-";
    } else {
      assert Zeros(0) + t == t;
    }
  }

  /** A padded term has exactly the asked width, keeps its sign in front and denotes the same number. */
  lemma PaddedTermDenotes(n: intmax, width: nat)
    requires |Itos(n)| <= width
    ensures |Term(n, PaddedTerm, width)| == width
    ensures Denotes(Term(n, PaddedTerm, width), n)
  {
    hide Decimal, DecimalValue;
    var t := Itos(n);
    var size: nat := if n < 0 then 0 - n else n;
    var d := Decimal(size);
    DecimalRoundTrip(size);
    LeadingZeros(width - |t|, d);
    var p := Term(n, PaddedTerm, width);
    PaddedShape(n, width);
  }

  /** The text of a number between two others is no longer than the longer of theirs. */
  lemma ItosBetween(a: int, n: int, b: int)
    requires a <= n <= b
    ensures |Itos(n)| <= |Itos(a)| || |Itos(n)| <= |Itos(b)|
  {
    if n >= 0 {
      DecimalLengthMonotone(n, b);
    } else {
      DecimalLengthMonotone(-n, -a);
    }
  }

  lemma ReadUnfold(s: string, d: nat, e: nat)
    requires var b := SkipSpace(s, 0); d == if At(s, b) == '-' || At(s, b) == '+' then b + 1 else b
    requires e == DigitsEnd(s, d)
    ensures StrToIMax(s) ==
            if e == d then Parsed(0, 0, false) else Clamped(At(s, SkipSpace(s, 0)) == '-', DecimalValue(s[d..e]), e)
  {
  }

  /** The text a number was read from is at least as long as its canonical text. */
  lemma ReadIsLonger(s: string)
    requires StrToIMax(s).end > 0 && !StrToIMax(s).range
    ensures |Itos(StrToIMax(s).value)| <= StrToIMax(s).end
  {
    hide StrToIMax, SkipSpace, DigitsEnd, DecimalValue;
    var b := SkipSpace(s, 0);
    var d := if At(s, b) == '-' || At(s, b) == '+' then b + 1 else b;
    var e := DigitsEnd(s, d);
    ReadUnfold(s, d, e);
    DecimalIsShortest(s[d..e]);
    if At(s, b) == '-' && DecimalValue(s[d..e]) == 0 {
      assert Itos(0) == Decimal(0) == "0";
    }
  }

  // ---------------------------------------------------------------- sequence terms

  /** The first ".." of a text, or its length. */
  function FindDots(s: string, i: nat): (j: nat)
    requires i <= |s|
    ensures i <= j <= |s|
    ensures j < |s| ==> j + 1 < |s| && s[j] == '.' && s[j + 1] == '.'
    ensures forall k :: i <= k < j && k + 1 < |s| ==> !(s[k] == '.' && s[k + 1] == '.')
    decreases |s| - i
  {
    if i >= |s| then |s|
    else if s[i] == '.' && At(s, i + 1) == '.' && i + 1 < |s| then i
    else FindDots(s, i + 1)
  }

  predicate StartsNumber(s: string, i: nat) {
    IsDigit(At(s, i)) || ((At(s, i) == '+' || At(s, i) == '-') && IsDigit(At(s, i + 1)))
  }

  /** valid_seqterm: the quick test of the text between the braces, which is followed by a closing brace. */
  predicate ValidSeqTerm(amble: string) {
    var text := amble + "}";
    var t := FindDots(amble, 0);
    if t == |amble| then false
    else if At(text, 0) == '.' || At(text, t + 2) == '}' then false
    else
      var lhsInt := StartsNumber(text, 0);
      var lhsChar := !lhsInt && IsAlpha(At(text, 0)) && At(text, 1) == '.';
      var rhsInt := StartsNumber(text, t + 2);
      var rhsChar := !rhsInt && IsAlpha(At(text, t + 2)) && (At(text, t + 3) == '}' || At(text, t + 3) == '.');
      (lhsInt && rhsInt) || (lhsChar && rhsChar)
  }

  predicate BeginsNumber(t: string) {
    t != "" && ('0' <= t[0] <= '9' || (t[0] in {'+', '-'} && |t| > 1 && '0' <= t[1] <= '9'))
  }

  /** What passes the test, by the texts on both sides of the first two dots. On the left a letter may be followed by a
      dot, which the full test refuses. */
  lemma QuickTest(l: string, r: string)
    requires forall k :: 0 <= k < |l| && l[k] == '.' ==> k + 1 < |l| && l[k + 1] != '.'
    ensures ValidSeqTerm(l + ".." + r) <==>
              || (BeginsNumber(l) && BeginsNumber(r))
              || (l != "" && IsAlpha(l[0]) && (|l| == 1 || l[1] == '.')
                  && r != "" && IsAlpha(r[0]) && (|r| == 1 || r[1] in {'.', '}'}))
  {
    hide FindDots;
    var s := l + ".." + r;
    assert s[|l|] == '.' && s[|l| + 1] == '.';
    assert forall k :: 0 <= k < |l| ==> s[k] == l[k];
    FirstDots(s, |l|);
    TextOfTest(l, r);
  }

  lemma TextOfTest(l: string, r: string)
    ensures var s := l + ".." + r + "}";
            && (forall k :: 0 <= k < 2 ==> At(s, k) == if k < |l| then l[k] else '.')
            && forall k :: 0 <= k < 2 && k <= |r| ==> At(s, |l| + 2 + k) == if k < |r| then r[k] else '}'
  {
    forall k | 0 <= k < 2 && k <= |r|
      ensures At(l + ".." + r + "}", |l| + 2 + k) == if k < |r| then r[k] else '}'
    {
      BehindPrefix(l + "..", r, '}', k);
    }
  }

  lemma BehindPrefix(p: string, r: string, c: char, k: nat)
    requires k <= |r|
    ensures At(p + r + [c], |p| + k) == if k < |r| then r[k] else c
  {
    assert (p + r + [c])[|p| + k] == if k < |r| then r[k] else c;
  }

  lemma FirstDots(s: string, n: nat)
    requires n + 1 < |s| && s[n] == '.' && s[n + 1] == '.'
    requires forall k :: 0 <= k < n ==> !(s[k] == '.' && s[k + 1] == '.')
    ensures FindDots(s, 0) == n
  {
    hide FindDots;
  }

  /** The right end of a sequence: integer or letter, its value, and where it ends. */
  datatype RightEnd = BadEnd | IntEnd(value: intmax, end: nat) | CharEnd(c: char, end: nat)

  function ReadRight(rhs: string): (r: RightEnd)
    ensures r.IntEnd? || r.CharEnd? ==> r.end <= |rhs|
  {
    if StartsNumber(rhs, 0) then
      var p := StrToIMax(rhs);
      if p.range || (At(rhs, p.end) != NUL && At(rhs, p.end) != '.') then BadEnd else IntEnd(p.value, p.end)
    else if IsAlpha(At(rhs, 0)) && (At(rhs, 1) == NUL || At(rhs, 1) == '.') then CharEnd(rhs[0], 1)
    else BadEnd
  }

  /** The increment behind the right end, if the rest of the text is one. */
  function ReadIncrement(rhs: string, ep: nat): Option<intmax>
    requires ep <= |rhs|
  {
    if At(rhs, ep) == '.' && At(rhs, ep + 1) == '.' && At(rhs, ep + 2) != NUL then
      var p := StrToIMax(rhs[ep + 2..]);
      if At(rhs, ep + 2 + p.end) != NUL || p.range then None else Some(p.value)
    else if At(rhs, ep) != NUL then None
    else Some(1)
  }

  /** Zero padding is asked for by a leading zero. */
  predicate AsksPadding(s: string, len: nat) {
    (len > 1 && At(s, 0) == '0') || (len > 2 && At(s, 0) == '-' && At(s, 1) == '0')
  }

  function Max(a: nat, b: nat): nat {
    if a < b then b else a
  }

  /** expand_seqterm: the terms of the sequence, or nothing if the text is not a sequence. */
  function ExpandSeqTerm(text: string): Option<seq<string>> {
    var t := FindDots(text, 0);
    if t == |text| then None
    else
      var lhs, rhs := text[..t], text[t + 2..];
      if At(lhs, 0) == NUL || At(rhs, 0) == NUL then None
      else
        var right := ReadRight(rhs);
        match right
        case BadEnd => None
        case CharEnd(c, ep) =>
          var incr := ReadIncrement(rhs, ep);
          if ValidNumber(lhs).Some? || !(IsAlpha(lhs[0]) && |lhs| == 1) || incr.None? then None
          else Sequence(lhs[0] as int, c as int, incr.value, CharTerm, 1)
        case IntEnd(v, ep) =>
          var incr := ReadIncrement(rhs, ep);
          if ValidNumber(lhs).None? || incr.None? then None
          else
            var padded := AsksPadding(lhs, |lhs|) || AsksPadding(rhs, ep);
            Sequence(ValidNumber(lhs).value, v, incr.value,
                     if padded then PaddedTerm else IntTerm, if padded then Max(|lhs|, ep) else 0)
  }

  /** In a zero-padded sequence all terms have the same length, the longer of the texts of the two ends, and
      each denotes its own number. */
  lemma {:induction false} PaddedSequence(text: string, i: nat)
    requires var t := FindDots(text, 0);
             && t < |text| && ReadRight(text[t + 2..]).IntEnd?
             && (AsksPadding(text[..t], t) || AsksPadding(text[t + 2..], ReadRight(text[t + 2..]).end))
    requires ExpandSeqTerm(text).Some? && i < |ExpandSeqTerm(text).value|
    ensures var t := FindDots(text, 0);
            var right := ReadRight(text[t + 2..]);
            var term := ExpandSeqTerm(text).value[i];
            var left := ValidNumber(text[..t]).value;
            var incr := ReadIncrement(text[t + 2..], right.end).value;
            && |term| == Max(t, right.end)
            && Denotes(term, NthValue(left, right.value, incr, i))
  {
    hide AsksPadding, StrToIMax, ReadIncrement;
    var t := FindDots(text, 0);
    var lhs, rhs := text[..t], text[t + 2..];
    var right := ReadRight(rhs);
    var left := ValidNumber(lhs).value;
    var incr := ReadIncrement(rhs, right.end).value;
    var n := Nth(left, right.value, incr, i);
    ReadIsLonger(lhs);
    RightIsRead(rhs);
    ReadIsLonger(rhs);
    if left <= right.value {
      ItosBetween(left, n, right.value);
    } else {
      ItosBetween(right.value, n, left);
    }
    PaddedTermDenotes(n, Max(t, right.end));
  }

  lemma RightIsRead(rhs: string)
    requires ReadRight(rhs).IntEnd?
    ensures StrToIMax(rhs).end > 0 && !StrToIMax(rhs).range
    ensures StrToIMax(rhs).end == ReadRight(rhs).end && StrToIMax(rhs).value == ReadRight(rhs).value
  {
    assert SkipSpace(rhs, 0) == 0;
  }
}
