/** Sequences from the text of the braces to the list of words, anywhere in a word. */
module BraceRanges {
  import opened Integers
  import opened Text
  import opened Options
  import opened Sequences
  import opened Braces
  import opened BraceTrees

  // ---------------------------------------------------------------- reading a written integer

  datatype Sign = Bare | Plus | Minus

  /** A number as it may be written: a sign or none, zeros in front, and the decimal digits of its size. */
  datatype Numeral = Numeral(sign: Sign, zeros: nat, size: nat)

  function SignText(s: Sign): string {
    match s
    case Bare => ""
    case Plus => "+"
    case Minus => "-"
  }

  function Digits(n: Numeral): (d: string)
    ensures |d| > 0 && forall k :: 0 <= k < |d| ==> IsDigit(d[k])
  {
    Zeros(n.zeros) + Decimal(n.size)
  }

  function Written(n: Numeral): (t: string)
    ensures |t| > 0
  {
    SignText(n.sign) + Digits(n)
  }

  function ValueOf(n: Numeral): int {
    if n.sign == Minus then 0 - n.size else n.size
  }

  predicate Fits(n: Numeral) {
    INTMAX_MIN <= ValueOf(n) <= INTMAX_MAX
  }

  /** An integer as the shell writes it. */
  function Canonical(v: int): (n: Numeral)
    ensures Written(n) == Itos(v) && ValueOf(n) == v
  {
    var n := if v < 0 then Numeral(Minus, 0, 0 - v) else Numeral(Bare, 0, v);
    assert Digits(n) == Decimal(n.size);
    n
  }

  predicate NumberChar(c: char) {
    IsDigit(c) || c == '-' || c == '+'
  }

  lemma WrittenChars(n: Numeral, k: nat)
    requires k < |Written(n)|
    ensures NumberChar(Written(n)[k]) && (k > 0 ==> IsDigit(Written(n)[k]))
    ensures k == 0 && n.sign == Bare ==> IsDigit(Written(n)[0])
  {
    hide Digits;
    var t := Written(n);
    var h := |SignText(n.sign)|;
    if k >= h {
      assert t[k] == Digits(n)[k - h];
    }
  }

  lemma {:induction false} DigitsEndOf(d: string, p: string, q: string, i: nat)
    requires i <= |d| && forall k :: 0 <= k < |d| ==> IsDigit(d[k])
    requires q == "" || !IsDigit(q[0])
    ensures DigitsEnd(p + d + q, |p| + i) == |p| + |d|
    decreases |d| - i
  {
    var s := p + d + q;
    if i < |d| {
      assert s[|p| + i] == d[i];
      DigitsEndOf(d, p, q, i + 1);
    } else if q != "" {
      assert s[|p| + i] == q[0];
    }
  }

  /** A written number in range is read back, in base ten whatever zeros it begins with, and whatever follows that is
      not a digit. */
  lemma ReadWritten(n: Numeral, q: string)
    requires Fits(n) && (q == "" || !IsDigit(q[0]))
    ensures StrToIMax(Written(n) + q) == Parsed(ValueOf(n), |Written(n)|, false)
  {
    hide Decimal, DecimalValue, Zeros, StrToIMax, DigitsEnd, SkipSpace;
    var p, d := SignText(n.sign), Digits(n);
    var s := Written(n) + q;
    assert s == p + d + q;
    WrittenBegins(n, q);
    DigitsEndOf(d, p, q, 0);
    assert s[|p|..|p| + |d|] == d;
    ReadUnfold(s, |p|, |p| + |d|);
    LeadingZeros(n.zeros, Decimal(n.size));
    DecimalRoundTrip(n.size);
  }

  lemma WrittenBegins(n: Numeral, q: string)
    ensures var s := Written(n) + q;
            SkipSpace(s, 0) == 0 && (At(s, 0) == '-' <==> n.sign == Minus) && (At(s, 0) == '+' <==> n.sign == Plus)
  {
    hide Digits;
    assert (Written(n) + q)[0] == Written(n)[0];
    assert n.sign == Bare ==> Written(n)[0] == Digits(n)[0];
  }

  lemma ValidWritten(n: Numeral)
    requires Fits(n)
    ensures ValidNumber(Written(n)) == Some(ValueOf(n))
  {
    hide StrToIMax, Written;
    var t := Written(n);
    assert t + "" == t;
    ReadWritten(n, "");
    assert SkipSpace(t, |t|) == |t|;
  }

  /** Blanks: spaces and the control characters 9 to 13. */
  predicate Blanks(t: string) {
    forall k :: 0 <= k < |t| ==> t[k] as int in {32, 9, 10, 11, 12, 13}
  }

  lemma {:induction false} BlanksSkipped(p: string, b: string, t: string, i: nat)
    requires Blanks(b) && i <= |b| && (t == "" || !Blanks([t[0]]))
    ensures SkipSpace(p + b + t, |p| + i) == |p| + |b|
    decreases |b| - i
  {
    var s := p + b + t;
    if i < |b| {
      assert s[|p| + i] == b[i];
      BlanksSkipped(p, b, t, i + 1);
    } else if t != "" {
      assert s[|p| + i] == t[0] == [t[0]][0];
    }
  }

  lemma {:induction false} DigitsShifted(b: string, t: string, i: nat)
    requires i <= |t|
    ensures DigitsEnd(b + t, |b| + i) == |b| + DigitsEnd(t, i)
    decreases |t| - i
  {
    if i < |t| {
      assert (b + t)[|b| + i] == t[i];
      DigitsShifted(b, t, i + 1);
    }
  }

  /** Blanks in front are skipped. */
  lemma ReadShifted(b: string, t: string)
    requires SkipSpace(t, 0) == 0 && SkipSpace(b + t, 0) == |b| && StrToIMax(t).end > 0
    ensures StrToIMax(b + t) == StrToIMax(t).(end := |b| + StrToIMax(t).end)
  {
    hide SkipSpace, DigitsEnd, DecimalValue, StrToIMax;
    var s, d := b + t, if At(t, 0) == '-' || At(t, 0) == '+' then 1 else 0;
    assert At(s, |b|) == At(t, 0);
    DigitsShifted(b, t, d);
    var e := DigitsEnd(t, d);
    assert s[|b| + d..|b| + e] == t[d..e];
    ReadUnfold(t, d, e);
    ReadUnfold(s, |b| + d, |b| + e);
  }

  lemma NotBlank(c: char)
    requires NumberChar(c)
    ensures !Blanks([c]) && Blanks("")
  {
    assert [c][0] == c;
  }

  lemma BlanksBehind(e: string)
    requires Blanks(e)
    ensures e == "" || !IsDigit(e[0])
  {
  }

  lemma ReadBehindBlanks(b: string, n: Numeral, e: string)
    requires Fits(n) && Blanks(b) && Blanks(e)
    ensures StrToIMax(b + (Written(n) + e)) == Parsed(ValueOf(n), |b| + |Written(n)|, false)
  {
    hide StrToIMax, Written, SkipSpace, Blanks, NumberChar;
    var t := Written(n) + e;
    WrittenChars(n, 0);
    NotBlank(t[0]);
    BlanksBehind(e);
    ReadWritten(n, e);
    BlanksSkipped("", "", t, 0);
    BlanksSkipped("", b, t, 0);
    assert "" + "" + t == t && "" + b + t == b + t;
    ReadShifted(b, t);
  }

  lemma BlanksToEnd(p: string, e: string)
    requires Blanks(e)
    ensures SkipSpace(p + e, |p|) == |p + e|
  {
    hide SkipSpace, Blanks;
    BlanksSkipped(p, e, "", 0);
    assert p + e + "" == p + e;
  }

  /** A number may have blanks in front of it and behind it. */
  lemma BlanksAllowed(b: string, n: Numeral, e: string)
    requires Fits(n) && Blanks(b) && Blanks(e)
    ensures ValidNumber(b + Written(n) + e) == Some(ValueOf(n))
  {
    hide StrToIMax, Written, SkipSpace, Blanks;
    ReadBehindBlanks(b, n, e);
    assert b + (Written(n) + e) == b + Written(n) + e;
    BlanksToEnd(b + Written(n), e);
  }

  /** Leading zeros, behind no sign or a minus sign, ask for padding. */
  predicate ZerosInFront(n: Numeral) {
    n.zeros > 0 && n.sign != Plus
  }

  lemma PaddingIsAsked(n: Numeral, q: string)
    ensures AsksPadding(Written(n) + q, |Written(n)|) <==> ZerosInFront(n)
  {
    hide Decimal;
    var t, d, h := Written(n), Digits(n), |SignText(n.sign)|;
    var s := t + q;
    assert At(s, 0) == t[0] && (|t| > 1 ==> At(s, 1) == t[1]);
    assert t[h] == d[0] == if n.zeros > 0 then '0' else Decimal(n.size)[0];
    DecimalLength(n.size);
  }

  lemma DecimalLength(n: nat)
    ensures n == 0 ==> |Decimal(n)| == 1
  {
  }

  // ---------------------------------------------------------------- the text of a range

  /** The optional increment as it is written. */
  function IncrementText(incr: Option<intmax>): string {
    match incr
    case None => ""
    case Some(c) => ".." + Itos(c)
  }

  function RangeBody(a: Numeral, b: Numeral, incr: Option<intmax>): string {
    Written(a) + (".." + (Written(b) + IncrementText(incr)))
  }

  lemma {:induction false} FirstDots(t: string, q: string, i: nat)
    requires i <= |t| && forall k :: 0 <= k < |t| ==> t[k] != '.'
    ensures FindDots(t + (".." + q), i) == |t|
    decreases |t| - i
  {
    var s := t + (".." + q);
    if i < |t| {
      assert s[i] == t[i];
      FirstDots(t, q, i + 1);
    } else {
      assert s[i] == '.' && s[i + 1] == '.';
    }
  }

  lemma WrittenNoDots(n: Numeral)
    ensures forall k :: 0 <= k < |Written(n)| ==> Written(n)[k] != '.'
  {
    hide Written;
    forall k | 0 <= k < |Written(n)|
      ensures Written(n)[k] != '.'
    {
      WrittenChars(n, k);
    }
  }

  lemma WrittenStarts(n: Numeral, q: string)
    ensures StartsNumber(Written(n) + q, 0)
  {
    hide Decimal, Zeros;
    var t := Written(n);
    assert At(t + q, 0) == t[0];
    if n.sign != Bare {
      assert At(t + q, 1) == t[1] == Digits(n)[0];
    }
  }

  /** The increment behind any right end. */
  lemma IncrementRead(t: string, incr: Option<intmax>)
    ensures ReadIncrement(t + IncrementText(incr), |t|) == Some(if incr.Some? then incr.value else 1)
  {
    hide Itos, StrToIMax, Written;
    var q := IncrementText(incr);
    var s := t + q;
    match incr
    case None => assert At(s, |t|) == NUL;
    case Some(c) =>
      var u := Itos(c);
      assert At(s, |t|) == q[0] && At(s, |t| + 1) == q[1] && At(s, |t| + 2) == u[0];
      WrittenChars(Canonical(c), 0);
      assert s[|t| + 2..] == u;
      assert u + "" == u;
      ReadWritten(Canonical(c), "");
      assert At(s, |s|) == NUL;
  }

  lemma RightRead(b: Numeral, incr: Option<intmax>)
    requires Fits(b)
    ensures ReadRight(Written(b) + IncrementText(incr)) == IntEnd(ValueOf(b), |Written(b)|)
  {
    hide Written, StrToIMax, StartsNumber, Itos;
    var t, q := Written(b), IncrementText(incr);
    WrittenStarts(b, q);
    ReadWritten(b, q);
    assert At(t + q, |t|) == if incr.None? then NUL else q[0];
  }

  /** The text between the braces is read as the sequence it was written for. */
  lemma RangeTerms(a: Numeral, b: Numeral, incr: Option<intmax>)
    requires Fits(a) && Fits(b)
    ensures var padded := ZerosInFront(a) || ZerosInFront(b);
            ExpandSeqTerm(RangeBody(a, b, incr)) ==
            Sequence(ValueOf(a), ValueOf(b), if incr.Some? then incr.value else 1,
                     if padded then PaddedTerm else IntTerm, if padded then Max(|Written(a)|, |Written(b)|) else 0)
  {
    hide Written, ReadRight, ReadIncrement, ValidNumber, AsksPadding, Sequence, IncrementText, ZerosInFront, ValueOf;
    var t, rhs := Written(a), Written(b) + IncrementText(incr);
    var body := RangeBody(a, b, incr);
    WrittenNoDots(a);
    FirstDots(t, rhs, 0);
    assert body[..|t|] == t && body[|t| + 2..] == rhs;
    WrittenChars(a, 0);
    WrittenChars(b, 0);
    assert At(rhs, 0) == Written(b)[0];
    ValidWritten(a);
    assert t + "" == t;
    PaddingIsAsked(a, "");
    PaddingIsAsked(b, IncrementText(incr));
    RightRead(b, incr);
    IncrementRead(Written(b), incr);
  }

  lemma RangeValid(a: Numeral, b: Numeral, incr: Option<intmax>)
    ensures ValidSeqTerm(RangeBody(a, b, incr))
  {
    hide Written, StartsNumber, IncrementText;
    var t, rhs := Written(a), Written(b) + IncrementText(incr);
    var body := RangeBody(a, b, incr);
    WrittenNoDots(a);
    FirstDots(t, rhs, 0);
    var text := body + "}";
    assert text == t + (".." + rhs + "}");
    WrittenStarts(a, ".." + rhs + "}");
    WrittenChars(a, 0);
    assert At(text, 0) == t[0];
    assert text[|t| + 2..] == Written(b) + (IncrementText(incr) + "}");
    WrittenStarts(b, IncrementText(incr) + "}");
    WrittenChars(b, 0);
    assert At(text, |t| + 2) == Written(b)[0];
    StartsLater(text, |t| + 2, Written(b) + (IncrementText(incr) + "}"));
  }

  lemma StartsLater(s: string, i: nat, q: string)
    requires i <= |s| && s[i..] == q
    ensures StartsNumber(s, i) == StartsNumber(q, 0)
  {
    assert At(s, i) == At(q, 0) && At(s, i + 1) == At(q, 1) by {
      if i < |s| {
        assert s[i] == q[0];
      }
      if i + 1 < |s| {
        assert s[i + 1] == q[1];
      }
    }
  }

  // ---------------------------------------------------------------- sequences as parts of words

  lemma BodyChars(a: Numeral, b: Numeral, incr: Option<intmax>, k: nat)
    requires k < |RangeBody(a, b, incr)|
    ensures NumberChar(RangeBody(a, b, incr)[k]) || RangeBody(a, b, incr)[k] == '.'
  {
    hide Written, Itos;
    var ta, tb, q := Written(a), Written(b), IncrementText(incr);
    var s := RangeBody(a, b, incr);
    if k < |ta| {
      assert s[k] == ta[k];
      WrittenChars(a, k);
    } else if k < |ta| + 2 {
      assert s[k] == '.';
    } else if k < |ta| + 2 + |tb| {
      assert s[k] == tb[k - |ta| - 2];
      WrittenChars(b, k - |ta| - 2);
    } else {
      var m := k - |ta| - 2 - |tb|;
      assert s[k] == q[m];
      if m >= 2 {
        WrittenChars(Canonical(incr.value), m - 2);
      }
    }
  }

  /** {a..b} and {a..b..incr}, however the ends are written, stand for the integers from a by steps towards b. If an end
      has leading zeros, behind no sign or a minus sign, all terms are as long as the longer end and denote their
      numbers; otherwise they are written as the shell writes them. If the increment or the distance is out of range
      the text stays as it is. */
  lemma WrittenRange(a: Numeral, b: Numeral, incr: Option<intmax>)
    requires Fits(a) && Fits(b)
    ensures var p, step: intmax := Range(RangeBody(a, b, incr)), if incr.Some? then incr.value else 1;
            var from: intmax, to: intmax := ValueOf(a), ValueOf(b);
            && WellFormedPart(p)
            && var words := DenotePart(p);
               if Countable(from, to, step) then
                 && |words| == TermCount(from, to, step)
                 && forall i :: 0 <= i < |words| ==>
                      if (a.zeros > 0 && a.sign != Plus) || (b.zeros > 0 && b.sign != Plus) then
                        |words[i]| == Max(|Written(a)|, |Written(b)|) && Denotes(words[i], Nth(from, to, step, i))
                      else words[i] == Itos(Nth(from, to, step, i))
               else words == [PrintPart(p)]
  {
    hide Written, Itos, IncrementText, RangeBody, TermCount, ValidSeqTerm, Nth, ExpandSeqTerm, Terms, Countable,
      Denotes;
    hide ValueOf, Term;
    var from: intmax, to: intmax, step: intmax := ValueOf(a), ValueOf(b), if incr.Some? then incr.value else 1;
    RangeValid(a, b, incr);
    RangeTerms(a, b, incr);
    forall k | 0 <= k < |RangeBody(a, b, incr)|
      ensures Ordinary(RangeBody(a, b, incr)[k])
    {
      BodyChars(a, b, incr, k);
    }
    if Countable(from, to, step) {
      forall i | 0 <= i < TermCount(from, to, step)
        ensures Term(Nth(from, to, step, i), IntTerm, 0) == Itos(Nth(from, to, step, i))
        ensures var t := Term(Nth(from, to, step, i), PaddedTerm, Max(|Written(a)|, |Written(b)|));
                |t| == Max(|Written(a)|, |Written(b)|) && Denotes(t, Nth(from, to, step, i))
      {
        NthFits(a, b, step, i);
        PaddedTermDenotes(Nth(from, to, step, i), Max(|Written(a)|, |Written(b)|));
        PlainTerm(Nth(from, to, step, i));
      }
    }
  }

  lemma PlainTerm(n: intmax)
    ensures Term(n, IntTerm, 0) == Itos(n)
  {
  }

  /** A number between the ends is no longer than the longer of them. */
  lemma NthFits(a: Numeral, b: Numeral, step: intmax, i: nat)
    requires Fits(a) && Fits(b) && Countable(ValueOf(a), ValueOf(b), step)
    requires i < TermCount(ValueOf(a), ValueOf(b), step)
    ensures |Itos(Nth(ValueOf(a), ValueOf(b), step, i))| <= Max(|Written(a)|, |Written(b)|)
  {
    hide Itos, Written, ValueOf, Countable, TermCount;
    var from: intmax, to: intmax := ValueOf(a), ValueOf(b);
    var n := Nth(from, to, step, i);
    ShortestText(a);
    ShortestText(b);
    if from <= to {
      ItosBetween(from, n, to);
    } else {
      ItosBetween(to, n, from);
    }
  }

  lemma ShortestText(n: Numeral)
    ensures |Itos(ValueOf(n))| <= |Written(n)|
  {
  }

  /** The same for ends as the shell writes integers. */
  lemma IntRange(a: intmax, b: intmax, incr: Option<intmax>)
    ensures var p := Range(Itos(a) + (".." + (Itos(b) + IncrementText(incr))));
            var step: intmax := if incr.Some? then incr.value else 1;
            && WellFormedPart(p)
            && var words := DenotePart(p);
               if Countable(a, b, step) then
                 && |words| == TermCount(a, b, step)
                 && forall i :: 0 <= i < |words| ==> words[i] == Itos(Nth(a, b, step, i))
               else words == [PrintPart(p)]
  {
    hide Itos, IncrementText, TermCount, ValidSeqTerm, Nth, ExpandSeqTerm, Countable, Denotes, Written;
    WrittenRange(Canonical(a), Canonical(b), incr);
  }

  function LetterBody(a: char, b: char, incr: Option<intmax>): string {
    [a] + (".." + ([b] + IncrementText(incr)))
  }

  lemma LetterRead(b: char, incr: Option<intmax>)
    requires IsAlpha(b)
    ensures ReadRight([b] + IncrementText(incr)) == CharEnd(b, 1)
  {
    hide Itos, StrToIMax;
    var q := IncrementText(incr);
    var s := [b] + q;
    assert At(s, 0) == b && At(s, 1) == if incr.None? then NUL else q[0];
  }

  lemma LetterTerms(a: char, b: char, incr: Option<intmax>)
    requires IsAlpha(a) && IsAlpha(b)
    ensures ExpandSeqTerm(LetterBody(a, b, incr)) ==
            Sequence(a as int, b as int, if incr.Some? then incr.value else 1, CharTerm, 1)
  {
    hide ReadRight, ReadIncrement, Sequence, IncrementText;
    var rhs := [b] + IncrementText(incr);
    var body := LetterBody(a, b, incr);
    FirstDots([a], rhs, 0);
    assert body[..1] == [a] && body[3..] == rhs;
    LetterRead(b, incr);
    IncrementRead([b], incr);
    LetterNoNumber(a);
  }

  lemma LetterNoNumber(a: char)
    requires IsAlpha(a)
    ensures ValidNumber([a]).None?
  {
    assert SkipSpace([a], 0) == 0;
  }

  lemma LetterValid(a: char, b: char, incr: Option<intmax>)
    requires IsAlpha(a) && IsAlpha(b)
    ensures ValidSeqTerm(LetterBody(a, b, incr)) && AllOrdinary(LetterBody(a, b, incr))
  {
    hide Itos;
    var q := IncrementText(incr);
    var rhs, body := [b] + q, LetterBody(a, b, incr);
    FirstDots([a], rhs, 0);
    assert At(body + "}", 4) == if incr.None? then '}' else q[0];
    forall k | 0 <= k < |body|
      ensures Ordinary(body[k])
    {
      if k >= 6 {
        assert body[k] == q[k - 4] == Itos(incr.value)[k - 6];
        WrittenChars(Canonical(incr.value), k - 6);
      } else if k >= 4 {
        assert body[k] == q[k - 4];
      }
    }
  }

  /** {a..b} and {a..b..incr} between letters stand for the characters from a by steps towards b. */
  lemma LetterRange(a: char, b: char, incr: Option<intmax>)
    requires IsAlpha(a) && IsAlpha(b)
    ensures var p, step: intmax := Range(LetterBody(a, b, incr)), if incr.Some? then incr.value else 1;
            var from, to := a as int, b as int;
            && WellFormedPart(p)
            && var words := DenotePart(p);
               if Countable(from, to, step) then
                 && |words| == TermCount(from, to, step)
                 && forall i :: 0 <= i < |words| ==>
                      0 < Nth(from, to, step, i) < 128 && words[i] == [Nth(from, to, step, i) as char]
               else words == [PrintPart(p)]
  {
    hide Itos, IncrementText, TermCount, ValidSeqTerm, Nth, ExpandSeqTerm, Terms, Countable;
    LetterValid(a, b, incr);
    LetterTerms(a, b, incr);
  }

  /** Wherever in a word a sequence stands, its terms take its place. */
  lemma RangeExpansion(x: Extractors, before: seq<Part>, body: string, after: seq<Part>)
    requires GoForward(x) && WellFormed(before) && WellFormedPart(Range(body)) && WellFormed(after)
    requires Safe(x, before) && Safe(x, after)
    ensures BraceExpand(x, Print(before) + "{" + body + "}" + Print(after)) ==
            Cross(Denote(before), Cross(DenoteRange(body), Denote(after)))
  {
    hide GoForward, BraceExpand, Print, Denote, Cross, WellFormedPart, DenoteRange;
    var p := Range(body);
    var w := before + [p] + after;
    assert WellFormed(w) && w[..|before|] == before && w[|before| + 1..] == after;
    ExpandPrinted(x, w);
    PrintAround(w, |before|);
    DenoteAround(w, |before|);
    assert w[|before|] == p && Body(p) == body;
    assert (Print(before) + "{") + (body + "}") == Print(before) + "{" + body + "}";
  }
}
