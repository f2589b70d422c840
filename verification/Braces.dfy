/** The brace expander of braces.c on byte strings: the scanner, the split at commas and the ordered cross
    product. The extractors for command substitutions are a parameter. */
module Braces {
  import opened Text
  import opened Options
  import opened Sequences

  /** Where a command substitution `$(` or a nofork substitution `${ ` ends, given the index behind its
      opening; the flag says whether it stands in double quotes. */
  datatype Extractors = Extractors(command: (string, nat) -> nat, nofork: (string, nat, bool) -> nat)

  /** Extractors never go back. */
  ghost predicate GoForward(x: Extractors) {
    && (forall s: string, i: nat :: x.command(s, i) >= i)
    && (forall s: string, i: nat, q: bool :: x.nofork(s, i, q) >= i)
  }

  // ---------------------------------------------------------------- the scanner

  datatype BraceKind = NoBrace | CommaBrace | SeqBrace

  /** The variables of the scanner: the open quote (NUL if none), the nesting level, the separators seen,
      whether the next character is escaped, the kind of brace expression so far. */
  datatype Scan = Scan(quoted: char, level: nat, commas: nat, passNext: bool, kind: BraceKind)

  /** Where and on what character the scanner stopped. */
  datatype Stop = Stop(index: nat, c: char, kind: BraceKind)

  predicate BraceSpace(c: char) {
    c == NUL || c == ' ' || c == '\t' || c == '\n'
  }

  predicate NoforkChar(c: char) {
    c == ' ' || c == '\t' || c == '\n' || c == '|'
  }

  function StartScan(satisfy: char): Scan {
    Scan(NUL, 0, if satisfy == '}' then 0 else 1, false, NoBrace)
  }

  predicate EscapeAllowed(quoted: char) {
    quoted == NUL || quoted == '"' || quoted == '`'
  }

  /** An open brace between blanks, or right before a close brace behind a blank, is an ordinary character. */
  predicate LooseBrace(s: string, i: nat) {
    (i == 0 || BraceSpace(At(s, i - 1))) && (BraceSpace(At(s, i + 1)) || At(s, i + 1) == '}')
  }

  /** The step on an unquoted character that is neither special to the shell nor the one looked for. */
  function Plain(s: string, i: nat, g: Scan, satisfy: char): Scan {
    var c := At(s, i);
    if c == '{' then g.(level := g.level + 1)
    else if c == '}' && g.level > 0 then g.(level := g.level - 1)
    else if satisfy == '}' && c == ',' && g.level == 0 then g.(kind := CommaBrace, commas := g.commas + 1)
    else if satisfy == '}' && c == '.' && At(s, i + 1) == '.' && At(s, i + 2) != satisfy && g.level == 0
            && g.kind == NoBrace
      then g.(kind := SeqBrace, commas := g.commas + 1)
    else g
  }

  /** What one turn of the scanner does: go on at another index, or stop. */
  datatype Turn = GoOn(index: nat, g: Scan) | Halt(stop: Stop)

  /** Behind a substitution: past the end of the text the scanner gives up. */
  function Behind(x: Extractors, s: string, end: nat, g: Scan): Turn {
    if end + 1 > |s| then Halt(Stop(|s|, NUL, g.kind)) else GoOn(end + 1, g)
  }

  function ScanTurn(x: Extractors, s: string, i: nat, g: Scan, satisfy: char): (r: Turn)
    requires GoForward(x) && i < |s| && s[i] != NUL
    ensures r.GoOn? ==> i < r.index <= |s|
    ensures r.Halt? ==> i <= r.stop.index <= |s|
    ensures r.Halt? ==>
              || (r.stop.c == NUL && r.stop.index == |s|)
              || (r.stop.c == satisfy && s[i] == satisfy && r.stop.index == i)
  {
    var c := s[i];
    if g.passNext then GoOn(i + 1, g.(passNext := false))
    else if c == '\\' && EscapeAllowed(g.quoted) then GoOn(i + 1, g.(passNext := true))
    else if c == '$' && At(s, i + 1) == '{' && g.quoted != '\'' then
      if NoforkChar(At(s, i + 2)) then Behind(x, s, x.nofork(s, i + 2, g.quoted == '"'), g)
      else GoOn(i + 1, g.(passNext := true, level := if g.quoted == NUL then g.level + 1 else g.level))
    else if g.quoted != NUL then
      var g' := if c == g.quoted then g.(quoted := NUL) else g;
      if g'.quoted == '"' && c == '$' && At(s, i + 1) == '(' then Behind(x, s, x.command(s, i + 2), g')
      else GoOn(i + 1, g')
    else if c == '"' || c == '\'' || c == '`' then GoOn(i + 1, g.(quoted := c))
    else if (c == '$' || c == '<' || c == '>') && At(s, i + 1) == '(' then Behind(x, s, x.command(s, i + 2), g)
    else if c == satisfy && g.level == 0 && g.commas > 0 then
      if c == '{' && LooseBrace(s, i) then GoOn(i + 1, g) else Halt(Stop(i, c, g.kind))
    else GoOn(i + 1, Plain(s, i, g, satisfy))
  }

  /** brace_gobbler: never goes back, and finds nothing only at the end of the text. */
  function Gobble(x: Extractors, s: string, i: nat, g: Scan, satisfy: char): (r: Stop)
    requires GoForward(x) && i <= |s|
    ensures i <= r.index <= |s|
    ensures r.c == NUL || (r.c == satisfy && r.index < |s| && s[r.index] == satisfy)
    ensures r.c == NUL && NoNul(s) ==> r.index == |s|
    decreases |s| - i
  {
    if At(s, i) == NUL then Stop(i, NUL, g.kind)
    else
      match ScanTurn(x, s, i, g, satisfy)
      case Halt(stop) => stop
      case GoOn(j, g') => Gobble(x, s, j, g', satisfy)
  }

  /** The scanner as the loop it is. */
  method BraceGobbler(x: Extractors, s: string, index: nat, satisfy: char) returns (r: Stop)
    requires GoForward(x) && index <= |s|
    ensures r == Gobble(x, s, index, StartScan(satisfy), satisfy)
  {
    hide GoForward, ScanTurn;
    var i, g := index, StartScan(satisfy);
    while At(s, i) != NUL
      invariant i <= |s|
      invariant Gobble(x, s, i, g, satisfy) == Gobble(x, s, index, StartScan(satisfy), satisfy)
      decreases |s| - i
    {
      var turn := ScanTurn(x, s, i, g, satisfy);
      if turn.Halt? {
        return turn.stop;
      }
      i, g := turn.index, turn.g;
    }
    return Stop(i, NUL, g.kind);
  }

  // ---------------------------------------------------------------- the cross product

  /** `s` in front of every word. */
  function Prefixed(s: string, words: seq<string>): (r: seq<string>)
    ensures |r| == |words|
    ensures forall i :: 0 <= i < |r| ==> r[i] == s + words[i]
  {
    if words == [] then [] else [s + words[0]] + Prefixed(s, words[1..])
  }

  /** Every word of `a` followed by every word of `b`, in order. */
  function Cross(a: seq<string>, b: seq<string>): (r: seq<string>)
    ensures a != [] && b != [] ==> r != []
  {
    if a == [] then [] else Prefixed(a[0], b) + Cross(a[1..], b)
  }

  lemma PrefixedEmpty(words: seq<string>)
    ensures Prefixed("", words) == words
  {
    forall i | 0 <= i < |words|
      ensures Prefixed("", words)[i] == words[i]
    {
      assert "" + words[i] == words[i];
    }
  }

  lemma CrossLeftUnit(b: seq<string>)
    ensures Cross([""], b) == b
  {
    PrefixedEmpty(b);
    assert Cross([""], b) == Prefixed("", b) + Cross([], b);
  }

  lemma {:induction false} CrossRightUnit(a: seq<string>)
    ensures Cross(a, [""]) == a
  {
    if a != [] {
      CrossRightUnit(a[1..]);
      assert a[0] + "" == a[0];
      assert Prefixed(a[0], [""]) == [a[0]];
      assert a == [a[0]] + a[1..];
    }
  }

  lemma {:induction false} PrefixedAppend(s: string, a: seq<string>, b: seq<string>)
    ensures Prefixed(s, a + b) == Prefixed(s, a) + Prefixed(s, b)
  {
  }

  lemma CrossFirst(w: string, a: seq<string>, c: seq<string>)
    ensures Cross([w] + a, c) == Prefixed(w, c) + Cross(a, c)
  {
    assert ([w] + a)[1..] == a;
  }

  lemma Associative<T>(a: seq<T>, b: seq<T>, c: seq<T>)
    ensures a + (b + c) == (a + b) + c
  {
  }

  lemma {:induction false} CrossAppend(a: seq<string>, b: seq<string>, c: seq<string>)
    ensures Cross(a + b, c) == Cross(a, c) + Cross(b, c)
  {
    if a == [] {
      assert a + b == b;
    } else {
      hide Prefixed;
      CrossAppend(a[1..], b, c);
      CrossFirst(a[0], a[1..] + b, c);
      CrossFirst(a[0], a[1..], c);
      assert a == [a[0]] + a[1..] && a + b == [a[0]] + (a[1..] + b);
      Associative(Prefixed(a[0], c), Cross(a[1..], c), Cross(b, c));
    }
  }

  lemma {:induction false} PrefixedCross(s: string, a: seq<string>, b: seq<string>)
    ensures Cross(Prefixed(s, a), b) == Prefixed(s, Cross(a, b))
  {
    if a != [] {
      PrefixedCross(s, a[1..], b);
      var p := Prefixed(s, a);
      assert p[0] == s + a[0] && p[1..] == Prefixed(s, a[1..]);
      PrefixedAppend(s, Prefixed(a[0], b), Cross(a[1..], b));
      PrefixedTwice(s, a[0], b);
    }
  }

  lemma {:induction false} PrefixedTwice(s: string, t: string, b: seq<string>)
    ensures Prefixed(s + t, b) == Prefixed(s, Prefixed(t, b))
  {
    if b != [] {
      assert (s + t) + b[0] == s + (t + b[0]);
      PrefixedTwice(s, t, b[1..]);
    }
  }

  lemma CrossSnoc(a: seq<string>, s: string, b: seq<string>)
    ensures Cross(a + [s], b) == Cross(a, b) + Prefixed(s, b)
  {
    CrossAppend(a, [s], b);
    assert Cross([s], b) == Prefixed(s, b) + Cross([], b);
  }

  lemma PrefixedSnoc(s: string, b: seq<string>, j: nat)
    requires j < |b|
    ensures Prefixed(s, b[..j + 1]) == Prefixed(s, b[..j]) + [s + b[j]]
  {
    assert b[..j + 1] == b[..j] + [b[j]];
    PrefixedAppend(s, b[..j], [b[j]]);
    assert Prefixed(s, [b[j]]) == [s + b[j]];
  }

  lemma {:induction false} CrossAssociative(a: seq<string>, b: seq<string>, c: seq<string>)
    ensures Cross(Cross(a, b), c) == Cross(a, Cross(b, c))
  {
    if a != [] {
      CrossAssociative(a[1..], b, c);
      CrossAppend(Prefixed(a[0], b), Cross(a[1..], b), c);
      PrefixedCross(a[0], b, c);
    }
  }

  /** array_concat, with the short cuts for a single empty word on either side. */
  method ArrayConcat(arr1: seq<string>, arr2: seq<string>) returns (result: seq<string>)
    ensures result == Cross(arr1, arr2)
  {
    if arr1 == [""] {
      CrossLeftUnit(arr2);
      return arr2;
    }
    if arr2 == [""] {
      CrossRightUnit(arr1);
      return arr1;
    }
    hide Cross;
    CrossOfNone(arr2);
    result := [];
    for i := 0 to |arr1|
      invariant result == Cross(arr1[..i], arr2)
    {
      var row := [];
      for j := 0 to |arr2|
        invariant row == Prefixed(arr1[i], arr2[..j])
      {
        PrefixedSnoc(arr1[i], arr2, j);
        row := row + [arr1[i] + arr2[j]];
      }
      assert arr2[..|arr2|] == arr2;
      assert arr1[..i + 1] == arr1[..i] + [arr1[i]];
      CrossSnoc(arr1[..i], arr1[i], arr2);
      result := result + row;
    }
    assert arr1[..|arr1|] == arr1;
  }

  lemma CrossOfNone(b: seq<string>)
    ensures Cross([], b) == []
  {
  }

  // ---------------------------------------------------------------- expansion

  /** Where the first brace that opens a valid expression stands; c is NUL if there is none. */
  function FindBrace(x: Extractors, s: string, i: nat): (r: Stop)
    requires GoForward(x) && i <= |s|
    ensures i <= r.index <= |s|
    ensures r.c == '{' ==> r.index < |s| && s[r.index] == '{' && Opens(x, s, r.index)
    ensures r.c == '{' || r.c == NUL
    ensures r.c == NUL && NoNul(s) ==> r.index == |s|
    decreases |s| - i
  {
    var open := Gobble(x, s, i, StartScan('{'), '{');
    if open.c == NUL then open
    else if Opens(x, s, open.index) then open
    else FindBrace(x, s, open.index + 1)
  }

  /** The brace at `i` has a matching close brace around commas or a valid sequence. */
  predicate Opens(x: Extractors, s: string, i: nat)
    requires GoForward(x) && i < |s|
  {
    var close := Gobble(x, s, i + 1, StartScan('}'), '}');
    close.c != NUL && (close.kind == SeqBrace ==> ValidSeqTerm(s[i + 1..close.index]))
  }

  /** brace_expand. */
  function BraceExpand(x: Extractors, text: string): (r: seq<string>)
    requires GoForward(x)
    ensures r != []
    decreases |text|, 0
  {
    var open := FindBrace(x, text, 0);
    var preamble := text[..open.index];
    if open.c != '{' then [preamble]
    else
      var start := open.index + 1;
      var close := Gobble(x, text, start, StartScan('}'), '}');
      var amble := text[start..close.index];
      var tack := if close.kind == SeqBrace then ExpandSequence(text, start, close.index)
                  else Some(ExpandAmble(x, amble, 0));
      if tack.None? then [text]
      else
        var result := Cross([preamble], tack.value);
        var postamble := text[close.index + 1..];
        if postamble == "" then result else Cross(result, BraceExpand(x, postamble))
  }

  /** A sequence expression; one that turns out invalid stays as it is if more text follows. */
  function ExpandSequence(text: string, start: nat, end: nat): (r: Option<seq<string>>)
    requires 0 < start <= end < |text|
    ensures r.Some? ==> r.value != []
  {
    hide Term, ValidNumber, ReadRight, ReadIncrement;
    var terms := ExpandSeqTerm(text[start..end]);
    SequenceNotEmpty(text[start..end]);
    if terms.Some? then terms
    else if At(text, end + 1) != NUL then Some([text[start - 1..end + 1]])
    else None
  }

  lemma SequenceNotEmpty(text: string)
    ensures ExpandSeqTerm(text).Some? ==> ExpandSeqTerm(text).value != []
  {
    hide ValidNumber, ReadRight, ReadIncrement, Term, AsksPadding, Terms;
    var t := FindDots(text, 0);
    forall a, b, c | Countable(a, b, c)
      ensures TermCount(a, b, c) >= 1
    {
      CountPositive(a, b, c);
    }
  }

  /** expand_amble: the pieces between the commas, each expanded. */
  function ExpandAmble(x: Extractors, text: string, i: nat): (r: seq<string>)
    requires GoForward(x) && i <= |text|
    ensures r != []
    decreases |text|, 1 + |text| - i
  {
    var stop := Gobble(x, text, i, StartScan(','), ',');
    var partial := BraceExpand(x, text[i..stop.index]);
    if stop.c == NUL then partial else partial + ExpandAmble(x, text, stop.index + 1)
  }

  // ---------------------------------------------------------------- expansion in the source's form

  /** Looks for an unquoted comma, if commas are what makes this a brace expression. */
  method AmbleEnd(amble: string, kind: BraceKind) returns (j: nat)
    ensures kind == SeqBrace ==> At(amble, j) == NUL
  {
    j := 0;
    while At(amble, j) != NUL
      decreases |amble| - j
    {
      if amble[j] == '\\' {
        j := j + 2;
        continue;
      }
      if amble[j] == ',' && kind == CommaBrace {
        break;
      }
      j := j + 1;
    }
  }

  method FindOpening(x: Extractors, text: string) returns (open: Stop)
    requires GoForward(x)
    ensures open == FindBrace(x, text, 0)
  {
    hide GoForward, Gobble, ValidSeqTerm;
    var i := 0;
    while true
      invariant i <= |text|
      invariant FindBrace(x, text, i) == FindBrace(x, text, 0)
      decreases |text| - i
    {
      open := BraceGobbler(x, text, i, '{');
      if open.c == NUL {
        return;
      }
      var close := BraceGobbler(x, text, open.index + 1, '}');
      var c := close.c;
      if close.kind == SeqBrace && c != NUL {
        if !ValidSeqTerm(text[open.index + 1..close.index]) {
          c := NUL;
        }
      }
      if c != NUL {
        return;
      }
      i := open.index + 1;
    }
  }

  method ExpandWord(x: Extractors, text: string) returns (result: seq<string>)
    requires GoForward(x)
    ensures result == BraceExpand(x, text)
    decreases |text|, 0
  {
    hide GoForward, Gobble, FindBrace, ExpandAmble, ExpandSequence, Cross, ValidSeqTerm;
    var open := FindOpening(x, text);
    var preamble := text[..open.index];
    if open.c != '{' {
      return [preamble];
    }
    var start := open.index + 1;
    var close := BraceGobbler(x, text, start, '}');
    if close.c == NUL {
      return [text];
    }
    var amble := text[start..close.index];
    var j := AmbleEnd(amble, close.kind);
    var tack: seq<string>;
    if At(amble, j) == NUL && close.kind == SeqBrace {
      var terms := ExpandSequence(text, start, close.index);
      if terms.None? {
        return [text];
      }
      tack := terms.value;
    } else {
      tack := SplitAmble(x, amble);
    }
    result := ArrayConcat([preamble], tack);
    var postamble := text[close.index + 1..];
    if postamble != "" {
      tack := ExpandWord(x, postamble);
      result := ArrayConcat(result, tack);
    }
  }

  method SplitAmble(x: Extractors, text: string) returns (result: seq<string>)
    requires GoForward(x)
    ensures result == ExpandAmble(x, text, 0)
    decreases |text|, 1
  {
    hide GoForward, Gobble, BraceExpand;
    result := [];
    var i, more := 0, true;
    while more
      invariant i <= |text|
      invariant if more then ExpandAmble(x, text, 0) == result + ExpandAmble(x, text, i)
                else result == ExpandAmble(x, text, 0)
      decreases more, |text| - i
    {
      var stop := BraceGobbler(x, text, i, ',');
      var partial := ExpandWord(x, text[i..stop.index]);
      ghost var before := result;
      result := result + partial;
      if stop.c == NUL {
        more := false;
      } else {
        assert before + (partial + ExpandAmble(x, text, stop.index + 1))
            == result + ExpandAmble(x, text, stop.index + 1);
        i := stop.index + 1;
      }
    }
  }
}
