/** Which close brace ends a brace expression, said by positions in the text: the first one on the level of the open
    brace that has a separator in front of it. */
module BraceClosing {
  import opened Text
  import opened Braces
  import opened BraceQuoting

  /** Nothing is quoted, escaped or substituted in the text. */
  predicate Unguarded(s: string) {
    forall k :: 0 <= k < |s| ==> s[k] !in {NUL, '\\', '"', '\'', '`', '$', '('}
  }

  /** How many braces opened from `a` on are open at `k`. */
  function Nesting(s: string, a: nat, k: nat): nat
    requires a <= k <= |s|
  {
    if k == a then 0
    else
      var n := Nesting(s, a, k - 1);
      if s[k - 1] == '{' then n + 1 else if s[k - 1] == '}' && n > 0 then n - 1 else n
  }

  predicate CommaAt(s: string, a: nat, k: nat)
    requires a <= k < |s|
  {
    s[k] == ',' && Nesting(s, a, k) == 0
  }

  /** Two dots, unless a close brace follows. */
  predicate DotsAt(s: string, a: nat, k: nat)
    requires a <= k < |s|
  {
    s[k] == '.' && At(s, k + 1) == '.' && At(s, k + 2) != '}' && Nesting(s, a, k) == 0
  }

  predicate Separated(s: string, a: nat, j: nat)
    requires a <= j <= |s|
  {
    exists k :: a <= k < j && (CommaAt(s, a, k) || DotsAt(s, a, k))
  }

  predicate HasComma(s: string, a: nat, j: nat)
    requires a <= j <= |s|
  {
    exists k :: a <= k < j && CommaAt(s, a, k)
  }

  /** The close brace at `j` ends what begins at `a`, if none before it does. */
  predicate Closing(s: string, a: nat, j: nat)
    requires a <= j < |s|
  {
    s[j] == '}' && Nesting(s, a, j) == 0 && Separated(s, a, j)
  }

  predicate Closed(s: string, a: nat)
    requires a <= |s|
  {
    exists j :: a <= j < |s| && Closing(s, a, j)
  }

  /** The variables of the scanner at `i`. */
  predicate Tracks(s: string, a: nat, i: nat, g: Scan)
    requires a <= i <= |s|
  {
    && g.quoted == NUL && !g.passNext && g.level == Nesting(s, a, i)
    && (g.commas > 0 <==> Separated(s, a, i))
    && (g.kind == CommaBrace <==> HasComma(s, a, i))
    && (g.kind == NoBrace <==> g.commas == 0)
  }

  lemma SeparatedNext(s: string, a: nat, i: nat)
    requires a <= i < |s|
    ensures Separated(s, a, i + 1) <==> Separated(s, a, i) || CommaAt(s, a, i) || DotsAt(s, a, i)
    ensures HasComma(s, a, i + 1) <==> HasComma(s, a, i) || CommaAt(s, a, i)
  {
    hide CommaAt, DotsAt;
  }

  lemma TrackStep(s: string, a: nat, i: nat, g: Scan)
    requires a <= i < |s| && Tracks(s, a, i, g)
    ensures Tracks(s, a, i + 1, Plain(s, i, g, '}'))
  {
    SeparatedNext(s, a, i);
    hide Separated, HasComma;
  }

  lemma {:induction false} ScanTracks(x: Extractors, s: string, a: nat, i: nat, g: Scan)
    requires GoForward(x) && a <= i <= |s| && Unguarded(s) && Tracks(s, a, i, g)
    requires forall j :: a <= j < i ==> !Closing(s, a, j)
    ensures var r := Gobble(x, s, i, g, '}');
            && (forall j :: a <= j < r.index ==> !Closing(s, a, j))
            && (r.c == '}' ==> Closing(s, a, r.index) && (r.kind == CommaBrace <==> HasComma(s, a, r.index)))
            && (r.c != '}' ==> r.index == |s|)
    decreases |s| - i
  {
    hide GoForward, Gobble, Plain, Nesting, Separated, HasComma;
    if i == |s| {
      AtEnd(x, s, g, '}');
    } else {
      TurnGoesOn(x, s, i, g, '}');
      if !Closing(s, a, i) {
        assert At(s, i + 1) != '(' && At(s, i) == s[i];
        TrackStep(s, a, i, g);
        ScanTracks(x, s, a, i + 1, Plain(s, i, g, '}'));
      }
    }
  }

  /** From the beginning of a brace expression the scanner finds the first close brace on its level behind a separator,
      and tells commas from dots; it finds nothing exactly when there is none. */
  lemma FirstClosing(x: Extractors, s: string, a: nat)
    requires GoForward(x) && a <= |s| && Unguarded(s)
    ensures var r := Gobble(x, s, a, StartScan('}'), '}');
            && (r.c == '}' <==> Closed(s, a))
            && (r.c == '}' ==> Closing(s, a, r.index) && (r.kind == CommaBrace <==> HasComma(s, a, r.index)))
            && forall j :: a <= j < r.index ==> !Closing(s, a, j)
  {
    hide GoForward, Gobble, Closing;
    assert Tracks(s, a, a, StartScan('}'));
    ScanTracks(x, s, a, a, StartScan('}'));
  }

  /** A text in which no open brace has a close brace that ends it is left unchanged. */
  lemma NothingCloses(x: Extractors, s: string)
    requires GoForward(x) && Unguarded(s)
    requires forall i :: 0 <= i < |s| && s[i] == '{' ==> !Closed(s, i + 1)
    ensures BraceExpand(x, s) == [s]
  {
    hide GoForward, BraceExpand, Gobble, Unquoted, Closing;
    forall i | 0 <= i < |s| && s[i] == '{'
      ensures !Opens(x, s, i)
    {
      FirstClosing(x, s, i + 1);
    }
    NothingUnquotedOpens(x, s);
  }

  /** A text without a comma and without two dots is left unchanged, whatever it quotes and nests: `{a}` stays. */
  lemma NothingSeparated(x: Extractors, s: string)
    requires GoForward(x) && NoNul(s)
    requires forall k :: 0 <= k < |s| ==> s[k] != ',' && !(s[k] == '.' && At(s, k + 1) == '.')
    ensures BraceExpand(x, s) == [s]
  {
    hide GoForward, BraceExpand, Gobble, Unquoted;
    forall i | 0 <= i < |s|
      ensures !Opens(x, s, i)
    {
      NeverCloses(x, s, i + 1, StartScan('}'));
    }
    NothingUnquotedOpens(x, s);
  }

  lemma {:induction false} NeverCloses(x: Extractors, s: string, i: nat, g: Scan)
    requires GoForward(x) && i <= |s| && NoNul(s) && g.commas == 0
    requires forall k :: 0 <= k < |s| ==> s[k] != ',' && !(s[k] == '.' && At(s, k + 1) == '.')
    ensures Gobble(x, s, i, g, '}').c == NUL
    decreases |s| - i
  {
    hide GoForward, Gobble;
    if i == |s| {
      AtEnd(x, s, g, '}');
    } else {
      TurnGoesOn(x, s, i, g, '}');
      var turn := ScanTurn(x, s, i, g, '}');
      if turn.GoOn? {
        NeverCloses(x, s, turn.index, turn.g);
      }
    }
  }
}
