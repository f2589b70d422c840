/** Quoting and brace expansion: only a brace outside of quotes, escapes and substitutions can be expanded. */
module BraceQuoting {
  import opened Text
  import opened Braces

  /** Behind the end of a substitution, or at the end of the text if it has none. */
  function Past(s: string, end: nat): (j: nat)
    ensures j <= |s|
  {
    if end + 1 > |s| then |s| else end + 1
  }

  /** Inside of quotes: the position behind the character at `i` and all that it escapes or substitutes. Single quotes
      know no escapes; a command substitution is only seen in double quotes. */
  function BehindOne(x: Extractors, s: string, i: nat, q: char): (j: nat)
    requires GoForward(x) && i < |s|
    ensures i < j
  {
    if s[i] == '\\' && q != '\'' then i + 2
    else if s[i] == '$' && At(s, i + 1) == '{' && q != '\'' then
      if NoforkChar(At(s, i + 2)) then x.nofork(s, i + 2, q == '"') + 1 else i + 2
    else if q == '"' && s[i] == '$' && At(s, i + 1) == '(' then x.command(s, i + 2) + 1
    else i + 1
  }

  /** Where a quoted segment ends, given where its inside begins: behind the closing quote, or at the end of the
      text. */
  function CloseOf(x: Extractors, s: string, i: nat, q: char): (j: nat)
    requires GoForward(x) && i <= |s|
    ensures i <= j <= |s|
    decreases |s| - i
  {
    if i == |s| then i
    else if s[i] == q then i + 1
    else
      var j := BehindOne(x, s, i, q);
      if j < |s| then CloseOf(x, s, j, q) else |s|
  }

  /** Outside of quotes: the position behind the character at `i` and all that it quotes or substitutes. */
  function Skip(x: Extractors, s: string, i: nat): (j: nat)
    requires GoForward(x) && i < |s|
    ensures i < j <= |s|
  {
    var c := s[i];
    if c == '\\' then if i + 2 <= |s| then i + 2 else |s|
    else if c == '$' && At(s, i + 1) == '{' then
      if NoforkChar(At(s, i + 2)) then Past(s, x.nofork(s, i + 2, false)) else i + 2
    else if c == '"' || c == '\'' || c == '`' then CloseOf(x, s, i + 1, c)
    else if (c == '$' || c == '<' || c == '>') && At(s, i + 1) == '(' then Past(s, x.command(s, i + 2))
    else i + 1
  }

  /** Reading on from `a`, position `i` stands outside of everything quoted. */
  predicate UnquotedFrom(x: Extractors, s: string, a: nat, i: nat)
    requires GoForward(x) && a <= |s|
    decreases |s| - a
  {
    a == i || (a < i && a < |s| && UnquotedFrom(x, s, Skip(x, s, a), i))
  }

  predicate Unquoted(x: Extractors, s: string, i: nat)
    requires GoForward(x)
  {
    UnquotedFrom(x, s, 0, i)
  }

  lemma {:induction false} UnquotedJoin(x: Extractors, s: string, a: nat, b: nat, c: nat)
    requires GoForward(x) && a <= |s| && b <= |s| && UnquotedFrom(x, s, a, b) && UnquotedFrom(x, s, b, c) && b <= c
    ensures UnquotedFrom(x, s, a, c)
    decreases |s| - a
  {
    hide Skip, GoForward;
    if a < b {
      UnquotedJoin(x, s, Skip(x, s, a), b, c);
    }
  }

  // ---------------------------------------------------------------- the scanner

  lemma TurnGoesOn(x: Extractors, s: string, i: nat, g: Scan, satisfy: char)
    requires GoForward(x) && i < |s| && s[i] != NUL
    ensures Gobble(x, s, i, g, satisfy) ==
            match ScanTurn(x, s, i, g, satisfy)
            case Halt(stop) => stop
            case GoOn(j, g') => Gobble(x, s, j, g', satisfy)
  {
    hide GoForward, ScanTurn;
  }

  lemma AtEnd(x: Extractors, s: string, g: Scan, satisfy: char)
    requires GoForward(x)
    ensures Gobble(x, s, |s|, g, satisfy) == Stop(|s|, NUL, g.kind)
  {
    hide GoForward, ScanTurn;
  }

  /** The scanner passes a quoted segment without looking at what is inside. */
  lemma {:induction false} PassQuoted(x: Extractors, s: string, i: nat, g: Scan, satisfy: char)
    requires GoForward(x) && i <= |s| && NoNul(s) && g.quoted != NUL && !g.passNext && satisfy != NUL
    requires g.quoted == '"' || g.quoted == '\'' || g.quoted == '`'
    ensures Gobble(x, s, i, g, satisfy) == Gobble(x, s, CloseOf(x, s, i, g.quoted), g.(quoted := NUL), satisfy)
    decreases |s| - i
  {
    hide GoForward, Gobble;
    AtEnd(x, s, g, satisfy);
    AtEnd(x, s, g.(quoted := NUL), satisfy);
    if i < |s| {
      TurnGoesOn(x, s, i, g, satisfy);
      var turn := ScanTurn(x, s, i, g, satisfy);
      if turn.GoOn? && turn.g.passNext {
        PassEscape(x, s, turn.index, turn.g, satisfy);
        PassQuoted(x, s, if turn.index < |s| then turn.index + 1 else |s|, g, satisfy);
      } else if turn.GoOn? && turn.g.quoted != NUL {
        PassQuoted(x, s, turn.index, g, satisfy);
      }
    }
  }

  lemma PassEscape(x: Extractors, s: string, i: nat, g: Scan, satisfy: char)
    requires GoForward(x) && i <= |s| && NoNul(s) && g.passNext && satisfy != NUL
    ensures i == |s| ==> Gobble(x, s, i, g, satisfy) == Stop(|s|, NUL, g.kind)
    ensures i < |s| ==> Gobble(x, s, i, g, satisfy) == Gobble(x, s, i + 1, g.(passNext := false), satisfy)
  {
    hide GoForward, Gobble;
    if i < |s| {
      TurnGoesOn(x, s, i, g, satisfy);
    } else {
      AtEnd(x, s, g, satisfy);
    }
  }

  /** Outside of quotes the scanner goes from one such position to the next, and stops only there, whether it looks for
      an open brace, a close brace or a comma, and inside of braces as well. */
  lemma {:induction false} StopsUnquoted(x: Extractors, s: string, a: nat, g: Scan, satisfy: char)
    requires GoForward(x) && a <= |s| && NoNul(s) && g.quoted == NUL && !g.passNext && satisfy in {'{', '}', ','}
    ensures var r := Gobble(x, s, a, g, satisfy); r.c == satisfy ==> UnquotedFrom(x, s, a, r.index)
    decreases |s| - a
  {
    hide GoForward, Gobble, CloseOf;
    var r := Gobble(x, s, a, g, satisfy);
    if a == |s| {
      AtEnd(x, s, g, satisfy);
    } else if r.c == satisfy {
      TurnGoesOn(x, s, a, g, satisfy);
      var turn := ScanTurn(x, s, a, g, satisfy);
      if turn.GoOn? {
        if turn.g.passNext {
          PassEscape(x, s, turn.index, turn.g, satisfy);
          StopsUnquoted(x, s, turn.index + 1, turn.g.(passNext := false), satisfy);
        } else if turn.g.quoted != NUL {
          PassQuoted(x, s, turn.index, turn.g, satisfy);
          StopsUnquoted(x, s, CloseOf(x, s, turn.index, turn.g.quoted), turn.g.(quoted := NUL), satisfy);
        } else {
          StopsUnquoted(x, s, turn.index, turn.g, satisfy);
        }
      }
    }
  }

  /** The text that stands at `i` begins with a quote, an escape or a substitution. */
  predicate Guards(s: string, i: nat) {
    || At(s, i) == '\\' || At(s, i) == '"' || At(s, i) == '\'' || At(s, i) == '`'
    || (At(s, i) in {'$', '<', '>'} && At(s, i + 1) == '(')
    || (At(s, i) == '$' && At(s, i + 1) == '{' && NoforkChar(At(s, i + 2)))
  }

  /** Whatever the scanner looks for and however deep in braces it is, it passes all that is quoted or substituted. */
  lemma PassGuarded(x: Extractors, s: string, i: nat, g: Scan, satisfy: char)
    requires GoForward(x) && i < |s| && NoNul(s) && g.quoted == NUL && !g.passNext && satisfy in {'{', '}', ','}
    requires Guards(s, i)
    ensures Gobble(x, s, i, g, satisfy) == Gobble(x, s, Skip(x, s, i), g, satisfy)
  {
    hide GoForward, Gobble, CloseOf;
    AtEnd(x, s, g, satisfy);
    TurnGoesOn(x, s, i, g, satisfy);
    var turn := ScanTurn(x, s, i, g, satisfy);
    if turn.GoOn? && turn.g.passNext {
      PassEscape(x, s, turn.index, turn.g, satisfy);
    } else if turn.GoOn? && turn.g.quoted != NUL {
      PassQuoted(x, s, turn.index, turn.g, satisfy);
    }
  }

  /** What the expander finds is outside of quotes. */
  lemma {:induction false} FindsUnquoted(x: Extractors, s: string, i: nat)
    requires GoForward(x) && i <= |s| && NoNul(s) && Unquoted(x, s, i)
    ensures var r := FindBrace(x, s, i); r.c == '{' ==> Unquoted(x, s, r.index)
    decreases |s| - i
  {
    hide GoForward, Gobble, CloseOf, Opens;
    var open := Gobble(x, s, i, StartScan('{'), '{');
    StopsUnquoted(x, s, i, StartScan('{'), '{');
    if open.c == '{' {
      UnquotedJoin(x, s, 0, i, open.index);
      if !Opens(x, s, open.index) {
        assert Skip(x, s, open.index) == open.index + 1;
        UnquotedJoin(x, s, 0, open.index, open.index + 1);
        FindsUnquoted(x, s, open.index + 1);
      }
    }
  }

  /** A text in which no open brace outside of quotes opens a valid expression is left unchanged. */
  lemma NothingUnquotedOpens(x: Extractors, text: string)
    requires GoForward(x) && NoNul(text)
    requires forall i :: 0 <= i < |text| && text[i] == '{' && Unquoted(x, text, i) ==> !Opens(x, text, i)
    ensures BraceExpand(x, text) == [text]
  {
    hide Gobble, GoForward, Opens, UnquotedFrom;
    assert Unquoted(x, text, 0) by {
      Begins(x, text);
    }
    FindsUnquoted(x, text, 0);
    assert FindBrace(x, text, 0).c == NUL;
    assert text[..|text|] == text;
  }

  lemma Begins(x: Extractors, s: string)
    requires GoForward(x)
    ensures Unquoted(x, s, 0)
  {
    hide GoForward, Skip;
  }

  // ---------------------------------------------------------------- braces that stand alone

  /** At the beginning of the text or behind a blank, and in front of a blank, the end of the text or a close brace. */
  predicate StandsAlone(s: string, i: nat)
    requires i < |s|
  {
    && (i == 0 || s[i - 1] in {' ', '\t', '\n', NUL})
    && (i + 1 == |s| || s[i + 1] in {' ', '\t', '\n', NUL, '}'})
  }

  /** The scanner never stops on an open brace that stands alone. */
  lemma {:induction false} PassesAlone(x: Extractors, s: string, a: nat, g: Scan)
    requires GoForward(x) && a <= |s|
    ensures var r := Gobble(x, s, a, g, '{'); r.c == '{' ==> !StandsAlone(s, r.index)
    decreases |s| - a
  {
    hide GoForward, Gobble;
    var r := Gobble(x, s, a, g, '{');
    if a < |s| && s[a] != NUL {
      TurnGoesOn(x, s, a, g, '{');
      var turn := ScanTurn(x, s, a, g, '{');
      if turn.GoOn? {
        PassesAlone(x, s, turn.index, turn.g);
      }
    } else {
      StopsAtNul(x, s, a, g, '{');
    }
  }

  lemma StopsAtNul(x: Extractors, s: string, a: nat, g: Scan, satisfy: char)
    requires GoForward(x) && a <= |s| && (a == |s| || s[a] == NUL)
    ensures Gobble(x, s, a, g, satisfy).c == NUL
  {
    hide GoForward, ScanTurn;
  }

  /** A text in which every open brace stands alone, such as `{}` or `{ a, b }`, is left unchanged. */
  lemma AloneUnchanged(x: Extractors, s: string)
    requires GoForward(x) && NoNul(s) && forall i :: 0 <= i < |s| && s[i] == '{' ==> StandsAlone(s, i)
    ensures BraceExpand(x, s) == [s]
  {
    hide GoForward, Gobble, Opens;
    PassesAlone(x, s, 0, StartScan('{'));
    assert FindBrace(x, s, 0).c == NUL;
    assert s[..|s|] == s;
  }

  // ---------------------------------------------------------------- wholly quoted texts

  lemma EndOnly(x: Extractors, s: string, i: nat)
    requires GoForward(x) && 0 < i < |s| && Skip(x, s, 0) == |s|
    ensures !Unquoted(x, s, i)
  {
    hide GoForward, Skip;
    assert UnquotedFrom(x, s, 0, i) == UnquotedFrom(x, s, Skip(x, s, 0), i);
  }

  /** A text that is one escape, one quoted segment or one substitution throughout is left unchanged. */
  lemma ProtectedUnchanged(x: Extractors, s: string)
    requires GoForward(x) && NoNul(s) && s != "" && s[0] != '{' && Skip(x, s, 0) == |s|
    ensures BraceExpand(x, s) == [s]
  {
    hide GoForward, Opens, BraceExpand, Gobble, Skip;
    forall i | 0 < i < |s|
      ensures !Unquoted(x, s, i)
    {
      EndOnly(x, s, i);
    }
    NothingUnquotedOpens(x, s);
  }

  /** A text in single or double quotes or backquotes is left unchanged, whatever braces, escapes and substitutions
      stand between them; the quotes may even be left open. */
  lemma QuotedUnchanged(x: Extractors, s: string, q: char)
    requires GoForward(x) && NoNul(s) && s != "" && s[0] == q && (q == '"' || q == '\'' || q == '`')
    requires CloseOf(x, s, 1, q) == |s|
    ensures BraceExpand(x, s) == [s]
  {
    hide GoForward, BraceExpand, CloseOf;
    ProtectedUnchanged(x, s);
  }

  /** Nothing in the text ends quotes of this kind, or is special inside of them. */
  predicate Inert(q: char, t: string) {
    forall i :: 0 <= i < |t| ==> t[i] != q && t[i] != NUL && (q == '\'' || (t[i] != '\\' && t[i] != '$'))
  }

  /** For instance a text without the quote itself, backslashes and dollars; in single quotes these are nothing
      special. */
  lemma {:induction false} InertQuoted(x: Extractors, t: string, q: char, i: nat)
    requires GoForward(x) && Inert(q, t) && i <= |t|
    ensures CloseOf(x, [q] + t + [q], i + 1, q) == |t| + 2
    decreases |t| - i
  {
    hide GoForward;
    var s := [q] + t + [q];
    if i < |t| {
      assert s[i + 1] == t[i];
      InertQuoted(x, t, q, i + 1);
    } else {
      assert s[i + 1] == q;
    }
  }

  // ---------------------------------------------------------------- segments protected in any context

  /** Wherever the text stands, it begins with a quote, an escape or a substitution, and all of it is passed at once. */
  ghost predicate Protected(x: Extractors, t: string)
    requires GoForward(x)
  {
    && GuardsAll(t)
    && forall p: string, q: string :: Skip(x, p + t + q, |p|) == |p| + |t|
  }

  /** The beginning of a segment tells by itself. */
  predicate GuardsAll(t: string) {
    |t| > 1 && NoNul(t) && Guards(t, 0)
  }

  /** Where a substitution ends does not depend on what stands in front of it or behind it. */
  ghost predicate Local(x: Extractors) {
    && (forall p: string, s: string, q: string, i: nat ::
          x.command(s, i) < |s| ==> x.command(p + s + q, |p| + i) == |p| + x.command(s, i))
    && (forall p: string, s: string, q: string, i: nat, d: bool ::
          x.nofork(s, i, d) < |s| ==> x.nofork(p + s + q, |p| + i, d) == |p| + x.nofork(s, i, d))
  }

  lemma AtInside(p: string, t: string, q: string, i: nat)
    ensures i < |t| ==> At(p + t + q, |p| + i) == At(t, i)
  {
  }

  /** The quotes are closed within the text. */
  predicate Closes(x: Extractors, s: string, i: nat, q: char)
    requires GoForward(x) && i <= |s|
    decreases |s| - i
  {
    i < |s| && (s[i] == q || (BehindOne(x, s, i, q) < |s| && Closes(x, s, BehindOne(x, s, i, q), q)))
  }

  /** No substitution begins in the text. */
  predicate NoSubstitution(t: string) {
    forall i :: 0 <= i < |t| && t[i] == '$' ==> At(t, i + 1) !in {'(', '{'}
  }

  lemma BehindAnywhere(x: Extractors, p: string, t: string, r: string, i: nat, q: char)
    requires GoForward(x) && (Local(x) || NoSubstitution(t)) && i < |t| && BehindOne(x, t, i, q) < |t|
    ensures BehindOne(x, p + t + r, |p| + i, q) == |p| + BehindOne(x, t, i, q)
  {
    var s, j := p + t + r, i + 2;
    AtInside(p, t, r, i);
    AtInside(p, t, r, i + 1);
    AtInside(p, t, r, i + 2);
    assert s[|p| + i] == t[i];
    assert |p| + j == |p| + i + 2;
  }

  lemma {:induction false} ClosesAnywhere(x: Extractors, p: string, t: string, r: string, i: nat, q: char)
    requires GoForward(x) && (Local(x) || NoSubstitution(t)) && i <= |t| && Closes(x, t, i, q)
    ensures CloseOf(x, p + t + r, |p| + i, q) == |p| + CloseOf(x, t, i, q)
    decreases |t| - i
  {
    hide GoForward, Local, NoSubstitution, BehindOne;
    var s, k := p + t + r, |p| + i;
    assert s[k] == t[i] && k < |s|;
    if t[i] != q {
      BehindAnywhere(x, p, t, r, i, q);
      ClosesAnywhere(x, p, t, r, BehindOne(x, t, i, q), q);
    }
  }

  /** Text in quotes that are closed at its end, and not before, is protected. */
  lemma ProtectedByQuotes(x: Extractors, t: string, q: char)
    requires GoForward(x) && (Local(x) || NoSubstitution(t)) && |t| > 1 && NoNul(t)
    requires t[0] == q && (q == '"' || q == '\'' || q == '`') && Closes(x, t, 1, q) && CloseOf(x, t, 1, q) == |t|
    ensures Protected(x, t)
  {
    hide GoForward, Closes, CloseOf, Local, NoSubstitution;
    forall p: string, r: string
      ensures Skip(x, p + t + r, |p|) == |p| + |t|
    {
      ClosesAnywhere(x, p, t, r, 1, q);
      assert (p + t + r)[|p|] == t[0];
    }
  }

  /** So is a command substitution, or a process substitution, that ends where the text does. */
  lemma ProtectedBySubstitution(x: Extractors, t: string)
    requires GoForward(x) && Local(x) && |t| > 2 && NoNul(t) && t[0] in {'$', '<', '>'} && t[1] == '('
    requires x.command(t, 2) == |t| - 1
    ensures Protected(x, t)
  {
    forall p: string, r: string
      ensures Skip(x, p + t + r, |p|) == |p| + |t|
    {
      var s := p + t + r;
      assert s[|p|] == t[0] && At(s, |p| + 1) == t[1];
      assert x.command(s, |p| + 2) == |p| + x.command(t, 2);
    }
  }

  /** And a command substituted in the same shell. */
  lemma ProtectedByNofork(x: Extractors, t: string)
    requires GoForward(x) && Local(x) && |t| > 3 && NoNul(t) && t[0] == '$'
    requires t[1] == '{' && t[2] in {' ', '\t', '\n', '|'}
    requires x.nofork(t, 2, false) == |t| - 1
    ensures Protected(x, t)
  {
    forall p: string, r: string
      ensures Skip(x, p + t + r, |p|) == |p| + |t|
    {
      var s := p + t + r;
      assert s[|p|] == t[0] && At(s, |p| + 1) == t[1] && At(s, |p| + 2) == t[2];
      assert x.nofork(s, |p| + 2, false) == |p| + x.nofork(t, 2, false);
    }
  }
}
