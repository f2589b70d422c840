/** Words with nested brace alternatives and sequences, what they print and what they denote: brace expansion of the
    printed word is the list of words it denotes. */
module BraceTrees {
  import opened Text
  import opened Options
  import opened Sequences
  import opened Braces
  import opened BraceQuoting

  /** One part of a word: an ordinary character, an escaped character, alternatives in braces, a sequence in braces
      given by what stands between them, a quoted or substituted segment, or `${...}`, given by what stands inside. */
  datatype Part =
    | Lit(c: char)
    | Esc(c: char)
    | Alt(branches: seq<Branch>)
    | Range(body: string)
    | Guarded(text: string)
    | Param(body: string)

  /** One alternative. */
  datatype Branch = Branch(parts: seq<Part>)

  /** A character that means nothing to the scanner wherever it stands. */
  predicate Ordinary(c: char) {
    c !in {NUL, '{', '}', ',', '\\', '"', '\'', '`', '$', '(', ' ', '\t', '\n'}
  }

  predicate WellFormed(w: seq<Part>) {
    forall i :: 0 <= i < |w| ==> WellFormedPart(w[i])
  }

  /** Every brace holds at least two alternatives, or passes the quick test for sequences. */
  predicate WellFormedPart(p: Part) {
    match p
    case Lit(c) => Ordinary(c)
    case Esc(c) => c != NUL
    case Alt(bs) => |bs| >= 2 && forall i :: 0 <= i < |bs| ==> WellFormed(bs[i].parts)
    case Range(body) => ValidSeqTerm(body) && AllOrdinary(body)
    case Guarded(text) => GuardsAll(text)
    case Param(body) => body != "" && AllInside(body) && body[0] != '|'
  }

  predicate AllInside(s: string) {
    forall i :: 0 <= i < |s| ==> Ordinary(s[i]) || s[i] == ','
  }

  /** The guarded segments are protected from the scanner wherever they stand. */
  ghost predicate Safe(x: Extractors, w: seq<Part>)
    requires GoForward(x)
    decreases w
  {
    forall i :: 0 <= i < |w| ==> SafePart(x, w[i])
  }

  ghost predicate SafePart(x: Extractors, p: Part)
    requires GoForward(x)
    decreases p
  {
    match p
    case Guarded(text) => Protected(x, text)
    case Alt(bs) => forall i :: 0 <= i < |bs| ==> Safe(x, bs[i].parts)
    case _ => true
  }

  predicate AllOrdinary(s: string) {
    forall i :: 0 <= i < |s| ==> Ordinary(s[i])
  }

  predicate Braced(p: Part) {
    p.Alt? || p.Range?
  }

  ghost predicate SafeBranches(x: Extractors, bs: seq<Branch>)
    requires GoForward(x)
  {
    forall k :: 0 <= k < |bs| ==> Safe(x, bs[k].parts)
  }

  function PrintPart(p: Part): string
    decreases p
  {
    match p
    case Lit(c) => [c]
    case Esc(c) => ['\\', c]
    case Alt(bs) => "{" + PrintBranches(bs) + "}"
    case Range(body) => "{" + body + "}"
    case Guarded(text) => text
    case Param(body) => "${" + body + "}"
  }

  function Print(w: seq<Part>): string
    decreases w
  {
    if w == [] then "" else PrintPart(w[0]) + Print(w[1..])
  }

  /** The alternatives with commas between them. */
  function PrintBranches(bs: seq<Branch>): string
    decreases bs
  {
    if bs == [] then ""
    else if |bs| == 1 then Print(bs[0].parts)
    else Print(bs[0].parts) + ("," + PrintBranches(bs[1..]))
  }

  /** The terms of a sequence, or its text if the full test finds no sequence. */
  function DenoteRange(body: string): (r: seq<string>)
    ensures r != []
  {
    SequenceNotEmpty(body);
    match ExpandSeqTerm(body)
    case Some(terms) => terms
    case None => ["{" + body + "}"]
  }

  function DenotePart(p: Part): (r: seq<string>)
    requires WellFormedPart(p)
    ensures r != []
    decreases p
  {
    match p
    case Lit(c) => [[c]]
    case Esc(c) => [['\\', c]]
    case Alt(bs) => DenoteBranches(bs)
    case Range(body) => DenoteRange(body)
    case Guarded(_) | Param(_) => [PrintPart(p)]
  }

  /** Concatenation is the ordered cross product. */
  function Denote(w: seq<Part>): (r: seq<string>)
    requires WellFormed(w)
    ensures r != []
    decreases w
  {
    if w == [] then [""] else Cross(DenotePart(w[0]), Denote(w[1..]))
  }

  /** Alternatives are listed one after the other. */
  function DenoteBranches(bs: seq<Branch>): (r: seq<string>)
    requires forall i :: 0 <= i < |bs| ==> WellFormed(bs[i].parts)
    ensures bs != [] ==> r != []
    decreases bs
  {
    if bs == [] then [] else Denote(bs[0].parts) + DenoteBranches(bs[1..])
  }

  // ---------------------------------------------------------------- the scanner on printed words

  /** The text from `i` on begins with `p`. */
  predicate StandsAt(p: string, s: string, i: nat) {
    i + |p| <= |s| && s[i..i + |p|] == p
  }

  lemma StandsSplit(p: string, q: string, s: string, i: nat)
    requires StandsAt(p + q, s, i)
    ensures StandsAt(p, s, i) && StandsAt(q, s, i + |p|)
  {
    var all := s[i..i + |p + q|];
    assert all[..|p|] == p && all[|p|..] == q;
    assert s[i..i + |p|] == all[..|p|];
    assert s[i + |p|..i + |p| + |q|] == all[|p|..];
  }

  lemma StandsFirst(p: string, s: string, i: nat)
    requires StandsAt(p, s, i) && |p| > 0
    ensures i < |s| && At(s, i) == s[i] == p[0]
    ensures |p| > 1 ==> At(s, i + 1) == p[1]
  {
    assert s[i] == s[i..i + |p|][0];
    if |p| > 1 {
      assert s[i + 1] == s[i..i + |p|][1];
    }
  }

  /** Between tokens of a word: nothing quoted and nothing escaped. */
  predicate Calm(g: Scan, satisfy: char) {
    g.quoted == NUL && !g.passNext && satisfy in {'{', '}', ','}
  }

  /** The same, and not looking for an open brace here. */
  predicate Passing(g: Scan, satisfy: char) {
    Calm(g, satisfy) && satisfy != '{'
  }

  /** What a whole word may change: nothing inside braces; at the outer level only what dots look like. */
  predicate Passed(g: Scan, g': Scan) {
    && g'.quoted == NUL && !g'.passNext && g'.level == g.level
    && (g.level > 0 ==> g' == g)
    && g'.commas >= g.commas && (g.kind == CommaBrace ==> g'.kind == CommaBrace)
  }

  lemma GobbleStep(x: Extractors, s: string, i: nat, g: Scan, satisfy: char)
    requires GoForward(x) && i < |s| && s[i] != NUL
    ensures match ScanTurn(x, s, i, g, satisfy)
            case Halt(stop) => Gobble(x, s, i, g, satisfy) == stop
            case GoOn(j, g') => Gobble(x, s, i, g, satisfy) == Gobble(x, s, j, g', satisfy)
  {
    hide ScanTurn;
  }

  /** An ordinary character is passed over. */
  lemma PassOrdinary(x: Extractors, s: string, i: nat, g: Scan, satisfy: char) returns (g': Scan)
    requires GoForward(x) && i < |s| && Ordinary(s[i]) && At(s, i + 1) != '('
    requires g.quoted == NUL && !g.passNext && (satisfy == '}' || satisfy == ',' || satisfy == '{')
    ensures Passed(g, g') && (satisfy != '}' ==> g' == g)
    ensures Gobble(x, s, i, g, satisfy) == Gobble(x, s, i + 1, g', satisfy)
  {
    GobbleStep(x, s, i, g, satisfy);
    g' := Plain(s, i, g, satisfy);
  }

  /** An escaped character is passed over with its backslash. */
  lemma PassEscaped(x: Extractors, s: string, i: nat, g: Scan, satisfy: char)
    requires GoForward(x) && i + 1 < |s| && s[i] == '\\' && s[i + 1] != NUL
    requires g.quoted == NUL && !g.passNext
    ensures Gobble(x, s, i, g, satisfy) == Gobble(x, s, i + 2, g, satisfy)
  {
    GobbleStep(x, s, i, g, satisfy);
    GobbleStep(x, s, i + 1, g.(passNext := true), satisfy);
    assert g.(passNext := true).(passNext := false) == g;
  }

  lemma PassOpen(x: Extractors, s: string, i: nat, g: Scan, satisfy: char)
    requires GoForward(x) && i < |s| && s[i] == '{' && Passing(g, satisfy)
    ensures Gobble(x, s, i, g, satisfy) == Gobble(x, s, i + 1, g.(level := g.level + 1), satisfy)
  {
    GobbleStep(x, s, i, g, satisfy);
  }

  lemma PassClose(x: Extractors, s: string, i: nat, g: Scan, satisfy: char)
    requires GoForward(x) && i < |s| && s[i] == '}' && Calm(g, satisfy) && g.level > 0
    ensures Gobble(x, s, i, g, satisfy) == Gobble(x, s, i + 1, g.(level := g.level - 1), satisfy)
  {
    GobbleStep(x, s, i, g, satisfy);
  }

  lemma PassInnerComma(x: Extractors, s: string, i: nat, g: Scan, satisfy: char)
    requires GoForward(x) && i < |s| && s[i] == ',' && Calm(g, satisfy) && g.level > 0
    ensures Gobble(x, s, i, g, satisfy) == Gobble(x, s, i + 1, g, satisfy)
  {
    GobbleStep(x, s, i, g, satisfy);
  }

  lemma PassOuterComma(x: Extractors, s: string, i: nat, g: Scan)
    requires GoForward(x) && i < |s| && s[i] == ',' && Passing(g, '}') && g.level == 0
    ensures Gobble(x, s, i, g, '}') == Gobble(x, s, i + 1, g.(kind := CommaBrace, commas := g.commas + 1), '}')
  {
    GobbleStep(x, s, i, g, '}');
  }

  lemma StopAt(x: Extractors, s: string, i: nat, g: Scan, satisfy: char)
    requires GoForward(x) && i < |s| && s[i] == satisfy && Passing(g, satisfy) && g.level == 0 && g.commas > 0
    ensures Gobble(x, s, i, g, satisfy) == Stop(i, satisfy, g.kind)
  {
    GobbleStep(x, s, i, g, satisfy);
  }

  /** What may follow a printed word or part: never an open parenthesis, so that no character before it
      begins a substitution. */
  predicate Follows(s: string, i: nat) {
    At(s, i) != '('
  }

  lemma FirstNotParen(w: seq<Part>)
    requires WellFormed(w)
    ensures |Print(w)| > 0 ==> Print(w)[0] != '('
    ensures w != [] ==> |Print(w)| > 0 && !BraceSpace(Print(w)[0]) && Print(w)[0] != '}' && Print(w)[0] != ','
  {
  }

  lemma NextNotParen(w: seq<Part>, s: string, i: nat)
    requires WellFormed(w) && StandsAt(Print(w), s, i) && Follows(s, i + |Print(w)|)
    ensures Follows(s, i)
  {
    hide Print, WellFormed;
    FirstNotParen(w);
    if |Print(w)| > 0 {
      StandsFirst(Print(w), s, i);
    }
  }

  /** The scanner passes over a printed word and comes back to its level. */
  lemma {:induction false} PassWord(x: Extractors, w: seq<Part>, s: string, i: nat, g: Scan, satisfy: char)
      returns (g': Scan)
    requires GoForward(x) && NoNul(s) && Safe(x, w)
    requires WellFormed(w) && StandsAt(Print(w), s, i) && Follows(s, i + |Print(w)|)
    requires Passing(g, satisfy)
    ensures Passed(g, g')
    ensures Gobble(x, s, i, g, satisfy) == Gobble(x, s, i + |Print(w)|, g', satisfy)
    decreases w, 1
  {
    hide Gobble, GoForward, PrintPart;
    if w == [] {
      g' := g;
    } else {
      var p, rest := w[0], w[1..];
      StandsSplit(PrintPart(p), Print(rest), s, i);
      NextNotParen(rest, s, i + |PrintPart(p)|);
      var g1 := PassPart(x, p, s, i, g, satisfy);
      g' := PassWord(x, rest, s, i + |PrintPart(p)|, g1, satisfy);
    }
  }

  lemma {:induction false} PassPart(x: Extractors, p: Part, s: string, i: nat, g: Scan, satisfy: char)
      returns (g': Scan)
    requires GoForward(x) && NoNul(s) && SafePart(x, p)
    requires WellFormedPart(p) && StandsAt(PrintPart(p), s, i) && Follows(s, i + |PrintPart(p)|)
    requires Passing(g, satisfy)
    ensures Passed(g, g')
    ensures Gobble(x, s, i, g, satisfy) == Gobble(x, s, i + |PrintPart(p)|, g', satisfy)
    decreases p, 1
  {
    hide Gobble, GoForward, PrintBranches;
    StandsFirst(PrintPart(p), s, i);
    match p
    case Lit(_) => g' := PassOrdinary(x, s, i, g, satisfy);
    case Esc(_) =>
      PassEscaped(x, s, i, g, satisfy);
      g' := g;
    case Range(_) =>
      PassRange(x, p, s, i, g, satisfy);
      g' := g;
    case Alt(_) =>
      PassAlt(x, p, s, i, g, satisfy);
      g' := g;
    case Guarded(text) =>
      PassSegment(x, text, s, i, g, satisfy);
      g' := g;
    case Param(_) =>
      PassParam(x, p, s, i, g, satisfy);
      g' := g;
  }

  /** A guarded segment is passed at once. */
  lemma PassSegment(x: Extractors, t: string, s: string, i: nat, g: Scan, satisfy: char)
    requires GoForward(x) && NoNul(s) && Protected(x, t) && StandsAt(t, s, i) && Calm(g, satisfy)
    ensures Gobble(x, s, i, g, satisfy) == Gobble(x, s, i + |t|, g, satisfy)
  {
    hide Gobble, GoForward, Skip;
    var p, q := s[..i], s[i + |t|..];
    assert s == p + t + q && |p| == i;
    AtInside(p, t, q, 0);
    AtInside(p, t, q, 1);
    AtInside(p, t, q, 2);
    SegmentEnds(x, p, t, q);
    PassGuarded(x, s, i, g, satisfy);
  }

  lemma NotNofork(c: char)
    requires (Ordinary(c) || c == ',') && c != '|'
    ensures !NoforkChar(c)
  {
  }

  lemma SegmentEnds(x: Extractors, p: string, t: string, q: string)
    requires GoForward(x) && Protected(x, t)
    ensures Skip(x, p + t + q, |p|) == |p| + |t|
  {
    hide Skip, GoForward;
  }

  /** `${...}` counts as a pair of braces in which nothing is looked for. */
  lemma PassParam(x: Extractors, p: Part, s: string, i: nat, g: Scan, satisfy: char)
    requires GoForward(x) && WellFormedPart(p) && p.Param? && StandsAt(PrintPart(p), s, i) && Calm(g, satisfy)
    ensures Gobble(x, s, i, g, satisfy) == Gobble(x, s, i + |PrintPart(p)|, g, satisfy)
  {
    hide Gobble, GoForward, Ordinary;
    var inner, j := g.(level := g.level + 1), i + 2 + |p.body|;
    assert PrintPart(p) == "$" + ("{" + p.body + "}");
    StandsSplit("$", "{" + p.body + "}", s, i);
    StandsFirst("$", s, i);
    BracesStand(p.body, s, i + 1);
    StandsFirst(p.body, s, i + 2);
    NotNofork(p.body[0]);
    PassDollar(x, s, i, g, satisfy);
    PassInside(x, s, i + 2, j, inner, satisfy);
    PassClose(x, s, j, inner, satisfy);
    assert inner.(level := inner.level - 1) == g;
  }

  lemma PassDollar(x: Extractors, s: string, i: nat, g: Scan, satisfy: char)
    requires GoForward(x) && i + 2 < |s| && s[i] == '$' && s[i + 1] == '{' && !NoforkChar(s[i + 2]) && Calm(g, satisfy)
    ensures Gobble(x, s, i, g, satisfy) == Gobble(x, s, i + 2, g.(level := g.level + 1), satisfy)
  {
    hide Gobble, GoForward;
    var inner := g.(level := g.level + 1);
    GobbleStep(x, s, i, g, satisfy);
    GobbleStep(x, s, i + 1, inner.(passNext := true), satisfy);
    assert inner.(passNext := true).(passNext := false) == inner;
  }

  lemma BracesStand(body: string, s: string, i: nat)
    requires StandsAt("{" + body + "}", s, i)
    ensures StandsAt(body, s, i + 1) && i + 1 + |body| < |s| && s[i] == '{' && s[i + 1 + |body|] == '}'
  {
    StandsSplit("{" + body, "}", s, i);
    StandsSplit("{", body, s, i);
    StandsFirst("{", s, i);
    StandsFirst("}", s, i + 1 + |body|);
  }

  lemma PassRange(x: Extractors, p: Part, s: string, i: nat, g: Scan, satisfy: char)
    requires GoForward(x) && WellFormedPart(p) && p.Range? && StandsAt(PrintPart(p), s, i) && Passing(g, satisfy)
    ensures Gobble(x, s, i, g, satisfy) == Gobble(x, s, i + |PrintPart(p)|, g, satisfy)
  {
    hide Gobble, GoForward, Ordinary, ValidSeqTerm;
    var inner, j := g.(level := g.level + 1), i + 1 + |p.body|;
    BracesStand(p.body, s, i);
    PassOpen(x, s, i, g, satisfy);
    PassInside(x, s, i + 1, j, inner, satisfy);
    PassClose(x, s, j, inner, satisfy);
    assert inner.(level := inner.level - 1) == g;
  }

  lemma {:induction false} PassAlt(x: Extractors, p: Part, s: string, i: nat, g: Scan, satisfy: char)
    requires GoForward(x) && NoNul(s) && SafePart(x, p)
    requires WellFormedPart(p) && p.Alt? && StandsAt(PrintPart(p), s, i) && Passing(g, satisfy)
    ensures Gobble(x, s, i, g, satisfy) == Gobble(x, s, i + |PrintPart(p)|, g, satisfy)
    decreases p, 0
  {
    hide Gobble, GoForward, PrintBranches;
    var inner, j := g.(level := g.level + 1), i + 1 + |PrintBranches(p.branches)|;
    BracesStand(PrintBranches(p.branches), s, i);
    PassOpen(x, s, i, g, satisfy);
    PassBranches(x, p.branches, s, i + 1, inner, satisfy);
    PassClose(x, s, j, inner, satisfy);
    assert inner.(level := inner.level - 1) == g;
  }

  /** Inside braces ordinary characters and commas mean nothing to an outer scan. */
  lemma {:induction false} PassInside(x: Extractors, s: string, i: nat, j: nat, g: Scan, satisfy: char)
    requires GoForward(x) && i <= j < |s| && AllInside(s[i..j]) && s[j] != '('
    requires Calm(g, satisfy) && g.level > 0
    ensures Gobble(x, s, i, g, satisfy) == Gobble(x, s, j, g, satisfy)
    decreases j - i
  {
    hide Gobble, GoForward, Ordinary;
    if i < j {
      assert s[i] == s[i..j][0];
      if s[i] == ',' {
        PassInnerComma(x, s, i, g, satisfy);
      } else {
        NextInside(s, i, j);
        var g' := PassOrdinary(x, s, i, g, satisfy);
      }
      assert s[i + 1..j] == s[i..j][1..];
      PassInside(x, s, i + 1, j, g, satisfy);
    }
  }

  lemma NextInside(s: string, i: nat, j: nat)
    requires i < j < |s| && AllInside(s[i..j]) && s[j] != '('
    ensures At(s, i + 1) != '('
  {
    if i + 1 < j {
      assert s[i + 1] == s[i..j][1];
    }
  }

  /** Inside braces the commas between alternatives mean nothing to an outer scan. */
  lemma {:induction false} PassBranches(x: Extractors, bs: seq<Branch>, s: string, i: nat, g: Scan, satisfy: char)
    requires GoForward(x) && NoNul(s) && SafeBranches(x, bs)
    requires (forall k :: 0 <= k < |bs| ==> WellFormed(bs[k].parts))
    requires StandsAt(PrintBranches(bs), s, i) && Follows(s, i + |PrintBranches(bs)|)
    requires Passing(g, satisfy) && g.level > 0
    ensures Gobble(x, s, i, g, satisfy) == Gobble(x, s, i + |PrintBranches(bs)|, g, satisfy)
    decreases bs, 0
  {
    hide Gobble, GoForward, Print, Safe, WellFormed, NoNul;
    if |bs| == 1 {
      var _ := PassWord(x, bs[0].parts, s, i, g, satisfy);
    } else if |bs| > 1 {
      var j := i + |Print(bs[0].parts)|;
      StandsSplit(Print(bs[0].parts), "," + PrintBranches(bs[1..]), s, i);
      StandsSplit(",", PrintBranches(bs[1..]), s, j);
      StandsFirst(",", s, j);
      var _ := PassWord(x, bs[0].parts, s, i, g, satisfy);
      PassInnerComma(x, s, j, g, satisfy);
      PassBranches(x, bs[1..], s, j + 1, g, satisfy);
    }
  }

  /** At the outer level the alternatives lead to the closing brace, and the expression is one of commas. */
  lemma {:induction false} ToClose(x: Extractors, bs: seq<Branch>, s: string, i: nat, g: Scan)
    requires GoForward(x) && NoNul(s) && SafeBranches(x, bs)
    requires |bs| > 0 && (forall k :: 0 <= k < |bs| ==> WellFormed(bs[k].parts))
    requires StandsAt(PrintBranches(bs) + "}", s, i)
    requires Passing(g, '}') && g.level == 0 && (|bs| == 1 ==> g.commas > 0 && g.kind == CommaBrace)
    ensures Gobble(x, s, i, g, '}') == Stop(i + |PrintBranches(bs)|, '}', CommaBrace)
    decreases |bs|
  {
    hide GoForward, Gobble, Print, Safe, WellFormed, NoNul, StandsAt;
    var b := bs[0].parts;
    if |bs| == 1 {
      ToLastClose(x, b, s, i, g);
    } else {
      var more := PrintBranches(bs[1..]);
      assert PrintBranches(bs) + "}" == Print(b) + ("," + (more + "}"));
      var g1 := ToComma(x, b, more + "}", s, i, g);
      ToClose(x, bs[1..], s, i + |Print(b)| + 1, g1);
    }
  }

  lemma ToLastClose(x: Extractors, b: seq<Part>, s: string, i: nat, g: Scan)
    requires GoForward(x) && NoNul(s) && Safe(x, b) && WellFormed(b) && StandsAt(Print(b) + "}", s, i)
    requires Passing(g, '}') && g.level == 0 && g.commas > 0 && g.kind == CommaBrace
    ensures Gobble(x, s, i, g, '}') == Stop(i + |Print(b)|, '}', CommaBrace)
  {
    hide GoForward, Gobble, Print, Safe, WellFormed, NoNul;
    StandsSplit(Print(b), "}", s, i);
    StandsFirst("}", s, i + |Print(b)|);
    var g1 := PassWord(x, b, s, i, g, '}');
    StopAt(x, s, i + |Print(b)|, g1, '}');
  }

  lemma ToComma(x: Extractors, b: seq<Part>, more: string, s: string, i: nat, g: Scan) returns (g': Scan)
    requires GoForward(x) && NoNul(s) && Safe(x, b) && WellFormed(b) && StandsAt(Print(b) + ("," + more), s, i)
    requires Passing(g, '}') && g.level == 0
    ensures Passing(g', '}') && g'.level == 0 && g'.commas > 0 && g'.kind == CommaBrace
    ensures Gobble(x, s, i, g, '}') == Gobble(x, s, i + |Print(b)| + 1, g', '}')
    ensures StandsAt(more, s, i + |Print(b)| + 1)
  {
    hide GoForward, Gobble, Print, Safe, WellFormed, NoNul;
    var j := i + |Print(b)|;
    StandsSplit(Print(b), "," + more, s, i);
    StandsSplit(",", more, s, j);
    StandsFirst(",", s, j);
    var g1 := PassWord(x, b, s, i, g, '}');
    PassOuterComma(x, s, j, g1);
    g' := g1.(kind := CommaBrace, commas := g1.commas + 1);
  }

  // ---------------------------------------------------------------- finding the first brace

  /** The characters in front of the first brace. */
  function LeadLength(w: seq<Part>): (n: nat)
    ensures n <= |w|
    ensures forall k :: 0 <= k < n ==> !Braced(w[k])
    ensures n < |w| ==> Braced(w[n])
  {
    if w == [] || Braced(w[0]) then 0 else 1 + LeadLength(w[1..])
  }

  /** Looking for an open brace, the scanner passes over the characters before the first one. */
  lemma {:induction false} ToOpen(x: Extractors, w: seq<Part>, s: string, i: nat)
    requires GoForward(x) && NoNul(s) && Safe(x, w)
    requires WellFormed(w) && StandsAt(Print(w), s, i) && i + |Print(w)| == |s|
    ensures var lead := Print(w[..LeadLength(w)]);
            && (LeadLength(w) == |w| ==> Gobble(x, s, i, StartScan('{'), '{') == Stop(|s|, NUL, NoBrace))
            && (LeadLength(w) < |w| ==> Gobble(x, s, i, StartScan('{'), '{') == Stop(i + |lead|, '{', NoBrace))
    decreases |w|
  {
    hide Gobble, GoForward, PrintPart;
    if w == [] {
      GobbleEnd(x, s);
    } else {
      var p, rest := w[0], w[1..];
      StandsSplit(PrintPart(p), Print(rest), s, i);
      NextNotParen(rest, s, i + |PrintPart(p)|);
      if Braced(p) {
        BracedFirst(p, s, i);
        assert w[..0] == [];
        OpenStops(x, s, i);
      } else {
        PassLead(x, p, s, i);
        ToOpen(x, rest, s, i + |PrintPart(p)|);
        assert w[..LeadLength(w)] == [p] + rest[..LeadLength(rest)];
        assert w[..LeadLength(w)][1..] == rest[..LeadLength(rest)];
      }
    }
  }

  lemma GobbleEnd(x: Extractors, s: string)
    requires GoForward(x)
    ensures Gobble(x, s, |s|, StartScan('{'), '{') == Stop(|s|, NUL, NoBrace)
  {
  }

  lemma PassLead(x: Extractors, p: Part, s: string, i: nat)
    requires GoForward(x) && NoNul(s) && SafePart(x, p)
    requires WellFormedPart(p) && !Braced(p) && StandsAt(PrintPart(p), s, i)
    requires Follows(s, i + |PrintPart(p)|)
    ensures Gobble(x, s, i, StartScan('{'), '{') == Gobble(x, s, i + |PrintPart(p)|, StartScan('{'), '{')
  {
    hide Gobble, GoForward;
    StandsFirst(PrintPart(p), s, i);
    if p.Lit? {
      var _ := PassOrdinary(x, s, i, StartScan('{'), '{');
    } else if p.Esc? {
      PassEscaped(x, s, i, StartScan('{'), '{');
    } else if p.Guarded? {
      PassSegment(x, p.text, s, i, StartScan('{'), '{');
    } else {
      PassParam(x, p, s, i, StartScan('{'), '{');
    }
  }

  /** Behind the brace comes neither a blank nor a closing brace. */
  lemma BracedFirst(p: Part, s: string, i: nat)
    requires WellFormedPart(p) && Braced(p) && StandsAt(PrintPart(p), s, i)
    ensures i < |s| && s[i] == '{' && !LooseBrace(s, i)
  {
    hide Print, ValidSeqTerm;
    StandsFirst(PrintPart(p), s, i);
    if p.Alt? {
      var body := PrintBranches(p.branches);
      FirstNotParen(p.branches[0].parts);
      BranchesStart(p.branches);
      assert PrintPart(p)[1] == body[0];
    } else {
      RangeDots(p.body);
      assert PrintPart(p)[1] == p.body[0];
    }
  }

  /** What passes the quick test has two dots with something before and behind. */
  lemma RangeDots(body: string)
    requires ValidSeqTerm(body)
    ensures var t := FindDots(body, 0); 0 < t && t + 2 < |body| + 1 && body[t] == '.' && body[t + 1] == '.'
    ensures var t := FindDots(body, 0); t + 2 < |body| && (AllOrdinary(body) ==> body[t + 2] != '}')
  {
  }

  lemma BranchesStart(bs: seq<Branch>)
    requires |bs| >= 2 && WellFormed(bs[0].parts)
    ensures var body := PrintBranches(bs); |body| > 0 && !BraceSpace(body[0]) && body[0] != '}'
  {
    FirstNotParen(bs[0].parts);
    hide Print, WellFormed;
    assert PrintBranches(bs) == Print(bs[0].parts) + ("," + PrintBranches(bs[1..]));
    if bs[0].parts == [] {
      EmptyPrint();
    }
  }

  lemma EmptyPrint()
    ensures Print([]) == ""
  {
  }

  lemma OpenStops(x: Extractors, s: string, i: nat)
    requires GoForward(x) && i < |s| && s[i] == '{' && !LooseBrace(s, i)
    ensures Gobble(x, s, i, StartScan('{'), '{') == Stop(i, '{', NoBrace)
  {
    hide LooseBrace;
    GobbleStep(x, s, i, StartScan('{'), '{');
  }

  // ---------------------------------------------------------------- printing and denoting in pieces

  lemma {:induction false} PrintAppend(a: seq<Part>, b: seq<Part>)
    ensures Print(a + b) == Print(a) + Print(b)
  {
    hide PrintPart;
    if a == [] {
      assert a + b == b;
    } else {
      assert (a + b)[0] == a[0] && (a + b)[1..] == a[1..] + b;
      PrintAppend(a[1..], b);
    }
  }

  lemma {:induction false} DenoteAppend(a: seq<Part>, b: seq<Part>)
    requires WellFormed(a) && WellFormed(b)
    ensures WellFormed(a + b) && Denote(a + b) == Cross(Denote(a), Denote(b))
  {
    hide DenotePart, WellFormedPart, Cross;
    if a == [] {
      assert a + b == b;
      CrossLeftUnit(Denote(b));
    } else {
      assert (a + b)[0] == a[0] && (a + b)[1..] == a[1..] + b;
      DenoteAppend(a[1..], b);
      CrossAssociative(DenotePart(a[0]), Denote(a[1..]), Denote(b));
    }
  }

  lemma DenoteOne(p: Part)
    requires WellFormedPart(p)
    ensures WellFormed([p]) && Denote([p]) == DenotePart(p)
  {
    hide DenotePart, WellFormedPart, Cross;
    CrossRightUnit(DenotePart(p));
    assert Denote([]) == [""];
  }

  /** A word without braces denotes itself. */
  lemma {:induction false} DenotePlain(w: seq<Part>)
    requires WellFormed(w) && forall i :: 0 <= i < |w| ==> !Braced(w[i])
    ensures Denote(w) == [Print(w)]
  {
    if w != [] {
      DenotePlain(w[1..]);
      CrossSingle(PrintPart(w[0]), Print(w[1..]));
    }
  }

  lemma CrossSingle(a: string, b: string)
    ensures Cross([a], [b]) == [a + b]
  {
    assert Cross([a], [b]) == Prefixed(a, [b]) + Cross([], [b]);
  }

  // ---------------------------------------------------------------- the theorem

  /** Brace expansion of a printed word is exactly what the word denotes, in order. */
  lemma {:induction false} ExpandPrinted(x: Extractors, w: seq<Part>)
    requires GoForward(x) && WellFormed(w) && Safe(x, w)
    ensures BraceExpand(x, Print(w)) == Denote(w)
    decreases w, 2
  {
    hide GoForward, Gobble, Print, Denote, Cross, WellFormed, Safe;
    PrintNoNul(w);
    var s, n := Print(w), LeadLength(w);
    assert s[0..|s|] == s;
    ToOpen(x, w, s, 0);
    if n == |w| {
      assert w[..n] == w;
      WordParts(w, n);
      DenotePlain(w);
      assert s[..|s|] == s;
      NoOpening(x, s);
    } else {
      ExpandFirst(x, w, n);
    }
  }

  /** Printed words hold no NUL. */
  lemma {:induction false} PrintNoNul(w: seq<Part>)
    requires WellFormed(w)
    ensures NoNul(Print(w))
    decreases w, 0
  {
    hide PrintPart, WellFormedPart;
    if w != [] {
      PartNoNul(w[0]);
      PrintNoNul(w[1..]);
    }
  }

  lemma {:induction false} PartNoNul(p: Part)
    requires WellFormedPart(p)
    ensures NoNul(PrintPart(p))
    decreases p
  {
    hide PrintBranches, ValidSeqTerm;
    if p.Alt? {
      BranchesNoNul(p.branches);
    }
  }

  lemma {:induction false} BranchesNoNul(bs: seq<Branch>)
    requires forall k :: 0 <= k < |bs| ==> WellFormed(bs[k].parts)
    ensures NoNul(PrintBranches(bs))
    decreases bs
  {
    hide Print;
    if bs != [] {
      PrintNoNul(bs[0].parts);
      BranchesNoNul(bs[1..]);
    }
  }

  lemma NoOpening(x: Extractors, s: string)
    requires GoForward(x) && Gobble(x, s, 0, StartScan('{'), '{').c == NUL
    ensures var i := Gobble(x, s, 0, StartScan('{'), '{').index; BraceExpand(x, s) == [s[..i]]
  {
    hide GoForward, Gobble;
  }

  lemma WordParts(w: seq<Part>, n: nat)
    requires WellFormed(w) && n <= |w|
    ensures WellFormed(w[..n]) && WellFormed(w[n..])
    ensures n < |w| ==> WellFormedPart(w[n]) && WellFormed(w[n + 1..])
  {
  }

  lemma SafeParts(x: Extractors, w: seq<Part>, n: nat)
    requires GoForward(x) && Safe(x, w) && n < |w|
    ensures SafePart(x, w[n]) && Safe(x, w[n + 1..])
  {
    hide GoForward;
  }

  lemma {:induction false} ExpandFirst(x: Extractors, w: seq<Part>, n: nat)
    requires GoForward(x) && WellFormed(w) && Safe(x, w) && n == LeadLength(w) < |w|
    requires Gobble(x, Print(w), 0, StartScan('{'), '{') == Stop(|Print(w[..n])|, '{', NoBrace)
    ensures BraceExpand(x, Print(w)) == Denote(w)
    decreases w, 1
  {
    hide GoForward, Gobble, Print, Denote, DenotePart, Cross, WellFormed, WellFormedPart, BraceExpand, Safe, SafePart;
    var pre, p, rest := w[..n], w[n], w[n + 1..];
    WordParts(w, n);
    SafeParts(x, w, n);
    if p.Alt? {
      FirstAlt(x, w, n);
    } else {
      FirstRange(x, w, n);
    }
    DenotePlain(pre);
    DenoteAround(w, n);
    if Print(rest) == "" {
      FirstNotParen(rest);
      EmptyDenotes(Cross([Print(pre)], DenotePart(p)));
    } else {
      ExpandPrinted(x, rest);
    }
    CrossAssociative([Print(pre)], DenotePart(p), Denote(rest));
  }

  /** The words for everything up to the first closing brace, followed by the expansion of the rest. */
  predicate FirstExpanded(x: Extractors, w: seq<Part>, n: nat)
    requires GoForward(x) && n < |w| && WellFormedPart(w[n])
  {
    var result, rest := Cross([Print(w[..n])], DenotePart(w[n])), Print(w[n + 1..]);
    BraceExpand(x, Print(w)) == if rest == "" then result else Cross(result, BraceExpand(x, rest))
  }

  lemma {:induction false} FirstAlt(x: Extractors, w: seq<Part>, n: nat)
    requires GoForward(x) && WellFormed(w) && n < |w| && w[n].Alt? && WellFormedPart(w[n]) && SafePart(x, w[n])
    requires Gobble(x, Print(w), 0, StartScan('{'), '{') == Stop(|Print(w[..n])|, '{', NoBrace)
    ensures FirstExpanded(x, w, n)
    decreases w, 0
  {
    hide GoForward, Gobble, Print, Denote, Cross, WellFormed, ExpandAmble, BraceExpand, PrintBranches, DenoteBranches;
    PrintNoNul(w);
    var s, p, rest := Print(w), w[n], w[n + 1..];
    var bs := p.branches;
    var lead, body := Print(w[..n]), PrintBranches(bs);
    PrintAround(w, n);
    var start := |lead| + 1;
    PiecesAround(s, lead, body, Print(rest));
    BranchesWell(p);
    ToClose(x, bs, s, start, StartScan('}'));
    BranchesNoNul(bs);
    ExpandBranches(x, bs, body, 0);
    ExpandCommas(x, s, |lead|, start + |body|);
  }

  /** The pieces of a text around its first braces. */
  lemma PiecesAround(s: string, lead: string, body: string, rest: string)
    requires s == (lead + "{") + (body + "}") + rest
    ensures var i, j := |lead|, |lead| + 1 + |body|;
            && j < |s| && s[..i] == lead && s[i + 1..j] == body && s[j + 1..] == rest
            && s[i..j + 1] == "{" + body + "}" && StandsAt(body + "}", s, i + 1)
    ensures rest == "" ==> s == lead + ("{" + body + "}")
  {
    StandsMiddle(lead + "{", body + "}", rest, s);
  }

  lemma FirstRange(x: Extractors, w: seq<Part>, n: nat)
    requires GoForward(x) && n < |w| && w[n].Range? && WellFormedPart(w[n]) && WellFormed(w[n + 1..])
    requires Gobble(x, Print(w), 0, StartScan('{'), '{') == Stop(|Print(w[..n])|, '{', NoBrace)
    ensures FirstExpanded(x, w, n)
  {
    hide GoForward, Gobble, Print, Cross, WellFormed, BraceExpand, ValidSeqTerm, ExpandSeqTerm, Ordinary, StandsAt, At;
    var s, body, lead, rest := Print(w), w[n].body, Print(w[..n]), Print(w[n + 1..]);
    var j := |lead| + 1 + |body|;
    PrintAround(w, n);
    PiecesAround(s, lead, body, rest);
    RangeToClose(x, body, s, |lead| + 1);
    NoNulFirst(w[n + 1..]);
    AfterClose(s, j, rest);
    ExpandSeq(x, s, |lead|, j);
    CrossSingle(lead, "{" + body + "}");
  }

  lemma NoNulFirst(w: seq<Part>)
    requires WellFormed(w)
    ensures Print(w) != "" ==> Print(w)[0] != NUL
  {
  }

  lemma AfterClose(s: string, j: nat, rest: string)
    requires j < |s| && s[j + 1..] == rest && (rest != "" ==> rest[0] != NUL)
    ensures At(s, j + 1) == NUL <==> rest == ""
  {
    if rest != "" {
      assert s[j + 1] == rest[0];
    }
  }

  lemma BranchesWell(p: Part)
    requires p.Alt? && WellFormedPart(p)
    ensures |p.branches| >= 2 && forall k :: 0 <= k < |p.branches| ==> WellFormed(p.branches[k].parts)
  {
    hide WellFormed;
  }

  lemma EmptyDenotes(a: seq<string>)
    ensures Denote([]) == [""] && Cross(a, Denote([])) == a
  {
    CrossRightUnit(a);
  }

  /** What stands between the braces. */
  function Body(p: Part): string
    requires Braced(p)
  {
    if p.Alt? then PrintBranches(p.branches) else p.body
  }

  lemma PrintAround(w: seq<Part>, n: nat)
    requires n < |w| && Braced(w[n])
    ensures Print(w) == (Print(w[..n]) + "{") + (Body(w[n]) + "}") + Print(w[n + 1..])
  {
    hide Print, PrintBranches;
    var pre, p, rest := w[..n], w[n], w[n + 1..];
    assert w == pre + ([p] + rest);
    PrintAppend(pre, [p] + rest);
    PrintFirst(p, rest);
    Regroup(Print(pre), "{", Body(p) + "}", Print(rest));
  }

  lemma PrintFirst(p: Part, rest: seq<Part>)
    requires Braced(p)
    ensures Print([p] + rest) == ("{" + (Body(p) + "}")) + Print(rest)
  {
    hide PrintBranches;
    assert ([p] + rest)[1..] == rest;
    assert PrintPart(p) == "{" + (Body(p) + "}");
  }

  lemma Regroup(a: string, b: string, c: string, d: string)
    ensures a + ((b + c) + d) == (a + b) + c + d
  {
  }

  lemma DenoteAround(w: seq<Part>, n: nat)
    requires WellFormed(w) && n < |w| && WellFormed(w[..n]) && WellFormed(w[n + 1..]) && WellFormedPart(w[n])
    ensures Denote(w) == Cross(Denote(w[..n]), Cross(DenotePart(w[n]), Denote(w[n + 1..])))
  {
    hide Denote, Cross, DenotePart, WellFormedPart, WellFormed;
    var pre, p, rest := w[..n], w[n], w[n + 1..];
    assert w == pre + ([p] + rest);
    DenoteOne(p);
    DenoteAppend([p], rest);
    DenoteAppend(pre, [p] + rest);
  }

  lemma StandsMiddle(a: string, b: string, c: string, s: string)
    requires s == a + b + c
    ensures StandsAt(b, s, |a|)
  {
  }

  /** The expansion of a text whose first brace holds commas. */
  lemma FoundAt(x: Extractors, s: string, i: nat, close: Stop)
    requires GoForward(x) && i < |s| && close.c == '}' && close.kind == CommaBrace
    requires Gobble(x, s, 0, StartScan('{'), '{') == Stop(i, '{', NoBrace)
    requires Gobble(x, s, i + 1, StartScan('}'), '}') == close
    ensures FindBrace(x, s, 0) == Stop(i, '{', NoBrace)
  {
    hide GoForward, Gobble, ValidSeqTerm;
  }

  lemma UnfoldCommas(x: Extractors, s: string, open: Stop, close: Stop)
    requires GoForward(x) && FindBrace(x, s, 0) == open && open.c == '{'
    requires Gobble(x, s, open.index + 1, StartScan('}'), '}') == close && close.c == '}' && close.kind == CommaBrace
    requires close.index < |s|
    ensures var result := Cross([s[..open.index]], ExpandAmble(x, s[open.index + 1..close.index], 0));
            BraceExpand(x, s) ==
            if s[close.index + 1..] == "" then result else Cross(result, BraceExpand(x, s[close.index + 1..]))
  {
    hide GoForward, Gobble, Cross, ExpandAmble, ExpandSequence, ValidSeqTerm, FindBrace;
  }

  lemma ExpandCommas(x: Extractors, s: string, i: nat, j: nat)
    requires GoForward(x) && i < j < |s|
    requires Gobble(x, s, 0, StartScan('{'), '{') == Stop(i, '{', NoBrace)
    requires Gobble(x, s, i + 1, StartScan('}'), '}') == Stop(j, '}', CommaBrace)
    ensures var result := Cross([s[..i]], ExpandAmble(x, s[i + 1..j], 0));
            BraceExpand(x, s) ==
            if s[j + 1..] == "" then result else Cross(result, BraceExpand(x, s[j + 1..]))
  {
    hide GoForward, Gobble, Cross, ExpandAmble, ExpandSequence, ValidSeqTerm, BraceExpand, FindBrace;
    FoundAt(x, s, i, Stop(j, '}', CommaBrace));
    UnfoldCommas(x, s, Stop(i, '{', NoBrace), Stop(j, '}', CommaBrace));
  }

  /** Ordinary characters at the outer level; before the first two dots none of them may be those dots. */
  lemma {:induction false} PassFlat(x: Extractors, s: string, i: nat, j: nat, g: Scan)
    requires GoForward(x) && i <= j < |s| && Passing(g, '}') && g.level == 0 && s[j] != '('
    requires forall k :: i <= k < j ==> Ordinary(s[k])
    requires g.kind == SeqBrace || forall k :: i <= k < j ==> !(s[k] == '.' && s[k + 1] == '.')
    ensures Gobble(x, s, i, g, '}') == Gobble(x, s, j, g, '}')
    decreases j - i
  {
    hide Gobble, GoForward;
    if i < j {
      GobbleStep(x, s, i, g, '}');
      PassFlat(x, s, i + 1, j, g);
    }
  }

  lemma PassDots(x: Extractors, s: string, i: nat, g: Scan)
    requires GoForward(x) && i + 2 < |s| && s[i] == '.' && s[i + 1] == '.' && s[i + 2] != '}'
    requires Passing(g, '}') && g.level == 0 && g.kind == NoBrace
    ensures Gobble(x, s, i, g, '}') == Gobble(x, s, i + 1, g.(kind := SeqBrace, commas := g.commas + 1), '}')
  {
    hide Gobble, GoForward;
    GobbleStep(x, s, i, g, '}');
  }

  /** From behind the open brace the scanner finds the closing brace of a sequence. */
  lemma RangeToClose(x: Extractors, body: string, s: string, i: nat)
    requires GoForward(x) && ValidSeqTerm(body) && AllOrdinary(body) && StandsAt(body + "}", s, i)
    ensures Gobble(x, s, i, StartScan('}'), '}') == Stop(i + |body|, '}', SeqBrace)
  {
    hide Gobble, GoForward, ValidSeqTerm, Ordinary;
    var t, j, g := FindDots(body, 0), i + |body|, StartScan('}');
    RangeDots(body);
    forall k | 0 <= k < |body|
      ensures s[i + k] == body[k]
    {
      assert s[i + k] == s[i..i + |body + "}"|][k];
    }
    assert s[j] == '}' by {
      assert s[j] == s[i..i + |body + "}"|][|body|];
    }
    forall k | i <= k < j
      ensures Ordinary(s[k]) && s[k] == body[k - i]
    {
      assert s[i + (k - i)] == body[k - i];
    }
    OrdinaryNotParen(s, i + t);
    PassFlat(x, s, i, i + t, g);
    PassDots(x, s, i + t, g);
    var g1 := g.(kind := SeqBrace, commas := g.commas + 1);
    PassFlat(x, s, i + t + 1, j, g1);
    StopAt(x, s, j, g1, '}');
  }

  lemma OrdinaryNotParen(s: string, i: nat)
    requires i < |s| && Ordinary(s[i])
    ensures s[i] != '('
  {
  }

  lemma FoundSeq(x: Extractors, s: string, i: nat, close: Stop)
    requires GoForward(x) && i < |s| && close.c == '}' && close.kind == SeqBrace && i < close.index < |s|
    requires ValidSeqTerm(s[i + 1..close.index])
    requires Gobble(x, s, 0, StartScan('{'), '{') == Stop(i, '{', NoBrace)
    requires Gobble(x, s, i + 1, StartScan('}'), '}') == close
    ensures FindBrace(x, s, 0) == Stop(i, '{', NoBrace)
  {
    hide GoForward, Gobble, ValidSeqTerm;
  }

  /** The expansion of a text whose first brace holds a sequence. */
  lemma ExpandSeq(x: Extractors, s: string, i: nat, j: nat)
    requires GoForward(x) && i < j < |s| && ValidSeqTerm(s[i + 1..j])
    requires Gobble(x, s, 0, StartScan('{'), '{') == Stop(i, '{', NoBrace)
    requires Gobble(x, s, i + 1, StartScan('}'), '}') == Stop(j, '}', SeqBrace)
    ensures var tack := ExpandSequence(s, i + 1, j);
            BraceExpand(x, s) ==
            if tack.None? then [s]
            else
              var result := Cross([s[..i]], tack.value);
              if s[j + 1..] == "" then result else Cross(result, BraceExpand(x, s[j + 1..]))
  {
    hide GoForward, Gobble, Cross, ExpandAmble, ExpandSequence, ValidSeqTerm, FindBrace, BraceExpand;
    FoundSeq(x, s, i, Stop(j, '}', SeqBrace));
    UnfoldSeq(x, s, Stop(i, '{', NoBrace), Stop(j, '}', SeqBrace));
  }

  lemma UnfoldSeq(x: Extractors, s: string, open: Stop, close: Stop)
    requires GoForward(x) && FindBrace(x, s, 0) == open && open.c == '{'
    requires Gobble(x, s, open.index + 1, StartScan('}'), '}') == close && close.c == '}' && close.kind == SeqBrace
    requires close.index < |s|
    ensures var tack := ExpandSequence(s, open.index + 1, close.index);
            BraceExpand(x, s) ==
            if tack.None? then [s]
            else
              var result, rest := Cross([s[..open.index]], tack.value), s[close.index + 1..];
              if rest == "" then result else Cross(result, BraceExpand(x, rest))
  {
    hide GoForward, Gobble, Cross, ExpandAmble, ExpandSequence, ValidSeqTerm, FindBrace;
  }

  /** The pieces between the outer commas are the printed alternatives. */
  lemma {:induction false} ExpandBranches(x: Extractors, bs: seq<Branch>, s: string, i: nat)
    requires GoForward(x) && |bs| > 0 && (forall k :: 0 <= k < |bs| ==> WellFormed(bs[k].parts))
    requires NoNul(s) && SafeBranches(x, bs)
    requires StandsAt(PrintBranches(bs), s, i) && i + |PrintBranches(bs)| == |s|
    ensures ExpandAmble(x, s, i) == DenoteBranches(bs)
    decreases bs, 3
  {
    hide GoForward, Gobble, Print, Denote, BraceExpand, ExpandAmble, WellFormed, Safe, NoNul, StandsAt;
    var b := bs[0].parts;
    ExpandPrinted(x, b);
    if |bs| == 1 {
      assert bs[1..] == [];
      LastPiece(x, b, s, i);
      assert Denote(b) + [] == Denote(b);
    } else {
      var more := PrintBranches(bs[1..]);
      OnePiece(x, b, more, s, i);
      ExpandBranches(x, bs[1..], s, i + |Print(b)| + 1);
    }
  }

  lemma LastPiece(x: Extractors, b: seq<Part>, s: string, i: nat)
    requires GoForward(x) && WellFormed(b) && NoNul(s) && Safe(x, b)
    requires StandsAt(Print(b), s, i) && i + |Print(b)| == |s|
    ensures ExpandAmble(x, s, i) == BraceExpand(x, Print(b))
  {
    hide GoForward, Gobble, Print, BraceExpand, WellFormed, Safe, NoNul;
    var g := PassWord(x, b, s, i, StartScan(','), ',');
    ScanEnds(x, s, g, ',');
    assert s[i..|s|] == Print(b);
  }

  lemma OnePiece(x: Extractors, b: seq<Part>, more: string, s: string, i: nat)
    requires GoForward(x) && WellFormed(b) && NoNul(s) && Safe(x, b) && StandsAt(Print(b) + ("," + more), s, i)
    ensures var j := i + |Print(b)| + 1;
            j <= |s| && StandsAt(more, s, j) && ExpandAmble(x, s, i) == BraceExpand(x, Print(b)) + ExpandAmble(x, s, j)
  {
    hide GoForward, Gobble, Print, BraceExpand, WellFormed, Safe, NoNul;
    var j := i + |Print(b)|;
    StandsSplit(Print(b), "," + more, s, i);
    StandsSplit(",", more, s, j);
    StandsFirst(",", s, j);
    var g := PassWord(x, b, s, i, StartScan(','), ',');
    StopAt(x, s, j, g, ',');
    assert s[i..j] == Print(b);
  }

  lemma ScanEnds(x: Extractors, s: string, g: Scan, satisfy: char)
    requires GoForward(x)
    ensures Gobble(x, s, |s|, g, satisfy) == Stop(|s|, NUL, g.kind)
  {
  }

  /** For instance `{a,"b,c"}`: the comma in quotes does not split. */
  lemma QuotedComma(x: Extractors)
    requires GoForward(x)
    ensures BraceExpand(x, "{a,\"b,c\"}") == ["a", "\"b,c\""]
  {
    hide GoForward, BraceExpand, Protected, Safe, WellFormed, Print, Denote, DenoteBranches;
    var t := "\"b,c\"";
    var bs := [Branch([Lit('a')]), Branch([Guarded(t)])];
    QuotedCommaSafe(x);
    TwoSafe(x, t);
    TwoBranches(t);
    ExpandPrinted(x, [Alt(bs)]);
    DenoteOne(Alt(bs));
    assert "{a," + t + "}" == "{a,\"b,c\"}";
  }

  lemma TwoSafe(x: Extractors, t: string)
    requires GoForward(x) && Protected(x, t)
    ensures var w := [Alt([Branch([Lit('a')]), Branch([Guarded(t)])])]; WellFormed(w) && Safe(x, w)
  {
    hide GoForward;
    var a, b := [Lit('a')], [Guarded(t)];
    assert SafePart(x, Lit('a')) && SafePart(x, Guarded(t));
    assert Safe(x, a) && Safe(x, b) && WellFormed(a) && WellFormed(b);
    assert SafePart(x, Alt([Branch(a), Branch(b)])) && WellFormedPart(Alt([Branch(a), Branch(b)]));
  }

  lemma TwoBranches(t: string)
    requires GuardsAll(t)
    ensures var bs := [Branch([Lit('a')]), Branch([Guarded(t)])];
            && WellFormedPart(Alt(bs)) && Print([Alt(bs)]) == "{a," + t + "}" && DenoteBranches(bs) == ["a", t]
  {
    var a, b := [Lit('a')], [Guarded(t)];
    var bs := [Branch(a), Branch(b)];
    assert a[1..] == [] && b[1..] == [] && [Alt(bs)][1..] == [];
    assert Print(a) == "a" && Print(b) == t;
    assert bs[1..] == [Branch(b)] && bs[1..][1..] == [];
    assert PrintBranches(bs) == "a" + ("," + t);
    assert WellFormed(a) && WellFormed(b);
    DenoteOne(Lit('a'));
    DenoteOne(Guarded(t));
    assert DenoteBranches(bs) == [['a']] + ([t] + DenoteBranches([]));
  }

  lemma QuotedCommaSafe(x: Extractors)
    requires GoForward(x)
    ensures Protected(x, "\"b,c\"")
  {
    hide GoForward;
    var t := "\"b,c\"";
    assert Closes(x, t, 4, '"') && CloseOf(x, t, 4, '"') == 5;
    assert BehindOne(x, t, 3, '"') == 4 && BehindOne(x, t, 2, '"') == 3 && BehindOne(x, t, 1, '"') == 2;
    assert Closes(x, t, 3, '"') && CloseOf(x, t, 3, '"') == 5;
    assert Closes(x, t, 2, '"') && CloseOf(x, t, 2, '"') == 5;
    ProtectedByQuotes(x, t, '"');
  }
}
