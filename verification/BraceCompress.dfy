/** The brace compressor of bracecomp.c: a sorted list of names becomes one brace expression, grouped by
    common prefixes. Expanding it gives the names back. */
module BraceCompress {
  import opened Text
  import opened Braces
  import opened BraceTrees

  // ---------------------------------------------------------------- quoting

  /** The characters sh_backslash_quote puts a backslash in front of. */
  predicate NeedsBackslash(c: char) {
    c in {'\t', '\n', ' ', '!', '"', '$', '&', '\'', '(', ')', '*', ',', ';', '<', '>', '?', '[', '\\', ']', '^', '`',
          '{', '|', '}'}
  }

  /** sh_backslash_quote; a '#' is quoted only at the beginning. */
  function QuoteFrom(s: string, first: bool): string {
    if s == "" then ""
    else (if NeedsBackslash(s[0]) || (first && s[0] == '#') then ['\\', s[0]] else [s[0]]) + QuoteFrom(s[1..], false)
  }

  function Quote(s: string): string {
    QuoteFrom(s, true)
  }

  /** Removing the backslashes again. */
  function Unquote(s: string): string {
    if s == "" then ""
    else if s[0] == '\\' && |s| > 1 then [s[1]] + Unquote(s[2..])
    else [s[0]] + Unquote(s[1..])
  }

  lemma UnquoteEscaped(c: char, w: string)
    ensures Unquote(['\\', c] + w) == [c] + Unquote(w)
  {
    var s := ['\\', c] + w;
    assert s[0] == '\\' && s[1] == c && s[2..] == w;
  }

  lemma UnquotePlain(c: char, w: string)
    requires c != '\\'
    ensures Unquote([c] + w) == [c] + Unquote(w)
  {
    var s := [c] + w;
    assert s[0] == c && s[1..] == w;
  }

  lemma QuoteUnfold(s: string, first: bool)
    requires s != ""
    ensures var quoted := NeedsBackslash(s[0]) || (first && s[0] == '#');
            && QuoteFrom(s, first) == (if quoted then ['\\', s[0]] else [s[0]]) + QuoteFrom(s[1..], false)
            && (!quoted ==> s[0] != '\\')
  {
  }

  /** Quoting in front of any text is undone by unquoting. */
  lemma {:induction false} UnquoteQuoted(s: string, first: bool, w: string)
    ensures Unquote(QuoteFrom(s, first) + w) == s + Unquote(w)
  {
    hide Unquote, NeedsBackslash, QuoteFrom;
    if s == "" {
      NothingQuoted(first);
      assert "" + w == w;
    } else {
      var rest := QuoteFrom(s[1..], false) + w;
      QuoteUnfold(s, first);
      UnquoteQuoted(s[1..], false, w);
      if NeedsBackslash(s[0]) || (first && s[0] == '#') {
        assert QuoteFrom(s, first) + w == ['\\', s[0]] + rest;
        UnquoteEscaped(s[0], rest);
      } else {
        assert QuoteFrom(s, first) + w == [s[0]] + rest;
        UnquotePlain(s[0], rest);
      }
      assert [s[0]] + (s[1..] + Unquote(w)) == s + Unquote(w);
    }
  }

  lemma NothingQuoted(first: bool)
    ensures QuoteFrom("", first) == ""
  {
  }

  /** The characters that mean something to the shell unless they are quoted: blanks and operators, quotes, and the
      characters of expansions, patterns, braces and history. */
  predicate Special(c: char) {
    || c in {' ', '\t', '\n', ';', '&', '|', '(', ')', '<', '>'}
    || c in {'\\', '"', '\'', '`', '$'}
    || c in {'*', '?', '[', ']', '{', '}', ',', '!', '^'}
  }

  /** No special character stands without a backslash that is not itself behind a backslash. */
  predicate AllQuoted(w: string) {
    if w == "" then true
    else if w[0] == '\\' then |w| > 1 && AllQuoted(w[2..])
    else !Special(w[0]) && AllQuoted(w[1..])
  }

  /** Quoting leaves no special character bare, nor a `#` that would begin a comment, and adds nothing else: only
      special characters and such a `#` get a backslash. */
  lemma {:induction false} NothingBare(s: string, first: bool)
    ensures AllQuoted(QuoteFrom(s, first))
    ensures s != "" && first ==> QuoteFrom(s, first)[0] != '#'
    ensures (forall i :: 0 <= i < |s| ==> !Special(s[i])) && (first && s != "" ==> s[0] != '#') ==>
              QuoteFrom(s, first) == s
  {
    if s != "" {
      NothingBare(s[1..], false);
      var rest := QuoteFrom(s[1..], false);
      QuoteUnfold(s, first);
      SpecialNeeds(s[0]);
      var w := QuoteFrom(s, first);
      if NeedsBackslash(s[0]) || (first && s[0] == '#') {
        assert w[2..] == rest;
      } else {
        assert w[1..] == rest;
      }
    }
  }

  lemma SpecialNeeds(c: char)
    ensures NeedsBackslash(c) <==> Special(c)
  {
  }

  /** A name without characters that need quoting. */
  predicate PlainName(s: string) {
    forall i :: 0 <= i < |s| ==> !NeedsBackslash(s[i]) && s[i] != '#'
  }

  lemma {:induction false} QuotePlain(s: string, first: bool)
    requires PlainName(s)
    ensures QuoteFrom(s, first) == s
  {
    if s != "" {
      QuotePlain(s[1..], false);
    }
  }

  /** The parts of a quoted text. */
  function QuotedParts(s: string, first: bool): (w: seq<Part>)
    ensures forall i :: 0 <= i < |w| ==> w[i].Lit? || w[i].Esc?
  {
    if s == "" then []
    else [if NeedsBackslash(s[0]) || (first && s[0] == '#') then Esc(s[0]) else Lit(s[0])] + QuotedParts(s[1..], false)
  }

  lemma {:induction false} QuotedPartsPrint(s: string, first: bool)
    requires NoNul(s)
    ensures Print(QuotedParts(s, first)) == QuoteFrom(s, first) && WellFormed(QuotedParts(s, first))
  {
    if s != "" {
      QuotedPartsPrint(s[1..], false);
      var w := QuotedParts(s, first);
      assert w[1..] == QuotedParts(s[1..], false);
    }
  }

  // ---------------------------------------------------------------- common prefixes and the order of names

  /** string_gcd: the length of the common prefix. */
  function CommonPrefix(a: string, b: string): (n: nat)
    ensures n <= |a| && n <= |b|
    ensures a[..n] == b[..n]
    ensures n < |a| && n < |b| ==> a[n] != b[n]
  {
    if a != "" && b != "" && a[0] == b[0] then
      var n := CommonPrefix(a[1..], b[1..]);
      assert a[..n + 1] == [a[0]] + a[1..][..n] && b[..n + 1] == [b[0]] + b[1..][..n];
      n + 1
    else 0
  }

  lemma AgreeAt(a: string, b: string, n: nat, k: nat)
    requires k < n <= |a| && n <= |b| && a[..n] == b[..n]
    ensures a[k] == b[k]
  {
    assert a[..n][k] == b[..n][k];
  }

  lemma {:induction false} CommonPrefixIs(a: string, b: string, n: nat)
    requires n <= |a| && n <= |b| && a[..n] == b[..n]
    requires n == |a| || n == |b| || a[n] != b[n]
    ensures CommonPrefix(a, b) == n
  {
    var m := CommonPrefix(a, b);
    if m < n {
      AgreeAt(a, b, n, m);
    } else if n < m {
      AgreeAt(a, b, m, n);
    }
  }

  method StringGcd(s1: string, s2: string) returns (i: nat)
    ensures i == CommonPrefix(s1, s2)
  {
    i := 0;
    while i < |s1| && i < |s2|
      invariant i <= |s1| && i <= |s2| && s1[..i] == s2[..i]
    {
      if s1[i] != s2[i] {
        break;
      }
      assert s1[..i + 1] == s1[..i] + [s1[i]] && s2[..i + 1] == s2[..i] + [s2[i]];
      i := i + 1;
    }
    CommonPrefixIs(s1, s2, i);
  }

  /** The rank of a byte: the first byte of a name is compared as a signed char, the others as unsigned. */
  function Rank(c: char, first: bool): int {
    if first && c as int >= 128 then c as int - 256 else c as int
  }

  /** strcmp, from the first byte on which the names may differ. */
  function CompareFrom(a: string, b: string, i: nat): int
    decreases |a| - i
  {
    if At(a, i) != At(b, i) then Rank(At(a, i), false) - Rank(At(b, i), false)
    else if i >= |a| then 0
    else CompareFrom(a, b, i + 1)
  }

  /** _strcompare: by the first byte, then by the whole names. */
  function StrCompare(a: string, b: string): int {
    var d := Rank(At(a, 0), true) - Rank(At(b, 0), true);
    if d != 0 then d else CompareFrom(a, b, 0)
  }

  predicate Bytes(s: string) {
    forall i :: 0 <= i < |s| ==> 0 < s[i] as int < 256
  }

  /** The names from index `from` on are sorted. */
  predicate Sorted(names: seq<string>, from: nat) {
    forall i, j :: from <= i < j < |names| ==> StrCompare(names[i], names[j]) <= 0
  }

  /** The order is decided where the common prefix ends. */
  lemma {:induction false} CompareDecided(a: string, b: string, i: nat)
    requires i <= CommonPrefix(a, b)
    ensures var p := CommonPrefix(a, b);
            At(a, p) != At(b, p) ==> CompareFrom(a, b, i) == Rank(At(a, p), false) - Rank(At(b, p), false)
    decreases CommonPrefix(a, b) - i
  {
    var p := CommonPrefix(a, b);
    if i < p {
      assert a[..p][i] == b[..p][i];
      CompareDecided(a, b, i + 1);
    }
  }

  lemma StrCompareDecided(a: string, b: string)
    requires Bytes(a) && Bytes(b)
    ensures var p := CommonPrefix(a, b);
            At(a, p) != At(b, p) ==>
              (StrCompare(a, b) <= 0 <==> Rank(At(a, p), p == 0) < Rank(At(b, p), p == 0))
  {
    var p := CommonPrefix(a, b);
    CompareDecided(a, b, 0);
    if p > 0 {
      assert a[..p][0] == b[..p][0];
    }
  }

  /** Where two names first differ, the smaller byte comes first; at the very beginning bytes from 128 on count as
      negative. A name comes before the longer ones that begin with it. */
  lemma OrderIs(p: string, c: char, s: string, d: char, t: string)
    requires Bytes(p + [c] + s) && Bytes(p + [d] + t) && c != d
    ensures var a, b := p + [c] + s, p + [d] + t;
            (StrCompare(a, b) < 0 <==>
             (if p == "" && c as int >= 128 then c as int - 256 else c as int)
               < (if p == "" && d as int >= 128 then d as int - 256 else d as int))
    ensures p != "" ==> StrCompare(p, p + [d] + t) < 0 < StrCompare(p + [d] + t, p)
    ensures StrCompare(p, p) == 0
  {
    var a, b := p + [c] + s, p + [d] + t;
    assert a[|p|] == c && b[|p|] == d && a[..|p|] == p == b[..|p|] == p[..|p|];
    assert 0 < d as int < 256 && 0 < c as int < 256;
    CommonPrefixIs(a, b, |p|);
    CommonPrefixIs(p, b, |p|);
    CommonPrefixIs(b, p, |p|);
    CompareDecided(a, b, 0);
    CompareDecided(p, b, 0);
    CompareDecided(b, p, 0);
    CompareSame(p, 0);
    if p != "" {
      assert a[0] == b[0] == p[0];
    }
  }

  lemma {:induction false} CompareSame(p: string, i: nat)
    ensures CompareFrom(p, p, i) == 0
    decreases |p| - i
  {
    if i < |p| {
      CompareSame(p, i + 1);
    }
  }

  /** In sorted names the common prefix with the first of three is no longer for the third. */
  lemma PrefixShrinks(a: string, b: string, c: string)
    requires Bytes(a) && Bytes(b) && Bytes(c)
    requires StrCompare(a, b) <= 0 && StrCompare(b, c) <= 0
    ensures CommonPrefix(a, c) <= CommonPrefix(a, b)
  {
    var p, q := CommonPrefix(a, b), CommonPrefix(a, c);
    if p < q {
      assert a[..q][p] == c[..q][p];
      assert a[..p] == c[..p] by {
        assert a[..q][..p] == a[..p] && c[..q][..p] == c[..p];
      }
      assert At(a, p) != At(b, p);
      CommonPrefixIs(b, c, p);
      StrCompareDecided(a, b);
      StrCompareDecided(b, c);
    }
  }

  // ---------------------------------------------------------------- the compressor

  function Drop(s: string, n: nat): string {
    if n <= |s| then s[n..] else ""
  }

  /** The group that begins at `start`: where it ends and the common prefix of its first and last name. */
  datatype Group = Group(end: nat, gcd: nat)

  function GroupFrom(names: seq<string>, start: nat, e: nat, realEnd: nat, z: nat, gcd: nat): (g: Group)
    requires start < e <= realEnd <= |names|
    ensures e <= g.end <= realEnd
    ensures g.end == e ==> g.gcd == gcd
    ensures g.end > e ==> g.gcd == CommonPrefix(names[start], names[g.end - 1]) > z
    ensures forall k :: e <= k < g.end ==> CommonPrefix(names[start], names[k]) > z
    ensures g.end < realEnd ==> CommonPrefix(names[start], names[g.end]) <= z
    decreases realEnd - e
  {
    if e < realEnd then
      var temp := CommonPrefix(names[start], names[e]);
      if temp <= z then Group(e, gcd) else GroupFrom(names, start, e + 1, realEnd, z, temp)
    else Group(e, gcd)
  }

  function GroupAt(names: seq<string>, start: nat, realEnd: nat, z: nat): (g: Group)
    requires start < realEnd <= |names|
    ensures start < g.end <= realEnd
    ensures g.end == start + 1 ==> g.gcd == |names[start]|
    ensures g.end > start + 1 ==> z < g.gcd <= |names[start]|
  {
    GroupFrom(names, start, start + 1, realEnd, z, |names[start]|)
  }

  function Slack(names: seq<string>, i: nat, z: nat): int {
    if i < |names| then |names[i]| - z else 0
  }

  /** The text of one group, given the text of the groups inside it. */
  function Subterm(names: seq<string>, i: nat, g: Group, z: nat, inner: string): string
    requires i < g.end <= |names| && (g.end > i + 1 ==> z <= g.gcd <= |names[i]| && |inner| > 0)
  {
    if g.end == i + 1 then Quote(Drop(names[i], z))
    else Quote(names[i][z..g.gcd]) + "{" + inner[..|inner| - 1] + "}"
  }

  /** The parts of one group, given the branches inside it. */
  function GroupParts(names: seq<string>, i: nat, g: Group, z: nat, inner: seq<Branch>): seq<Part>
    requires i < g.end <= |names| && (g.end > i + 1 ==> z <= g.gcd <= |names[i]|)
  {
    if g.end == i + 1 then QuotedParts(Drop(names[i], z), true)
    else QuotedParts(names[i][z..g.gcd], true) + [Alt(inner)]
  }

  /** The text of the groups from `i` on, each followed by a comma. */
  function Pieces(names: seq<string>, i: nat, realEnd: nat, z: nat): (p: string)
    requires i <= realEnd <= |names|
    ensures i < realEnd ==> |p| > 0
    decreases realEnd - i, Slack(names, i, z)
  {
    if i == realEnd then ""
    else
      var g := GroupAt(names, i, realEnd, z);
      var inner := if g.end == i + 1 then "" else Pieces(names, i, g.end, g.gcd);
      Subterm(names, i, g, z, inner) + "," + Pieces(names, g.end, realEnd, z)
  }

  /** really_munge_braces. */
  function Munge(names: seq<string>, start: nat, end: nat, z: nat): string
    requires start <= end <= |names| && |names| > 0
  {
    if start == end then (if start < |names| then Quote(Drop(names[start], z)) else Quote(names[0]))
    else
      var p := Pieces(names, start, end, z);
      if z > 0 then p
      else if GroupAt(names, start, end, z).end != end then "{" + p[..|p| - 1] + "}"
      else p[..|p| - 1]
  }

  /** The same groups as branches of a word. */
  function Branches(names: seq<string>, i: nat, realEnd: nat, z: nat): (bs: seq<Branch>)
    requires i <= realEnd <= |names|
    ensures i < realEnd ==> |bs| > 0
    ensures i < realEnd && GroupAt(names, i, realEnd, z).end < realEnd ==> |bs| > 1
    decreases realEnd - i, Slack(names, i, z)
  {
    if i == realEnd then []
    else
      var g := GroupAt(names, i, realEnd, z);
      var inner := if g.end == i + 1 then [] else Branches(names, i, g.end, g.gcd);
      [Branch(GroupParts(names, i, g, z, inner))] + Branches(names, g.end, realEnd, z)
  }

  predicate AllNoNul(names: seq<string>) {
    forall k :: 0 <= k < |names| ==> NoNul(names[k])
  }

  lemma LastInGroup(names: seq<string>, i: nat, e: nat, z: nat)
    requires i + 1 < e <= |names|
    ensures GroupAt(names, i, e, z).end == e ==> CommonPrefix(names[i], names[e - 1]) > z
  {
  }

  /** The recursion on a group splits it: its common prefix is used up by its last name at the latest. */
  lemma {:induction false} InnerSplits(names: seq<string>, i: nat, realEnd: nat, z: nat)
    requires i < realEnd <= |names|
    requires var g := GroupAt(names, i, realEnd, z); g.end > i + 1
    ensures var g := GroupAt(names, i, realEnd, z); GroupAt(names, i, g.end, g.gcd).end < g.end
  {
    var g := GroupAt(names, i, realEnd, z);
    var inner := GroupAt(names, i, g.end, g.gcd);
    LastInGroup(names, i, g.end, g.gcd);
  }

  // ---------------------------------------------------------------- the text is the printed branches

  lemma PrintBranchesCons(b: Branch, bs: seq<Branch>)
    ensures PrintBranches([b] + bs) == if bs == [] then Print(b.parts) else Print(b.parts) + ("," + PrintBranches(bs))
  {
    hide Print;
    var all := [b] + bs;
    assert all[0] == b && all[1..] == bs;
  }

  lemma DropNoNul(s: string, i: nat, j: nat)
    requires NoNul(s) && i <= j <= |s|
    ensures NoNul(s[i..j]) && NoNul(Drop(s, i))
  {
  }

  lemma AppendAltPrint(w: seq<Part>, bs: seq<Branch>)
    ensures Print(w + [Alt(bs)]) == Print(w) + "{" + PrintBranches(bs) + "}"
  {
    hide PrintBranches;
    PrintAppend(w, [Alt(bs)]);
    assert Print([Alt(bs)]) == PrintPart(Alt(bs)) + Print([]);
  }

  lemma AppendAltWellFormed(w: seq<Part>, bs: seq<Branch>)
    requires WellFormed(w) && |bs| >= 2 && forall k :: 0 <= k < |bs| ==> WellFormed(bs[k].parts)
    ensures WellFormed(w + [Alt(bs)])
  {
  }

  predicate BranchesWellFormed(bs: seq<Branch>) {
    forall k :: 0 <= k < |bs| ==> WellFormed(bs[k].parts)
  }

  lemma PiecesUnfold(names: seq<string>, i: nat, realEnd: nat, z: nat)
    requires i < realEnd <= |names|
    ensures var g := GroupAt(names, i, realEnd, z);
            var inner := if g.end == i + 1 then "" else Pieces(names, i, g.end, g.gcd);
            && (g.end > i + 1 ==> z <= g.gcd <= |names[i]| && |inner| > 0)
            && Pieces(names, i, realEnd, z) == Subterm(names, i, g, z, inner) + "," + Pieces(names, g.end, realEnd, z)
  {
    hide GroupFrom, Subterm;
  }

  lemma BranchesUnfold(names: seq<string>, i: nat, realEnd: nat, z: nat)
    requires i < realEnd <= |names|
    ensures var g := GroupAt(names, i, realEnd, z);
            var inner := if g.end == i + 1 then [] else Branches(names, i, g.end, g.gcd);
            && (g.end > i + 1 ==> z <= g.gcd <= |names[i]|)
            && Branches(names, i, realEnd, z)
            == [Branch(GroupParts(names, i, g, z, inner))] + Branches(names, g.end, realEnd, z)
  {
    hide GroupFrom, GroupParts;
  }

  /** The groups, with commas behind each, are the printed branches with one comma behind. Every brace that is
      opened holds at least two alternatives. */
  lemma {:induction false} PiecesPrint(names: seq<string>, i: nat, realEnd: nat, z: nat)
    requires i < realEnd <= |names| && AllNoNul(names)
    ensures Pieces(names, i, realEnd, z) == PrintBranches(Branches(names, i, realEnd, z)) + ","
    ensures BranchesWellFormed(Branches(names, i, realEnd, z))
    decreases realEnd - i, Slack(names, i, z)
  {
    hide Print, PrintBranches, WellFormed, NoNul, GroupAt, Subterm, GroupParts, Pieces, Branches, AllNoNul;
    var g := GroupAt(names, i, realEnd, z);
    PiecesUnfold(names, i, realEnd, z);
    BranchesUnfold(names, i, realEnd, z);
    if g.end > i + 1 {
      PiecesPrint(names, i, g.end, g.gcd);
      InnerSplits(names, i, realEnd, z);
    }
    var inner := if g.end == i + 1 then "" else Pieces(names, i, g.end, g.gcd);
    var innerBs := if g.end == i + 1 then [] else Branches(names, i, g.end, g.gcd);
    GroupPrints(names, i, g, z, inner, innerBs);
    var rest := Branches(names, g.end, realEnd, z);
    PrintBranchesCons(Branch(GroupParts(names, i, g, z, innerBs)), rest);
    if g.end < realEnd {
      PiecesPrint(names, g.end, realEnd, z);
    } else {
      NoBranches(names, realEnd, z);
    }
  }

  lemma NoBranches(names: seq<string>, i: nat, z: nat)
    requires i <= |names|
    ensures Branches(names, i, i, z) == [] && Pieces(names, i, i, z) == ""
  {
  }

  lemma GroupPrints(names: seq<string>, i: nat, g: Group, z: nat, inner: string, innerBs: seq<Branch>)
    requires i < g.end <= |names| && AllNoNul(names)
    requires g.end > i + 1 ==> z <= g.gcd <= |names[i]| && inner == PrintBranches(innerBs) + ","
                               && BranchesWellFormed(innerBs) && |innerBs| >= 2
    ensures Print(GroupParts(names, i, g, z, innerBs)) == Subterm(names, i, g, z, inner)
    ensures WellFormed(GroupParts(names, i, g, z, innerBs))
  {
    hide Print, PrintBranches, WellFormed, NoNul, QuoteFrom, Drop, QuotedParts;
    if g.end == i + 1 {
      SinglePrint(names[i], z);
    } else {
      DropNoNul(names[i], z, g.gcd);
      QuotedPartsPrint(names[i][z..g.gcd], true);
      AppendAltPrint(QuotedParts(names[i][z..g.gcd], true), innerBs);
      AppendAltWellFormed(QuotedParts(names[i][z..g.gcd], true), innerBs);
      assert inner[..|inner| - 1] == PrintBranches(innerBs);
    }
  }

  lemma SinglePrint(s: string, z: nat)
    requires NoNul(s)
    ensures Print(QuotedParts(Drop(s, z), true)) == Quote(Drop(s, z)) && WellFormed(QuotedParts(Drop(s, z), true))
  {
    hide Print, WellFormed, QuoteFrom, QuotedParts;
    if z <= |s| {
      DropNoNul(s, z, z);
    }
    QuotedPartsPrint(Drop(s, z), true);
  }

  // ---------------------------------------------------------------- nothing in need of protection

  lemma QuotedSafe(x: Extractors, s: string, first: bool)
    requires GoForward(x)
    ensures Safe(x, QuotedParts(s, first))
  {
    hide GoForward;
  }

  /** The branches are quoted names and braces only. */
  lemma {:induction false} BranchesSafe(x: Extractors, names: seq<string>, i: nat, realEnd: nat, z: nat)
    requires GoForward(x) && i <= realEnd <= |names|
    ensures SafeBranches(x, Branches(names, i, realEnd, z))
    decreases realEnd - i, Slack(names, i, z)
  {
    hide GoForward, GroupAt, Branches, QuotedParts, SafePart;
    if i == realEnd {
      NoBranches(names, i, z);
    } else {
      BranchesUnfold(names, i, realEnd, z);
      var g := GroupAt(names, i, realEnd, z);
      BranchesSafe(x, names, g.end, realEnd, z);
      if g.end > i + 1 {
        BranchesSafe(x, names, i, g.end, g.gcd);
      }
      var inner := if g.end == i + 1 then [] else Branches(names, i, g.end, g.gcd);
      PartsSafe(x, names, i, g, z, inner);
    }
  }

  lemma PartsSafe(x: Extractors, names: seq<string>, i: nat, g: Group, z: nat, inner: seq<Branch>)
    requires GoForward(x) && i < g.end <= |names| && SafeBranches(x, inner)
    requires g.end > i + 1 ==> z <= g.gcd <= |names[i]|
    ensures Safe(x, GroupParts(names, i, g, z, inner))
  {
    hide GoForward, QuotedParts;
    if g.end == i + 1 {
      QuotedSafe(x, Drop(names[i], z), true);
    } else {
      QuotedSafe(x, names[i][z..g.gcd], true);
    }
  }

  // ---------------------------------------------------------------- the branches denote the names

  /** The word unquotes to the name from `z` on, and is that text itself if nothing needed quoting. */
  predicate Spells(word: string, name: string, z: nat) {
    z <= |name| && Unquote(word) == name[z..] && (PlainName(name) ==> word == name[z..])
  }

  /** The words spell the names of a range, in order. */
  predicate AllSpell(words: seq<string>, names: seq<string>, i: nat, j: nat, z: nat)
    requires i <= j <= |names|
  {
    |words| == j - i && forall k :: 0 <= k < j - i ==> Spells(words[k], names[i + k], z)
  }

  lemma PlainPart(s: string, i: nat, j: nat)
    requires PlainName(s) && i <= j <= |s|
    ensures PlainName(s[i..j])
  {
  }

  lemma QuotedSpells(name: string, z: nat)
    requires z <= |name| && NoNul(name)
    ensures WellFormed(QuotedParts(name[z..], true))
    ensures Denote(QuotedParts(name[z..], true)) == [Quote(name[z..])] && Spells(Quote(name[z..]), name, z)
  {
    hide WellFormed, Denote, Print, QuoteFrom, QuotedParts;
    var t := name[z..];
    DropNoNul(name, z, |name|);
    assert name[z..|name|] == t;
    QuotedPartsPrint(t, true);
    DenotePlain(QuotedParts(t, true));
    UnquoteQuoted(t, true, "");
    assert QuoteFrom(t, true) + "" == QuoteFrom(t, true);
    assert t + Unquote("") == t;
    if PlainName(name) {
      PlainPart(name, z, |name|);
      QuotePlain(t, true);
    }
  }

  /** A quoted piece of the common prefix in front of the rest of a name. */
  lemma PrefixSpells(first: string, name: string, z: nat, gcd: nat, word: string)
    requires z <= gcd <= |first| && gcd <= |name| && first[..gcd] == name[..gcd] && Spells(word, name, gcd)
    ensures Spells(Quote(first[z..gcd]) + word, name, z)
  {
    hide QuoteFrom;
    var t := first[z..gcd];
    assert t == first[..gcd][z..] == name[..gcd][z..] == name[z..gcd];
    UnquoteQuoted(t, true, word);
    assert t + name[gcd..] == name[z..];
    if PlainName(name) {
      PlainPart(name, z, gcd);
      QuotePlain(t, true);
    }
  }

  lemma AllPrefixSpell(words: seq<string>, names: seq<string>, i: nat, j: nat, z: nat, gcd: nat)
    requires i < j <= |names| && z <= gcd && AllSpell(words, names, i, j, gcd)
    requires gcd <= |names[i]| && forall k :: i <= k < j ==> gcd <= |names[k]| && names[i][..gcd] == names[k][..gcd]
    ensures AllSpell(Prefixed(Quote(names[i][z..gcd]), words), names, i, j, z)
  {
    hide QuoteFrom, Spells;
    var q := Quote(names[i][z..gcd]);
    forall k | 0 <= k < j - i
      ensures Spells(Prefixed(q, words)[k], names[i + k], z)
    {
      PrefixSpells(names[i], names[i + k], z, gcd, words[k]);
    }
  }

  lemma JoinSpell(a: seq<string>, b: seq<string>, names: seq<string>, i: nat, m: nat, j: nat, z: nat)
    requires i <= m <= j <= |names| && AllSpell(a, names, i, m, z) && AllSpell(b, names, m, j, z)
    ensures AllSpell(a + b, names, i, j, z)
  {
    hide Spells;
    forall k | 0 <= k < j - i
      ensures Spells((a + b)[k], names[i + k], z)
    {
      if k >= m - i {
        assert (a + b)[k] == b[k - (m - i)];
        assert names[m + (k - (m - i))] == names[i + k];
      }
    }
  }

  /** From index `from` on, names with a common prefix stand together, the longer ones nearer: what sorting is needed
      for. */
  predicate PrefixOrdered(names: seq<string>, from: nat) {
    forall i, j, k :: from <= i <= j <= k < |names| ==>
                        CommonPrefix(names[i], names[k]) <= CommonPrefix(names[i], names[j])
  }

  lemma OrderedLater(names: seq<string>, from: nat, i: nat)
    requires PrefixOrdered(names, from) && from <= i
    ensures PrefixOrdered(names, i)
  {
    hide CommonPrefix;
  }

  lemma SortedPrefixOrdered(names: seq<string>, from: nat)
    requires Sorted(names, from) && forall k :: from <= k < |names| ==> Bytes(names[k])
    ensures PrefixOrdered(names, from)
  {
    hide StrCompare, Bytes, CommonPrefix;
    forall i, j, k | from <= i <= j <= k < |names|
      ensures CommonPrefix(names[i], names[k]) <= CommonPrefix(names[i], names[j])
    {
      if i < j < k {
        PrefixShrinks(names[i], names[j], names[k]);
      } else if i == j {
        CommonPrefixIs(names[i], names[i], |names[i]|);
      }
    }
  }

  /** The common prefix of a group is shared by all its names. */
  lemma GroupShares(names: seq<string>, i: nat, realEnd: nat, z: nat, k: nat)
    requires i < realEnd <= |names| && PrefixOrdered(names, i)
    requires var g := GroupAt(names, i, realEnd, z); g.end > i + 1 && i <= k < g.end
    ensures var g := GroupAt(names, i, realEnd, z); g.gcd <= |names[k]| && names[i][..g.gcd] == names[k][..g.gcd]
  {
    hide GroupFrom, CommonPrefix;
    var g := GroupAt(names, i, realEnd, z);
    GroupGcd(names, i, realEnd, z);
    var p := CommonPrefix(names[i], names[k]);
    assert g.gcd <= p;
    assert names[i][..g.gcd] == names[i][..p][..g.gcd];
    assert names[k][..g.gcd] == names[k][..p][..g.gcd];
  }

  lemma {:induction false} GroupGcd(names: seq<string>, i: nat, realEnd: nat, z: nat)
    requires i < realEnd <= |names|
    ensures var g := GroupAt(names, i, realEnd, z);
            g.end > i + 1 ==> g.gcd == CommonPrefix(names[i], names[g.end - 1]) > z
  {
  }

  /** The branches denote the names from `z` on, each exactly once and in order, duplicates included. */
  lemma {:induction false} BranchesDenote(names: seq<string>, i: nat, realEnd: nat, z: nat)
    requires i <= realEnd <= |names| && AllNoNul(names) && PrefixOrdered(names, i)
    requires forall k :: i <= k < realEnd ==> z <= |names[k]|
    ensures BranchesWellFormed(Branches(names, i, realEnd, z))
    ensures AllSpell(DenoteBranches(Branches(names, i, realEnd, z)), names, i, realEnd, z)
    decreases realEnd - i, Slack(names, i, z)
  {
    hide Print, PrintBranches, WellFormed, NoNul, GroupAt, QuoteFrom, QuotedParts, Denote, Spells, CommonPrefix,
      PrefixOrdered, Branches, DenoteBranches;
    if i == realEnd {
      NoBranches(names, i, z);
      NoWords();
    } else {
      PiecesPrint(names, i, realEnd, z);
      BranchesUnfold(names, i, realEnd, z);
      var g := GroupAt(names, i, realEnd, z);
      OrderedLater(names, i, g.end);
      BranchesDenote(names, g.end, realEnd, z);
      var bs := Branches(names, i, realEnd, z);
      FirstSpells(names, i, realEnd, z);
      WordsUnfold(bs);
      assert bs[1..] == Branches(names, g.end, realEnd, z);
      JoinSpell(Denote(bs[0].parts), DenoteBranches(bs[1..]), names, i, g.end, realEnd, z);
    }
  }

  lemma NoWords()
    ensures DenoteBranches([]) == []
  {
  }

  lemma WordsUnfold(bs: seq<Branch>)
    requires BranchesWellFormed(bs) && bs != []
    ensures DenoteBranches(bs) == Denote(bs[0].parts) + DenoteBranches(bs[1..])
  {
    hide Denote, WellFormed;
  }

  /** The first branch denotes the names of the first group. */
  lemma {:induction false} FirstSpells(names: seq<string>, i: nat, realEnd: nat, z: nat)
    requires i < realEnd <= |names| && AllNoNul(names) && PrefixOrdered(names, i)
    requires forall k :: i <= k < realEnd ==> z <= |names[k]|
    ensures var g, parts := GroupAt(names, i, realEnd, z), Branches(names, i, realEnd, z)[0].parts;
            WellFormed(parts) && AllSpell(Denote(parts), names, i, g.end, z)
    decreases realEnd - i, Slack(names, i, z), 1
  {
    hide Print, PrintBranches, WellFormed, NoNul, GroupAt, QuoteFrom, QuotedParts, Denote, Spells, CommonPrefix,
      PrefixOrdered, Branches;
    BranchesUnfold(names, i, realEnd, z);
    if GroupAt(names, i, realEnd, z).end == i + 1 {
      QuotedSpells(names[i], z);
    } else {
      GroupDenotes(names, i, realEnd, z);
    }
  }

  lemma {:induction false} GroupDenotes(names: seq<string>, i: nat, realEnd: nat, z: nat)
    requires i < realEnd <= |names| && AllNoNul(names) && PrefixOrdered(names, i)
    requires forall k :: i <= k < realEnd ==> z <= |names[k]|
    requires GroupAt(names, i, realEnd, z).end > i + 1
    ensures var g := GroupAt(names, i, realEnd, z);
            var parts := QuotedParts(names[i][z..g.gcd], true) + [Alt(Branches(names, i, g.end, g.gcd))];
            WellFormed(parts) && AllSpell(Denote(parts), names, i, g.end, z)
    decreases realEnd - i, Slack(names, i, z), 0
  {
    hide Print, PrintBranches, WellFormed, NoNul, GroupFrom, QuoteFrom, QuotedParts, Denote, Spells, CommonPrefix,
      PrefixOrdered, Cross;
    var g := GroupAt(names, i, realEnd, z);
    forall k | i <= k < g.end
      ensures g.gcd <= |names[k]| && names[i][..g.gcd] == names[k][..g.gcd]
    {
      GroupShares(names, i, realEnd, z, k);
    }
    BranchesDenote(names, i, g.end, g.gcd);
    InnerSplits(names, i, realEnd, z);
    var inner := Branches(names, i, g.end, g.gcd);
    var lead := names[i][z..g.gcd];
    DropNoNul(names[i], z, g.gcd);
    QuotedPartsPrint(lead, true);
    DenotePlain(QuotedParts(lead, true));
    AltDenotes(inner);
    DenoteAppend(QuotedParts(lead, true), [Alt(inner)]);
    AllPrefixSpell(DenoteBranches(inner), names, i, g.end, z, g.gcd);
    CrossOne(Quote(lead), DenoteBranches(inner));
  }

  lemma AltDenotes(bs: seq<Branch>)
    requires |bs| >= 2 && BranchesWellFormed(bs)
    ensures WellFormed([Alt(bs)]) && Denote([Alt(bs)]) == DenoteBranches(bs)
  {
    hide Denote, DenoteBranches, Ordinary, Print;
    DenoteOne(Alt(bs));
  }

  lemma CrossOne(s: string, words: seq<string>)
    ensures Cross([s], words) == Prefixed(s, words)
  {
    assert Cross([s], words) == Prefixed(s, words) + Cross([], words);
  }

  // ---------------------------------------------------------------- the round trip

  /** Expanding the compressed form of the names from `start` on gives exactly these names, in order: each word
      unquotes to its name, and is the name itself when no character needs quoting. */
  lemma {:induction false} CompressRoundTrip(x: Extractors, names: seq<string>, start: nat)
    requires GoForward(x) && start < |names| && AllNoNul(names) && PrefixOrdered(names, start)
    ensures var words := BraceExpand(x, Munge(names, start, |names|, 0));
            && |words| == |names| - start
            && (forall k :: 0 <= k < |words| ==> Unquote(words[k]) == names[start + k])
            && (forall k :: 0 <= k < |words| && PlainName(names[start + k]) ==> words[k] == names[start + k])
  {
    hide GoForward, Print, PrintBranches, WellFormed, NoNul, GroupFrom, QuoteFrom, Denote, CommonPrefix,
      PrefixOrdered, BraceExpand, Branches;
    var n := |names|;
    var bs := Branches(names, start, n, 0);
    PiecesPrint(names, start, n, 0);
    BranchesDenote(names, start, n, 0);
    var p := Pieces(names, start, n, 0);
    assert p[..|p| - 1] == PrintBranches(bs);
    TopWord(names, start);
    var w := TopParts(names, start);
    TopSafe(x, names, start);
    ExpandPrinted(x, w);
    var words := Denote(w);
    forall k | 0 <= k < n - start
      ensures Unquote(words[k]) == names[start + k] && (PlainName(names[start + k]) ==> words[k] == names[start + k])
    {
      assert Spells(words[k], names[start + k], 0);
      assert names[start + k][0..] == names[start + k];
    }
  }

  /** The word whose printed text the compressed form is. */
  function TopParts(names: seq<string>, start: nat): seq<Part>
    requires start < |names|
  {
    var bs := Branches(names, start, |names|, 0);
    if GroupAt(names, start, |names|, 0).end != |names| then [Alt(bs)] else bs[0].parts
  }

  lemma TopSafe(x: Extractors, names: seq<string>, start: nat)
    requires GoForward(x) && start < |names|
    ensures Safe(x, TopParts(names, start))
  {
    hide GoForward, Branches, GroupAt;
    BranchesSafe(x, names, start, |names|, 0);
  }

  /** The compressed form is the printed text of one word. */
  lemma TopWord(names: seq<string>, start: nat)
    requires start < |names| && BranchesWellFormed(Branches(names, start, |names|, 0))
    ensures var bs := Branches(names, start, |names|, 0);
            var w := TopParts(names, start);
            && WellFormed(w) && Denote(w) == DenoteBranches(bs)
            && Print(w) == if GroupAt(names, start, |names|, 0).end != |names| then "{" + PrintBranches(bs) + "}"
                           else PrintBranches(bs)
  {
    hide Print, PrintBranches, WellFormed, GroupFrom, Denote, Branches, DenoteBranches, GroupAt;
    var bs := Branches(names, start, |names|, 0);
    if GroupAt(names, start, |names|, 0).end != |names| {
      AltDenotes(bs);
      AltPrint(bs);
    } else {
      OneGroup(names, start);
      OneBranch(bs);
    }
  }

  lemma AltPrint(bs: seq<Branch>)
    ensures Print([Alt(bs)]) == "{" + PrintBranches(bs) + "}"
  {
    hide PrintBranches;
    assert Print([Alt(bs)]) == PrintPart(Alt(bs)) + Print([]);
  }

  lemma OneBranch(bs: seq<Branch>)
    requires |bs| == 1 && BranchesWellFormed(bs)
    ensures PrintBranches(bs) == Print(bs[0].parts)
    ensures DenoteBranches(bs) == Denote(bs[0].parts)
  {
    hide Print, Denote, WellFormed;
    assert bs[1..] == [];
    assert Denote(bs[0].parts) + DenoteBranches([]) == Denote(bs[0].parts);
  }

  lemma OneGroup(names: seq<string>, start: nat)
    requires start < |names| && GroupAt(names, start, |names|, 0).end == |names|
    ensures |Branches(names, start, |names|, 0)| == 1
  {
    hide GroupFrom;
    assert Branches(names, |names|, |names|, 0) == [];
  }

  /** What a completion puts into the line when the shell has sorted the matches behind names[0]: expanding it gives
      the matches, and a single match, which is names[0] itself, is only quoted. */
  lemma {:induction false} CompletionRoundTrip(x: Extractors, names: seq<string>)
    requires GoForward(x) && names != [] && Sorted(names, 1)
    requires forall k :: 0 <= k < |names| ==> Bytes(names[k])
    ensures var matches := if |names| == 1 then names else names[1..];
            var words := BraceExpand(x, Munge(names, 1, |names|, 0));
            && |words| == |matches|
            && (forall k :: 0 <= k < |matches| ==> Unquote(words[k]) == matches[k])
            && ((forall k :: 0 <= k < |matches| ==> PlainName(matches[k])) ==> words == matches)
  {
    hide GoForward, Munge, Unquote, BraceExpand, StrCompare, PlainName;
    assert AllNoNul(names);
    if |names| == 1 {
      SingleMatch(x, names);
    } else {
      SortedPrefixOrdered(names, 1);
      CompressRoundTrip(x, names, 1);
    }
  }

  lemma SingleMatch(x: Extractors, names: seq<string>)
    requires GoForward(x) && |names| == 1 && NoNul(names[0])
    ensures var words := BraceExpand(x, Munge(names, 1, 1, 0));
            |words| == 1 && Unquote(words[0]) == names[0] && (PlainName(names[0]) ==> words == names)
  {
    hide GoForward, BraceExpand, QuoteFrom, Print, Denote, WellFormed, QuotedParts;
    var name := names[0];
    QuotedSpells(name, 0);
    assert name[0..] == name;
    QuotedPartsPrint(name, true);
    QuotedSafe(x, name, true);
    ExpandPrinted(x, QuotedParts(name, true));
  }

  // ---------------------------------------------------------------- the compressor in the source's form

  method ReallyMungeBraces(names: seq<string>, realStart: nat, realEnd: nat, gcdZero: nat) returns (result: string)
    requires realStart <= realEnd <= |names| && |names| > 0
    ensures result == Munge(names, realStart, realEnd, gcdZero)
    decreases realEnd - realStart, Slack(names, realStart, gcdZero)
  {
    hide QuoteFrom, CommonPrefix, Subterm, GroupAt, Pieces;
    if realStart == realEnd {
      return if realStart < |names| then Quote(Drop(names[realStart], gcdZero)) else Quote(names[0]);
    }
    var flag := false;
    var text := "";
    var start := realStart;
    while start < realEnd
      invariant realStart <= start <= realEnd
      invariant text + Pieces(names, start, realEnd, gcdZero) == Pieces(names, realStart, realEnd, gcdZero)
      invariant start > realStart ==>
                  flag == (gcdZero == 0 && GroupAt(names, realStart, realEnd, gcdZero).end != realEnd)
      invariant start == realStart ==> !flag
    {
      var g := FindGroup(names, start, realEnd, gcdZero);
      PiecesUnfold(names, start, realEnd, gcdZero);
      if gcdZero == 0 && start == realStart && g.end != realEnd {
        flag := true;
      }
      var inner := "";
      if g.end != start + 1 {
        inner := ReallyMungeBraces(names, start, g.end, g.gcd);
      }
      var subterm := Subterm(names, start, g, gcdZero, inner);
      assert (text + (subterm + ",")) + Pieces(names, g.end, realEnd, gcdZero)
          == text + (subterm + "," + Pieces(names, g.end, realEnd, gcdZero));
      text := text + (subterm + ",");
      start := g.end;
    }
    NoBranches(names, realEnd, gcdZero);
    assert text + "" == text;
    if gcdZero == 0 {
      result := if flag then "{" + text[..|text| - 1] + "}" else text[..|text| - 1];
    } else {
      result := text;
    }
  }

  /** The inner loop: how far the group reaches and what it has in common. */
  method FindGroup(names: seq<string>, start: nat, realEnd: nat, gcdZero: nat) returns (g: Group)
    requires start < realEnd <= |names|
    ensures g == GroupAt(names, start, realEnd, gcdZero)
  {
    hide CommonPrefix;
    var gcd: nat := |names[start]|;
    var end := start + 1;
    while end < realEnd
      invariant start < end <= realEnd
      invariant GroupFrom(names, start, end, realEnd, gcdZero, gcd) == GroupAt(names, start, realEnd, gcdZero)
    {
      var temp := StringGcd(names[start], names[end]);
      if temp <= gcdZero {
        break;
      }
      gcd := temp;
      end := end + 1;
    }
    g := Group(end, gcd);
  }
}
