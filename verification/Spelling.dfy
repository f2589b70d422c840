/** Writing tokens down: every sequence of tokens that a tree can have is what the scanner finds in its
    own spelling, so every precedence tree is the tree of some text. */
module Spelling {
  import opened Integers
  import opened Text
  import opened Numbers
  import opened Options
  import opened Tokens
  import opened Trees

  // ---------------------------------------------------------------- scanning is local

  lemma {:induction false} SkipBlankShift(p: string, q: string, i: nat)
    requires i <= |q|
    ensures SkipBlank(p + q, |p| + i) == |p| + SkipBlank(q, i)
    decreases |q| - i
  {
    assert At(p + q, |p| + i) == At(q, i);
    if IsBlank(At(q, i)) {
      SkipBlankShift(p, q, i + 1);
    }
  }

  lemma {:induction false} NameEndShift(p: string, q: string, i: nat)
    requires i <= |q|
    ensures NameEnd(p + q, |p| + i) == |p| + NameEnd(q, i)
    decreases |q| - i
  {
    assert At(p + q, |p| + i) == At(q, i);
    if NameChar(At(q, i)) {
      NameEndShift(p, q, i + 1);
    }
  }

  lemma {:induction false} NumberSpanShift(p: string, q: string, i: nat)
    requires i <= |q|
    ensures NumberSpan(p + q, |p| + i) == |p| + NumberSpan(q, i)
    decreases |q| - i
  {
    if i < |q| {
      assert (p + q)[|p| + i] == q[i];
      if ValidNumChar(q[i]) || q[i] == '#' {
        NumberSpanShift(p, q, i + 1);
      }
    }
  }

  function Shifted(n: nat, sc: Scanned): Scanned {
    Scanned(sc.token, n + sc.next)
  }

  lemma OperatorShift(p: string, q: string, b: nat, prev: Prev)
    requires b < |q|
    ensures ScanOperator(p + q, |p| + b, prev) == Shifted(|p|, ScanOperator(q, b, prev))
  {
    hide At, SkipBlank, AssignableOp;
    AtShift(p, q, b);
    AtShift(p, q, b + 1);
    AtShift(p, q, b + 2);
    if b + 2 <= |q| {
      SkipBlankShift(p, q, b + 2);
      AtShift(p, q, SkipBlank(q, b + 2));
    }
  }

  lemma AtShift(p: string, q: string, i: nat)
    ensures At(p + q, |p| + i) == At(q, i)
  {
  }

  /** What the scanner finds does not depend on the text before. */
  lemma ScanShift(p: string, q: string, i: nat, prev: Prev)
    requires i <= |q|
    ensures Scan(p + q, |p| + i, prev) == Shifted(|p|, Scan(q, i, prev))
  {
    hide SkipBlank, NameEnd, NumberSpan, NumberValue, ScanOperator;
    var s := p + q;
    SkipBlankShift(p, q, i);
    var b := SkipBlank(q, i);
    assert At(s, |p| + b) == At(q, b);
    if b < |q| {
      NameEndShift(p, q, b);
      NumberSpanShift(p, q, b);
      assert s[|p| + b..|p| + NameEnd(q, b)] == q[b..NameEnd(q, b)];
      assert s[|p| + b..|p| + NumberSpan(q, b)] == q[b..NumberSpan(q, b)];
      assert At(s, |p| + NameEnd(q, b)) == At(q, NameEnd(q, b));
      OperatorShift(p, q, b, prev);
    }
  }

  lemma {:induction false} LexShift(p: string, q: string, i: nat, prev: Prev)
    requires i <= |q|
    ensures LexFrom(p + q, |p| + i, prev) == LexFrom(q, i, prev)
    decreases |q| - i
  {
    hide Scan;
    ScanShift(p, q, i, prev);
    var sc := Scan(q, i, prev);
    if !LastToken(sc.token) {
      LexShift(p, q, sc.next, NextPrev(prev, sc.token));
    }
  }

  /** Blanks, tabs and newlines in front are skipped. */
  lemma {:induction false} LexBlanks(b: string, q: string, prev: Prev)
    requires forall i :: 0 <= i < |b| ==> b[i] in {' ', '\t', '\n'}
    ensures LexFrom(b + q, 0, prev) == LexFrom(q, 0, prev)
    decreases |b|
  {
    hide LexFrom;
    if b == "" {
      assert b + q == q;
    } else {
      LexBlank(b[0], b[1..] + q, prev);
      assert b + q == [b[0]] + (b[1..] + q);
      LexBlanks(b[1..], q, prev);
    }
  }

  lemma LexBlank(c: char, q: string, prev: Prev)
    requires c in {' ', '\t', '\n'}
    ensures LexFrom([c] + q, 0, prev) == LexFrom(q, 0, prev)
  {
    hide ScanOperator, NumberValue;
    var s := [c] + q;
    assert SkipBlank(s, 0) == SkipBlank(s, 1);
    assert Scan(s, 0, prev) == Scan(s, 1, prev);
    LexFromScan(s, 0, 1, prev);
    LexShift([c], q, 0, prev);
  }

  lemma LexFromScan(s: string, i: nat, j: nat, prev: Prev)
    requires i <= j <= |s| && Scan(s, i, prev) == Scan(s, j, prev)
    ensures LexFrom(s, i, prev) == LexFrom(s, j, prev)
  {
    hide Scan;
  }

  // ---------------------------------------------------------------- two signs in a row

  lemma {:induction false} BlanksEnd(b: string, q: string, i: nat)
    requires i <= |b| && forall k :: 0 <= k < |b| ==> b[k] in {' ', '\t', '\n'}
    requires q == "" || q[0] !in {' ', '\t', '\n'}
    ensures SkipBlank(b + q, i) == |b|
    decreases |b| - i
  {
    if i < |b| {
      assert (b + q)[i] == b[i];
      BlanksEnd(b, q, i + 1);
    } else if q != "" {
      assert (b + q)[i] == q[0];
    }
  }

  lemma DoubledScan(c: char, t: string, prev: Prev)
    requires c in {'+', '-'}
    ensures var s := [c, c] + t;
            Scan(s, 0, prev) ==
            if prev == AfterName then Scanned(Sym(if c == '+' then PostInc else PostDec), 2)
            else if prev == AfterPreName then Scanned(BadToken(Syntax), 0)
            else if NameStart(At(s, SkipBlank(s, 2))) then Scanned(Sym(if c == '+' then PreInc else PreDec), 2)
            else Scanned(Sym(Bin(if c == '+' then Add else Sub)), 1)
  {
    hide NumberValue, NameStart;
    var s := [c, c] + t;
    assert s[0] == c && At(s, 0) == c && At(s, 1) == c;
    assert !NameStart(c) by {
      SignStarts(c);
    }
  }

  lemma SignStarts(c: char)
    requires c in {'+', '-'}
    ensures !NameStart(c)
  {
  }

  lemma NameBehindBlanks(p: string, b: string, q: string)
    requires forall k :: 0 <= k < |b| ==> b[k] in {' ', '\t', '\n'}
    requires q == "" || q[0] !in {' ', '\t', '\n'}
    ensures var s := p + (b + q);
            NameStart(At(s, SkipBlank(s, |p|))) <==>
            q != "" && (q[0] == '_' || 'a' <= q[0] <= 'z' || 'A' <= q[0] <= 'Z')
  {
    hide SkipBlank;
    BlanksEnd(b, q, 0);
    SkipBlankShift(p, b + q, 0);
    AtShift(p, b + q, |b|);
    AtShift(b, q, 0);
  }

  /** `++` and `--` behind a name step it, unless it has been stepped already, which is an error; in front of a name,
      blanks between or not, they step that one; anywhere else they are two signs. */
  lemma DoubledSigns(c: char, b: string, q: string, prev: Prev)
    requires c in {'+', '-'} && (forall k :: 0 <= k < |b| ==> b[k] in {' ', '\t', '\n'})
    requires q == "" || q[0] !in {' ', '\t', '\n'}
    ensures LexFrom([c, c] + (b + q), 0, prev) ==
            if prev == AfterName then [Sym(if c == '+' then PostInc else PostDec)] + LexFrom(b + q, 0, AfterOther)
            else if prev == AfterPreName then [BadToken(Syntax)]
            else if q != "" && (q[0] == '_' || 'a' <= q[0] <= 'z' || 'A' <= q[0] <= 'Z') then
              [Sym(if c == '+' then PreInc else PreDec)] + LexFrom(b + q, 0, AfterPre)
            else [Sym(Bin(if c == '+' then Add else Sub))] + LexFrom([c] + (b + q), 0, AfterOther)
  {
    hide SkipBlank, Scan, LexFrom, At, NameStart;
    var t := b + q;
    assert [c, c] + t == [c] + ([c] + t);
    DoubledScan(c, t, prev);
    NameBehindBlanks([c, c], b, q);
    LexShift([c, c], t, 0, AfterOther);
    LexShift([c, c], t, 0, AfterPre);
    LexShift([c], [c] + t, 0, AfterOther);
    LexOne([c, c] + t, 0, prev);
  }

  lemma LexOne(s: string, i: nat, prev: Prev)
    requires i <= |s|
    ensures var sc := Scan(s, i, prev);
            LexFrom(s, i, prev) ==
            if LastToken(sc.token) then [sc.token]
            else [sc.token] + LexFrom(s, sc.next, NextPrev(prev, sc.token))
  {
    hide Scan;
  }

  // ---------------------------------------------------------------- spelling one token

  function SpellOp(op: BinOp): string {
    match op
    case BitOr => "|"
    case BitXor => "^"
    case BitAnd => "&"
    case EqEq => "=="
    case NotEq => "!="
    case LessEq => "<="
    case GreaterEq => ">="
    case Less => "<"
    case Greater => ">"
    case ShiftLeft => "<<"
    case ShiftRight => ">>"
    case Add => "+"
    case Sub => "-"
    case Mul => "*"
    case Div => "/"
    case Mod => "%"
  }

  function SpellKind(k: Kind): string {
    match k
    case Bin(op) => SpellOp(op)
    case Eq => "="
    case LogAnd => "&&"
    case LogOr => "||"
    case PowerOp => "**"
    case Quest => "?"
    case Colon => ":"
    case Comma => ","
    case LParen => "("
    case RParen => ")"
    case Not => "!"
    case Compl => "~"
    case PreInc | PostInc => "++"
    case PreDec | PostDec => "--"
    case End | Str | Num | OpAssign | CondMark => ""
  }

  /** A number is spelled in decimal; a negative value needs the digits of the number 2^64 above it. */
  function SpellNumber(v: intmax): string {
    Decimal(if v >= 0 then v else v + TWO64)
  }

  function Spell(t: Token): string {
    match t
    case Name(x) => x
    case Number(v) => SpellNumber(v)
    case OpAsg(op) => SpellOp(op) + "="
    case Sym(k) => SpellKind(k)
    case BadToken(_) => ""
  }

  function SpellAll(ts: seq<Token>): string {
    if ts == [] then "" else Spell(ts[0]) + (" " + SpellAll(ts[1..]))
  }

  /** A token that can be written down after `prev`: a pre-increment stands before a name and not behind
      one, a post-increment right behind a plain name. */
  predicate Writable(prev: Prev, t: Token, rest: seq<Token>) {
    match t
    case Name(x) => IsName(x)
    case Number(_) => true
    case OpAsg(op) => AssignableOp(op)
    case Sym(k) =>
      && k !in {End, Str, Num, OpAssign, CondMark}
      && (IsPre(k) ==> prev !in {AfterName, AfterPreName} && |rest| > 0 && rest[0].Name? && IsName(rest[0].x))
      && (IsPost(k) ==> prev == AfterName)
    case BadToken(_) => false
  }

  predicate AllWritable(prev: Prev, ts: seq<Token>)
    decreases |ts|
  {
    ts == [] || (Writable(prev, ts[0], ts[1..]) && AllWritable(NextPrev(prev, ts[0]), ts[1..]))
  }

  lemma {:induction false} NameEndOfName(x: string, q: string, i: nat)
    requires IsName(x) && i <= |x|
    ensures NameEnd(x + (" " + q), i) == |x|
    decreases |x| - i
  {
    var s := x + (" " + q);
    if i < |x| {
      assert At(s, i) == x[i];
      NameEndOfName(x, q, i + 1);
    } else {
      assert At(s, i) == ' ';
    }
  }

  lemma {:induction false} NumberSpanOfDigits(d: string, q: string, i: nat)
    requires i <= |d| && forall k :: 0 <= k < |d| ==> IsDigit(d[k])
    requires q == "" || q[0] == ' '
    ensures NumberSpan(d + q, i) == |d|
    decreases |d| - i
  {
    var s := d + q;
    if i < |d| {
      assert s[i] == d[i];
      NumberSpanOfDigits(d, q, i + 1);
    }
  }

  lemma {:induction false} PositionalDecimal(n: nat)
    ensures AllDigits(Decimal(n), 10) && Positional(Decimal(n), 10) == n
  {
    var d := Decimal(n);
    forall i | 0 <= i < |d|
      ensures ValidNumChar(d[i]) && DigitOf(d[i], 10) < 10
    {
      assert IsDigit(d[i]);
    }
    if n >= 10 {
      PositionalDecimal(n / 10);
      assert d[..|d| - 1] == Decimal(n / 10);
    } else {
      assert d[..0] == "";
      assert d[0] == DigitChar(n);
    }
  }

  /** A decimal text is read back as its number, modulo 2^64. */
  lemma DecimalValueOf(n: nat)
    ensures NumberValue(Decimal(n)) == Some(Wrap(n))
  {
    var d := Decimal(n);
    assert d + "" == d;
    NumberSpanOfDigits(d, "", 0);
    assert d[..|d|] == d;
    PositionalDecimal(n);
    if n == 0 {
      assert d[1..] == "";
    } else {
      HashFound(d, |d|);
      assert d[0] != '0';
    }
  }

  lemma ScanNumber(d: string, q: string, prev: Prev)
    requires |d| > 0 && forall k :: 0 <= k < |d| ==> IsDigit(d[k])
    requires q == "" || q[0] == ' '
    requires NumberValue(d).Some?
    ensures Scan(d + q, 0, prev) == Scanned(Number(NumberValue(d).value), |d|)
  {
    hide NumberValue, ScanOperator;
    var s := d + q;
    NumberSpanOfDigits(d, q, 0);
    assert At(s, 0) == d[0] && IsDigit(d[0]);
    assert SkipBlank(s, 0) == 0;
    assert s[0..|d|] == d;
  }

  lemma ScanName(x: string, q: string, prev: Prev)
    requires IsName(x)
    ensures Scan(x + (" " + q), 0, prev) == Scanned(Name(x), |x|)
  {
    hide NumberValue, ScanOperator;
    var s := x + (" " + q);
    NameEndOfName(x, q, 0);
    assert At(s, 0) == x[0];
    assert SkipBlank(s, 0) == 0;
    assert s[0..|x|] == x;
    assert At(s, |x|) == ' ';
  }

  /** The spelling of an operator, followed by a blank, is scanned as that operator. */
  lemma ScanSpelledAssign(t: Token, q: string, prev: Prev)
    requires t.OpAsg? && AssignableOp(t.op)
    ensures Scan(Spell(t) + (" " + q), 0, prev) == Scanned(t, |Spell(t)|)
  {
    hide NumberValue, NameEnd, NumberSpan;
    var s := Spell(t) + (" " + q);
    assert At(s, 0) == Spell(t)[0];
    assert |Spell(t)| > 1 ==> At(s, 1) == Spell(t)[1];
    assert |Spell(t)| > 2 ==> At(s, 2) == Spell(t)[2];
    assert At(s, |Spell(t)|) == ' ';
    assert SkipBlank(s, 0) == 0;
  }

  lemma ScanSpelledBinary(t: Token, q: string, prev: Prev)
    requires t.Sym? && t.kind.Bin?
    ensures Scan(Spell(t) + (" " + q), 0, prev) == Scanned(t, |Spell(t)|)
  {
    hide NumberValue, NameEnd, NumberSpan, SkipBlank;
    var s := Spell(t) + (" " + q);
    assert At(s, 0) == Spell(t)[0];
    assert |Spell(t)| > 1 ==> At(s, 1) == Spell(t)[1];
    assert At(s, |Spell(t)|) == ' ';
    NoBlank(s);
  }

  lemma NoBlank(s: string)
    requires !IsBlank(At(s, 0))
    ensures SkipBlank(s, 0) == 0
  {
  }

  lemma ScanSpelledSymbol(t: Token, q: string, prev: Prev)
    requires t.Sym? && !t.kind.Bin? && t.kind !in {End, Str, Num, OpAssign, CondMark} && !IsPre(t.kind)
    requires !IsPost(t.kind)
    ensures Scan(Spell(t) + (" " + q), 0, prev) == Scanned(t, |Spell(t)|)
  {
    hide NumberValue, NameEnd, NumberSpan;
    var s := Spell(t) + (" " + q);
    assert At(s, 0) == Spell(t)[0];
    assert |Spell(t)| > 1 ==> At(s, 1) == Spell(t)[1];
    assert At(s, |Spell(t)|) == ' ';
    assert SkipBlank(s, 0) == 0;
  }

  lemma ScanSpelledOperator(t: Token, q: string, prev: Prev)
    requires
      || (t.OpAsg? && AssignableOp(t.op))
      || (t.Sym? && t.kind !in {End, Str, Num, OpAssign, CondMark} && !IsPre(t.kind) && !IsPost(t.kind))
    ensures Scan(Spell(t) + (" " + q), 0, prev) == Scanned(t, |Spell(t)|)
  {
    if t.OpAsg? {
      ScanSpelledAssign(t, q, prev);
    } else if t.kind.Bin? {
      ScanSpelledBinary(t, q, prev);
    } else {
      ScanSpelledSymbol(t, q, prev);
    }
  }

  lemma ScanSpelledStep(t: Token, rest: seq<Token>, prev: Prev)
    requires t.Sym? && (IsPre(t.kind) || IsPost(t.kind)) && Writable(prev, t, rest)
    ensures Scan(Spell(t) + (" " + SpellAll(rest)), 0, prev) == Scanned(t, 2)
  {
    hide NumberValue, NameEnd, NumberSpan;
    var q := SpellAll(rest);
    var s := Spell(t) + (" " + q);
    assert At(s, 0) == Spell(t)[0] && At(s, 1) == Spell(t)[1] && At(s, 2) == ' ';
    assert SkipBlank(s, 0) == 0;
    if IsPre(t.kind) {
      assert q[0] == rest[0].x[0];
      assert At(s, 3) == q[0];
      assert SkipBlank(s, 2) == 3;
    }
  }

  lemma ScanSpelled(t: Token, rest: seq<Token>, prev: Prev)
    requires Writable(prev, t, rest)
    ensures Scan(Spell(t) + (" " + SpellAll(rest)), 0, prev) == Scanned(t, |Spell(t)|)
  {
    hide Scan, SpellAll, Decimal;
    match t
    case Name(x) => ScanName(x, SpellAll(rest), prev);
    case Number(v) =>
      var n := if v >= 0 then v else v + TWO64;
      DecimalValueOf(n);
      assert Wrap(n) == v;
      ScanNumber(Decimal(n), " " + SpellAll(rest), prev);
    case OpAsg(_) => ScanSpelledOperator(t, SpellAll(rest), prev);
    case Sym(k) =>
      if IsPre(k) || IsPost(k) {
        ScanSpelledStep(t, rest, prev);
      } else {
        ScanSpelledOperator(t, SpellAll(rest), prev);
      }
  }

  lemma OneSpelled(t: Token, q: string, prev: Prev)
    requires Scan(Spell(t) + q, 0, prev) == Scanned(t, |Spell(t)|) && !LastToken(t)
    ensures LexFrom(Spell(t) + q, 0, prev) == [t] + LexFrom(q, 0, NextPrev(prev, t))
  {
    hide Scan, Spell;
    LexShift(Spell(t), q, 0, NextPrev(prev, t));
  }

  lemma NothingSpelled(prev: Prev)
    ensures LexFrom(SpellAll([]), 0, prev) == [Sym(End)]
  {
    assert Scan("", 0, prev) == Scanned(Sym(End), 0);
  }

  lemma WritableGoesOn(prev: Prev, t: Token, rest: seq<Token>)
    requires Writable(prev, t, rest)
    ensures !LastToken(t)
  {
  }

  /** The scanner finds exactly the tokens that were written. */
  lemma {:induction false} LexSpelled(ts: seq<Token>, prev: Prev)
    requires AllWritable(prev, ts)
    ensures LexFrom(SpellAll(ts), 0, prev) == ts + [Sym(End)]
    decreases |ts|
  {
    hide Scan, Spell, LexFrom, Writable;
    if ts == [] {
      NothingSpelled(prev);
    } else {
      var t, rest := ts[0], ts[1..];
      var q := " " + SpellAll(rest);
      ScanSpelled(t, rest, prev);
      WritableGoesOn(prev, t, rest);
      assert SpellAll(ts) == Spell(t) + q;
      OneSpelled(t, q, prev);
      LexBlank(' ', SpellAll(rest), NextPrev(prev, t));
      LexSpelled(rest, NextPrev(prev, t));
      assert ts == [t] + rest;
    }
  }

  // ---------------------------------------------------------------- spelling a tree

  /** `rest` may be written behind any operand. */
  ghost predicate Joinable(rest: seq<Token>) {
    forall p: Prev :: p != AfterPre ==> AllWritable(p, rest)
  }

  /** An infix operator joins two operands. */
  lemma JoinOperator(t: Token, rest: seq<Token>)
    requires
      || (t.OpAsg? && AssignableOp(t.op))
      || (t.Sym? && t.kind !in {End, Str, Num, OpAssign, CondMark} && !IsPre(t.kind) && !IsPost(t.kind))
    requires AllWritable(AfterOther, rest)
    ensures Joinable([t] + rest) && AllWritable(AfterOther, [t] + rest)
  {
    var ts := [t] + rest;
    assert ts[0] == t && ts[1..] == rest;
    forall p: Prev
      ensures AllWritable(p, ts)
    {
      assert NextPrev(p, t) == AfterOther;
    }
  }

  lemma WriteOperand(prev: Prev, t: Token, rest: seq<Token>)
    requires Writable(prev, t, rest) && AllWritable(NextPrev(prev, t), rest)
    ensures AllWritable(prev, [t] + rest)
  {
    var ts := [t] + rest;
    assert ts[0] == t && ts[1..] == rest;
  }

  /** The tokens of a tree can be written down. */
  lemma {:induction false} TreeWritable(e: Expr, rest: seq<Token>)
    requires WellFormed(e) && Joinable(rest)
    ensures AllWritable(AfterOther, TokensOf(e) + rest)
    decreases e
  {
    hide Writable, Joinable, AllWritable;
    match e
    case Lit(_) | Var(_) | PreStep(_, _) | PostStep(_, _) => AtomWritable(e, rest);
    case Paren(_) => ParenWritable(e, rest);
    case Unary(_, _) => UnaryWritable(e, rest);
    case Pow(l, r) => InfixWritable(e, l, Sym(PowerOp), r, rest);
    case Binary(op, l, r) => InfixWritable(e, l, Sym(Bin(op)), r, rest);
    case And(l, r) => InfixWritable(e, l, Sym(LogAnd), r, rest);
    case Or(l, r) => InfixWritable(e, l, Sym(LogOr), r, rest);
    case Sequence(l, r) => InfixWritable(e, l, Sym(Comma), r, rest);
    case Conditional(_, _, _) => ConditionalWritable(e, rest);
    case Assign(_, _, _) => AssignWritable(e, rest);
    case Remainder(_, _, _, _) => RemainderWritable(e, rest);
  }

  lemma ParenWritable(e: Expr, rest: seq<Token>)
    requires e.Paren? && WellFormed(e) && Joinable(rest)
    ensures AllWritable(AfterOther, TokensOf(e) + rest)
    decreases e, 0
  {
    hide Writable, Joinable, AllWritable;
    var inner := e.inner;
    JoinAny(rest);
    JoinOperator(Sym(RParen), rest);
    TreeWritable(inner, [Sym(RParen)] + rest);
    JoinOperator(Sym(LParen), TokensOf(inner) + ([Sym(RParen)] + rest));
    assert TokensOf(e) + rest == [Sym(LParen)] + (TokensOf(inner) + ([Sym(RParen)] + rest));
  }

  lemma UnaryWritable(e: Expr, rest: seq<Token>)
    requires e.Unary? && WellFormed(e) && Joinable(rest)
    ensures AllWritable(AfterOther, TokensOf(e) + rest)
    decreases e, 0
  {
    hide Writable, Joinable, AllWritable;
    var op, operand := e.uop, e.operand;
    TreeWritable(operand, rest);
    JoinOperator(Sym(UnaryKind(op)), TokensOf(operand) + rest);
    assert TokensOf(e) + rest == [Sym(UnaryKind(op))] + (TokensOf(operand) + rest);
  }

  lemma ConditionalWritable(e: Expr, rest: seq<Token>)
    requires e.Conditional? && WellFormed(e) && Joinable(rest)
    ensures AllWritable(AfterOther, TokensOf(e) + rest)
    decreases e, 0
  {
    var c, y, n := e.test, e.yes, e.no;
    assert TokensOf(e) == TokensOf(c) + [Sym(Quest)] + TokensOf(y) + [Sym(Colon)] + TokensOf(n);
    assert WellFormed(c) && WellFormed(y) && WellFormed(n);
    hide Writable, Joinable, AllWritable, TokensOf, WellFormed;
    var rest' := [Sym(Colon)] + (TokensOf(n) + rest);
    TreeWritable(n, rest);
    JoinOperator(Sym(Colon), TokensOf(n) + rest);
    TreeWritable(y, rest');
    JoinOperator(Sym(Quest), TokensOf(y) + rest');
    TreeWritable(c, [Sym(Quest)] + (TokensOf(y) + rest'));
    Associate3(TokensOf(c) + [Sym(Quest)] + TokensOf(y), [Sym(Colon)], TokensOf(n), rest);
    Associate3(TokensOf(c), [Sym(Quest)], TokensOf(y), rest');
  }

  lemma AssignWritable(e: Expr, rest: seq<Token>)
    requires e.Assign? && WellFormed(e) && Joinable(rest)
    ensures AllWritable(AfterOther, TokensOf(e) + rest)
    decreases e, 0
  {
    var x, r := e.target, e.rhs;
    var t := if e.aop.Some? then OpAsg(e.aop.value) else Sym(Eq);
    assert TokensOf(e) + rest == [Name(x)] + ([t] + (TokensOf(r) + rest));
    assert WellFormed(r);
    hide Writable, Joinable, AllWritable, TokensOf, WellFormed;
    TreeWritable(r, rest);
    JoinOperator(t, TokensOf(r) + rest);
    TargetWritable(x, [t] + (TokensOf(r) + rest));
  }

  lemma RemainderWritable(e: Expr, rest: seq<Token>)
    requires e.Remainder? && WellFormed(e) && Joinable(rest)
    ensures AllWritable(AfterOther, TokensOf(e) + rest)
    decreases e, 0
  {
    var l, x, op, r := e.dividend, e.target, e.rop, e.rhs;
    var named := [Name(x)] + ([OpAsg(op)] + (TokensOf(r) + rest));
    assert TokensOf(e) + rest == TokensOf(l) + ([Sym(Bin(Mod))] + named);
    assert WellFormed(l) && WellFormed(r);
    hide Writable, Joinable, AllWritable, TokensOf, WellFormed;
    TreeWritable(r, rest);
    JoinOperator(OpAsg(op), TokensOf(r) + rest);
    TargetWritable(x, [OpAsg(op)] + (TokensOf(r) + rest));
    JoinOperator(Sym(Bin(Mod)), named);
    TreeWritable(l, [Sym(Bin(Mod))] + named);
  }

  lemma JoinAny(rest: seq<Token>)
    requires Joinable(rest)
    ensures AllWritable(AfterOther, rest) && AllWritable(AfterName, rest) && AllWritable(AfterPreName, rest)
  {
  }

  lemma TargetWritable(x: string, rest: seq<Token>)
    requires IsName(x) && Joinable(rest)
    ensures AllWritable(AfterOther, [Name(x)] + rest)
  {
    JoinAny(rest);
    WriteOperand(AfterOther, Name(x), rest);
  }

  lemma AtomWritable(e: Expr, rest: seq<Token>)
    requires e.Lit? || e.Var? || e.PreStep? || e.PostStep?
    requires WellFormed(e) && Joinable(rest)
    ensures AllWritable(AfterOther, TokensOf(e) + rest)
  {
    hide AllWritable;
    JoinAny(rest);
    match e
    case Lit(v) => WriteOperand(AfterOther, Number(v), rest);
    case Var(x) => TargetWritable(x, rest);
    case PreStep(up, x) =>
      var t := Sym(if up then PreInc else PreDec);
      WriteOperand(AfterPre, Name(x), rest);
      WriteOperand(AfterOther, t, [Name(x)] + rest);
      assert TokensOf(e) + rest == [t] + ([Name(x)] + rest);
    case PostStep(up, x) =>
      var t := Sym(if up then PostInc else PostDec);
      WriteOperand(AfterName, t, rest);
      WriteOperand(AfterOther, Name(x), [t] + rest);
      assert TokensOf(e) + rest == [Name(x)] + ([t] + rest);
  }

  lemma InfixWritable(e: Expr, l: Expr, t: Token, r: Expr, rest: seq<Token>)
    requires WellFormed(l) && WellFormed(r) && l < e && r < e && Joinable(rest)
    requires t.Sym? && t.kind !in {End, Str, Num, OpAssign, CondMark} && !IsPre(t.kind) && !IsPost(t.kind)
    requires TokensOf(e) == TokensOf(l) + [t] + TokensOf(r)
    ensures AllWritable(AfterOther, TokensOf(e) + rest)
    decreases e, 0
  {
    hide Writable, Joinable, AllWritable, TokensOf, WellFormed;
    TreeWritable(r, rest);
    JoinOperator(t, TokensOf(r) + rest);
    TreeWritable(l, [t] + (TokensOf(r) + rest));
    Associate3(TokensOf(l), [t], TokensOf(r), rest);
  }

  /** The text of a tree: its tokens, each followed by a blank. */
  function TextOf(e: Expr): string {
    SpellAll(TokensOf(e))
  }

  /** Every precedence tree is the tree of its text. */
  lemma {:induction false} TreeOfItsText(e: Expr)
    requires WellFormed(e)
    ensures IsTreeOf(e, TextOf(e))
  {
    hide LexFrom, TokensOf, WellFormed, SpellAll;
    assert Joinable([]);
    TreeWritable(e, []);
    assert TokensOf(e) + [] == TokensOf(e);
    LexSpelled(TokensOf(e), AfterOther);
  }
}
