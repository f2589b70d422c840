/** How the evaluator's token state follows the tokens of the text: reading one token, peeking behind a name. */
module Reading {
  import opened Options
  import opened Tokens
  import opened Trees
  import opened Machine

  function KindOf(t: Token): Kind {
    match t
    case Name(_) => Str
    case Number(_) => Num
    case OpAsg(_) => OpAssign
    case Sym(k) => k
    case BadToken(_) => End
  }

  /** A token that carries no variable and no number, such as every token that may follow an operand. */
  predicate Operator(t: Token) {
    t.Sym? || t.OpAsg?
  }

  /** The tokens the scanner will find from here on. */
  function Unread(m: State): seq<Token>
    requires Valid(m)
  {
    LexFrom(m.text, m.tp, ScanPrev(m.cur, m.last))
  }

  /** Between tokens: the next readtok finds `ts`. */
  predicate Ready(m: State, ts: seq<Token>) {
    Valid(m) && !IsPre(m.cur) && !IsPre(m.last) && Unread(m) == ts
  }

  predicate Head(m: State, t: Token) {
    match t
    case Name(_) => m.cur == Str
    case Number(v) => m.cur == Num && m.tokval == v
    case OpAsg(op) => m.cur == OpAssign && m.assignTok == op
    case Sym(k) => m.cur == k && k !in {Str, Num, OpAssign}
    case BadToken(_) => false
  }

  /** On a token: the current token is the first of `ts`, the scanner will find the others. */
  predicate Ahead(m: State, ts: seq<Token>) {
    && Valid(m) && !IsPre(m.last) && |ts| > 0 && Head(m, ts[0])
    && if ts[0] == Sym(End) then |ts| == 1 else Unread(m) == ts[1..]
  }

  lemma LexUnfold(s: string, i: nat, prev: Prev)
    requires i <= |s|
    ensures var ts := LexFrom(s, i, prev);
            var sc := Scan(s, i, prev);
            ts[0] == sc.token
            && ts[1..] == if LastToken(sc.token) then [] else LexFrom(s, sc.next, NextPrev(prev, sc.token))
  {
  }

  lemma AheadReady(m: State, ts: seq<Token>)
    requires Ahead(m, ts) && ts[0] != Sym(End) && !IsPre(m.cur)
    ensures Ready(m, ts[1..])
  {
  }

  /** Nor do the variables and the last name matter to the tokens ahead. */
  lemma AheadUnnamed(m: State, m': State, ts: seq<Token>)
    requires Ahead(m, ts) && m' == m.(tokstr := m'.tokstr, store := m'.store)
    ensures Ahead(m', ts)
  {
    hide LexFrom;
  }

  /** lasttok is not looked at while the current token is an operator. */
  lemma AheadOperator(m: State, last: Kind, ts: seq<Token>)
    requires Ahead(m, ts) && Operator(ts[0]) && !IsPre(last)
    ensures Ahead(m.(last := last), ts)
  {
  }

  lemma ReadKind(m: State)
    requires Valid(m)
    ensures ReadTok(m).Ok? ==> ReadTok(m).m.cur == KindOf(Scan(m.text, m.tp, ScanPrev(m.cur, m.last)).token)
  {
  }

  /** Reading an operator or a number changes nothing but the token state. */
  lemma ReadPlain(m: State)
    requires Valid(m) && !Unread(m)[0].Name? && !Unread(m)[0].BadToken?
    ensures ReadTok(m).Ok?
    ensures var m' := ReadTok(m).m;
            && Head(m', Unread(m)[0]) && m'.last == m.cur
            && m' == m.(tp := m'.tp, cur := m'.cur, last := m'.last, assignTok := m'.assignTok, tokval := m'.tokval)
            && (Unread(m)[0] == Sym(End) ==> |Unread(m)| == 1)
            && (Unread(m)[0] != Sym(End) ==>
                  LexFrom(m.text, m'.tp, NextPrev(ScanPrev(m.cur, m.last), Unread(m)[0])) == Unread(m)[1..])
  {
    LexUnfold(m.text, m.tp, ScanPrev(m.cur, m.last));
  }

  /** From between tokens to on a token. */
  lemma ReadReady(m: State, ts: seq<Token>)
    requires Ready(m, ts) && !ts[0].Name? && !ts[0].BadToken?
    ensures ReadTok(m).Ok? && Ahead(ReadTok(m).m, ts)
    ensures var m' := ReadTok(m).m;
            m' == m.(tp := m'.tp, cur := m'.cur, last := m.cur, assignTok := m'.assignTok, tokval := m'.tokval)
  {
    ReadPlain(m);
  }

  /** What stands before only decides between increment and error, so a token that is not an error
      after an incremented name is the same token after a plain one. */
  lemma ScanAfterName(s: string, i: nat)
    requires i <= |s|
    requires !Scan(s, i, AfterPreName).token.BadToken?
    ensures Scan(s, i, AfterName) == Scan(s, i, AfterPreName)
  {
  }

  /** The peek behind a name finds the token that follows it. */
  lemma Peek(m: State, next: nat)
    requires next <= |m.text| && m.depth <= MAX_DEPTH
    requires IsPre(m.last) ==> Operator(LexFrom(m.text, next, AfterPreName)[0])
    requires !IsPre(m.last) ==> Operator(LexFrom(m.text, next, AfterName)[0])
    ensures var after := if IsPre(m.last) then AfterPreName else AfterName;
            var p := m.(tp := next, cur := Str, noeval := 1, tokstr := None);
            ReadTok(p).Ok? && ReadTok(p).m.cur == KindOf(LexFrom(m.text, next, after)[0])
  {
    var after := if IsPre(m.last) then AfterPreName else AfterName;
    LexUnfold(m.text, next, after);
    LexUnfold(m.text, next, AfterName);
    if IsPre(m.last) {
      ScanAfterName(m.text, next);
    }
    ReadPlain(m.(tp := next, cur := Str, noeval := 1, tokstr := None));
  }
}
