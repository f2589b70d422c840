/** What the evaluator accepts has a precedence tree: whenever a level returns normally, the tokens it
    consumed are the tokens of a well-formed tree of that level. */
module Acceptance {
  import opened Integers
  import opened Numbers
  import opened Options
  import opened Tokens
  import opened Trees
  import opened Exponent
  import opened Machine
  import opened Reading
  import opened Levels

  // ---------------------------------------------------------------- tokens

  lemma ScannedName(s: string, i: nat, prev: Prev)
    requires i <= |s| && Scan(s, i, prev).token.Name?
    ensures IsName(Scan(s, i, prev).token.x)
  {
    hide ScanOperator, NumberValue;
  }

  lemma ScannedAssign(s: string, i: nat, prev: Prev)
    requires i <= |s| && Scan(s, i, prev).token.OpAsg?
    ensures AssignableOp(Scan(s, i, prev).token.op)
  {
    hide NumberValue, SkipBlank, NameEnd;
  }

  /** Every name and every `op=` among the tokens is one that trees can hold. */
  predicate Sound(ts: seq<Token>) {
    forall i :: 0 <= i < |ts| ==> (ts[i].Name? ==> IsName(ts[i].x)) && (ts[i].OpAsg? ==> AssignableOp(ts[i].op))
  }

  lemma {:induction false} LexSound(s: string, i: nat, prev: Prev)
    requires i <= |s|
    ensures Sound(LexFrom(s, i, prev))
    decreases |s| - i
  {
    hide Scan, IsName, AssignableOp;
    var sc := Scan(s, i, prev);
    if sc.token.Name? {
      ScannedName(s, i, prev);
    } else if sc.token.OpAsg? {
      ScannedAssign(s, i, prev);
    }
    if !LastToken(sc.token) {
      LexSound(s, sc.next, NextPrev(prev, sc.token));
    }
  }

  lemma SoundSuffix(a: seq<Token>, b: seq<Token>)
    requires Sound(a + b)
    ensures Sound(b)
  {
    hide IsName, AssignableOp;
    forall i | 0 <= i < |b|
      ensures (b[i].Name? ==> IsName(b[i].x)) && (b[i].OpAsg? ==> AssignableOp(b[i].op))
    {
      assert (a + b)[|a| + i] == b[i];
    }
  }

  /** Reading a token that is not an error moves on to it, whatever it is. */
  lemma ReadAny(m: State, ts: seq<Token>)
    requires Valid(m) && !IsPre(m.cur) && Unread(m) == ts && ReadTok(m).Ok?
    ensures Ahead(ReadTok(m).m, ts)
    ensures ReadTok(m).m.last == m.cur
    ensures Operator(ts[0]) ==> ReadTok(m).m.tokstr == m.tokstr
    ensures ts[0].Name? ==> ReadTok(m).m.tokstr == Some(ts[0].x)
    ensures ts[0].Name? && |ts| > 1 && ts[1] == Sym(Eq) && !IsPre(m.last) ==> ReadTok(m).m.tokval == 0
  {
    hide ReadTok, Scan;
    LexUnfold(m.text, m.tp, ScanPrev(m.cur, m.last));
    var sc := Scan(m.text, m.tp, ScanPrev(m.cur, m.last));
    if sc.token.Name? {
      ReadNameUnfold(m, sc.token.x);
      if |ts| > 1 && ts[1] == Sym(Eq) && !IsPre(m.last) {
        assert ts[1..][0] == Sym(Eq);
        Peek(m, sc.next);
      }
    } else if sc.token.BadToken? {
      ReadBad(m);
    } else {
      ReadPlain(m);
    }
  }

  lemma ReadBad(m: State)
    requires Valid(m) && Scan(m.text, m.tp, ScanPrev(m.cur, m.last)).token.BadToken?
    ensures ReadTok(m).Err?
  {
    hide Scan;
  }

  // ---------------------------------------------------------------- what a level leaves behind

  /** tokstr still shows the name: of a lone name, or behind the `%` of INTMAX_MIN % -1 if no plain `=` follows. */
  predicate ShowsName(e: Expr, m: State) {
    || (e.Var? && m.tokstr == Some(e.x))
    || (m.cur == OpAssign && e.Binary? && e.op == Mod && e.right.Var? && m.tokstr == Some(e.right.x))
  }

  /** After a level: an assignment follows only a name still shown, a name before `=` was not read, and no loop
      of the level is left to run. */
  predicate Done(k: nat, e: Expr, v: intmax, m: State) {
    && (k <= 1 ==> !AssignNext(m))
    && (k >= 2 && m.cur == Eq && m.last == Str ==> v == 0)
    && (k >= 2 && AssignNext(m) && m.last == Str ==> ShowsName(e, m))
    && (k == 13 ==> m.cur != PowerOp)
  }

  /** `r` ends behind the tokens of `e`. */
  predicate Accepted(k: nat, e: Expr, r: Result, ts: seq<Token>, rest: seq<Token>) {
    && r.Ok? && WellFormed(e) && Level(e) >= k && ts == TokensOf(e) + rest
    && Ahead(r.m, rest) && Done(k, e, r.v, r.m)
  }

  /** Between tokens with `ts` to come. */
  ghost predicate Before(m: State, ts: seq<Token>) {
    Valid(m) && !IsPre(m.cur) && !IsPre(m.last) && Unread(m) == ts && Sound(ts)
  }

  lemma Rest(m: State, a: seq<Token>, ts: seq<Token>, t: Token)
    requires Ahead(m, ts) && Sound(a + ts) && Head(m, t) && t != Sym(End) && !IsPre(KindOf(t))
    ensures Before(m, ts[1..])
    ensures ts == [ts[0]] + ts[1..]
    ensures t.Sym? ==> ts[0] == t
  {
    hide LexFrom, Sound, ScanPrev;
    SoundSuffix(a, ts);
    assert ts == [ts[0]] + ts[1..];
    SoundSuffix([ts[0]], ts[1..]);
  }

  // ---------------------------------------------------------------- levels

  /** Whenever a level returns normally it has consumed exactly the tokens of a tree of that level. */
  lemma {:induction false} AcceptRun(k: nat, m: State, ts: seq<Token>) returns (e: Expr, rest: seq<Token>)
    requires k <= 15 && Before(m, ts) && Run(k, m).Ok?
    ensures Accepted(k, e, Run(k, m), ts, rest)
    decreases |ts|, 2, 31 - 2 * k
  {
    hide ReadTok, LexFrom, Sound, TokensOf, WellFormed, Ahead, Exp;
    if LeftLevel(k) {
      RunLoop(k, m);
      var e1, rest1 := AcceptRun(k + 1, m, ts);
      var l := Run(k + 1, m);
      TokensShorter(e1, rest1, ts);
      Loosen(k, e1, l.v, l.m);
      e, rest := AcceptLoop(k, e1, l.v, l.m, rest1);
    } else if k == 1 {
      e, rest := AcceptAssign(m, ts);
    } else if k == 2 {
      e, rest := AcceptCond(m, ts);
    } else if k == 13 {
      e, rest := AcceptPower(m, ts);
    } else if k == 14 {
      e, rest := AcceptUnary(m, ts);
    } else {
      e, rest := AcceptOperand(m, ts);
    }
  }

  lemma TokensShorter(e: Expr, rest: seq<Token>, ts: seq<Token>)
    requires ts == TokensOf(e) + rest
    ensures |rest| < |ts|
  {
  }

  lemma Loosen(k: nat, e: Expr, v: intmax, m: State)
    requires LeftLevel(k) && Done(k + 1, e, v, m)
    ensures Done(k, e, v, m)
  {
  }

  function MakeLeft(k: nat, t: Token, l: Expr, r: Expr): (e: Expr)
    requires LeftLevel(k) && (k >= 5 ==> t.Sym? && t.kind.Bin? && 5 + OpLevel(t.kind.op) == k)
    ensures Level(e) == k
  {
    hide OpLevel;
    if k == 0 then Sequence(l, r)
    else if k == 3 then Or(l, r)
    else if k == 4 then And(l, r)
    else Binary(t.kind.op, l, r)
  }

  /** The token that keeps the loop of a level going. */
  predicate InLevel(k: nat, cur: Kind)
    requires LeftLevel(k)
  {
    match k
    case 0 => cur == Comma
    case 3 => cur == LogOr
    case 4 => cur == LogAnd
    case _ => cur.Bin? && OpLevel(cur.op) == k - 5
  }

  lemma LoopExits(k: nat, v: intmax, m: State)
    requires LeftLevel(k) && Valid(m) && !InLevel(k, m.cur)
    ensures Loop(k, Ok(v, m)) == Ok(v, m)
  {
    hide ReadTok, ExpAssign, ExpLand, ExpBinary, Operand;
  }

  /** The tree so far is extended by one operator and operand for each turn of the loop. */
  lemma {:induction false} AcceptLoop(k: nat, e0: Expr, v: intmax, m: State, ts: seq<Token>)
    returns (e: Expr, rest: seq<Token>)
    requires LeftLevel(k) && WellFormed(e0) && Level(e0) >= k && Done(k, e0, v, m)
    requires Ahead(m, ts) && Sound(TokensOf(e0) + ts)
    requires Loop(k, Ok(v, m)).Ok?
    ensures Accepted(k, e, Loop(k, Ok(v, m)), TokensOf(e0) + ts, rest)
    decreases |ts|, 3
  {
    hide ReadTok, LexFrom, Sound, TokensOf, WellFormed, Run, Loop, Turn, Before;
    if !InLevel(k, m.cur) {
      LoopExits(k, v, m);
      return e0, ts;
    }
    var t := ts[0];
    TurnHead(k, m, ts);
    var dummy := MakeLeft(k, t, e0, Lit(0));
    LoopTurn(dummy, v, m);
    Rest(m, TokensOf(e0), ts, t);
    var turn := Turn(dummy, v, m);
    TurnOk(k, dummy, v, m);
    var m1 := Suppress(m, Suppresses(dummy, v));
    SuppressedBefore(m, Suppresses(dummy, v), ts[1..]);
    var r, rest1 := AcceptRun(k + 1, m1, ts[1..]);
    var e1 := MakeLeft(k, t, e0, r);
    TurnAccepted(k, e0, r, v, m, ts, rest1);
    Extend(k, t, e0, r, ts, rest1);
    TokensShorter(r, rest1, ts[1..]);
    e, rest := AcceptLoop(k, e1, turn.v, turn.m, rest1);
  }

  lemma TurnHead(k: nat, m: State, ts: seq<Token>)
    requires LeftLevel(k) && Ahead(m, ts) && InLevel(k, m.cur)
    ensures ts[0] == Sym(m.cur)
    ensures OperatorToken(MakeLeft(k, ts[0], Lit(0), Lit(0))) == ts[0]
    ensures forall l, r :: OperatorToken(MakeLeft(k, ts[0], l, r)) == ts[0] && Level(MakeLeft(k, ts[0], l, r)) == k
    ensures Head(m, ts[0]) && !IsPre(m.cur) && ts[0] != Sym(End)
  {
    hide LexFrom;
  }

  lemma SuppressedBefore(m: State, stop: bool, ts: seq<Token>)
    requires Before(m, ts)
    ensures Before(Suppress(m, stop), ts)
  {
    hide LexFrom;
  }

  lemma TurnOk(k: nat, e: Expr, v: intmax, m: State)
    requires LeftLevel(Level(e)) && Level(e) == k && Valid(m) && Loop(k, Turn(e, v, m)).Ok?
    ensures Turn(e, v, m).Ok? && Run(k + 1, Suppress(m, Suppresses(e, v))).Ok?
  {
    hide Run, Compute, BinaryLoop, CommaLoop, LorLoop, LandLoop;
  }

  lemma MadeLeft(k: nat, t: Token, l: Expr, r: Expr)
    requires LeftLevel(k) && (k >= 5 ==> t.Sym? && t.kind.Bin? && 5 + OpLevel(t.kind.op) == k)
    ensures var e := MakeLeft(k, t, l, r); LeftOf(e) == l && RightOf(e) == r
  {
    hide OpLevel, Level;
  }

  lemma Extend(k: nat, t: Token, l: Expr, r: Expr, ts: seq<Token>, rest: seq<Token>)
    requires LeftLevel(k) && (k >= 5 ==> t.Sym? && t.kind.Bin? && 5 + OpLevel(t.kind.op) == k)
    requires OperatorToken(MakeLeft(k, t, l, r)) == t
    requires WellFormed(l) && Level(l) >= k && WellFormed(r) && Level(r) >= k + 1
    requires |ts| > 0 && ts[0] == t && ts[1..] == TokensOf(r) + rest
    ensures WellFormed(MakeLeft(k, t, l, r)) && Level(MakeLeft(k, t, l, r)) == k
    ensures TokensOf(MakeLeft(k, t, l, r)) + rest == TokensOf(l) + ts
  {
    hide TokensOf, WellFormed, MakeLeft, OperatorToken, LeftOf, RightOf;
    MadeLeft(k, t, l, r);
    LeftParts(MakeLeft(k, t, l, r));
    assert ts == [t] + (TokensOf(r) + rest);
    Associate3(TokensOf(l), [t], TokensOf(r), rest);
  }

  /** lasttok and the suppression counter do not change where the evaluator stands. */
  lemma AheadAnyway(m: State, m': State, ts: seq<Token>)
    requires Ahead(m, ts) && !IsPre(m'.last)
    requires m' == m.(last := m'.last, noeval := m'.noeval)
    ensures Ahead(m', ts)
  {
    hide LexFrom;
  }

  /** What a turn changes behind the right operand. */
  lemma TurnState(e: Expr, v: intmax, m: State)
    requires Valid(m) && LeftLevel(Level(e)) && Turn(e, v, m).Ok?
    ensures var r2 := Run(Level(e) + 1, Suppress(m, Suppresses(e, v)));
            var t := Turn(e, v, m);
            && r2.Ok? && t.m == r2.m.(last := t.m.last, noeval := t.m.noeval)
            && (t.m.last == r2.m.last || !IsPre(t.m.last))
            && (t.m.last == Str && !e.Sequence? ==> t.m.last == r2.m.last && e.Binary? && e.op == Mod && r2.v == -1)
  {
    hide Run, Compute;
  }

  /** After a turn the evaluator stands behind the right operand; only a remainder can still show its name. */
  lemma TurnAccepted(k: nat, l: Expr, r: Expr, v: intmax, m: State, ts: seq<Token>, rest: seq<Token>)
    requires LeftLevel(k) && Ahead(m, ts) && InLevel(k, m.cur) && Sound(TokensOf(l) + ts)
    requires var e := MakeLeft(k, Sym(m.cur), l, Lit(0));
             Turn(e, v, m).Ok? && Accepted(k + 1, r, Run(k + 1, Suppress(m, Suppresses(e, v))), ts[1..], rest)
    ensures var turn := Turn(MakeLeft(k, Sym(m.cur), l, Lit(0)), v, m);
            Ahead(turn.m, rest) && Done(k, MakeLeft(k, Sym(m.cur), l, r), turn.v, turn.m)
  {
    hide LexFrom, Run, Sound, Turn, WellFormed, Ahead;
    AheadLast(m, ts);
    var e := MakeLeft(k, Sym(m.cur), l, Lit(0));
    var r2 := Run(k + 1, Suppress(m, Suppresses(e, v)));
    AheadLast(r2.m, rest);
    TurnState(e, v, m);
    var turn := Turn(e, v, m);
    AheadAnyway(r2.m, turn.m, rest);
    if k > 0 && AssignNext(turn.m) && turn.m.last == Str {
      assert r2.m.cur == OpAssign;
      assert r.Var?;
    }
  }

  lemma AheadLast(m: State, ts: seq<Token>)
    requires Ahead(m, ts)
    ensures Valid(m) && !IsPre(m.last) && |ts| > 0 && (InLevelAny(m.cur) ==> ts[0] == Sym(m.cur))
  {
    hide LexFrom;
  }

  predicate InLevelAny(k: Kind) {
    k == Comma || k == LogOr || k == LogAnd || k.Bin?
  }

  // ---------------------------------------------------------------- assignment

  lemma AssignTailState(v: intmax, m: State)
    requires Valid(m) && AssignTail(v, m).Ok?
    ensures Run(1, m).Ok?
    ensures AssignTail(v, m).m == Run(1, m).m.(tokstr := None, store := AssignTail(v, m).m.store)
  {
    hide Run, BinStep;
  }

  lemma {:induction false} AcceptAssign(m: State, ts: seq<Token>) returns (e: Expr, rest: seq<Token>)
    requires Before(m, ts) && Run(1, m).Ok?
    ensures Accepted(1, e, Run(1, m), ts, rest)
    decreases |ts|, 2, 28
  {
    hide ReadTok, LexFrom, Sound, TokensOf, WellFormed, Run, Ahead, AssignTail, Level;
    RunAssignUnfold(m);
    var e1, rest1 := AcceptRun(2, m, ts);
    var c := Run(2, m);
    AheadLast(c.m, rest1);
    if !AssignNext(c.m) {
      LevelDown(e1);
      return e1, rest1;
    }
    TokensShorter(e1, rest1, ts);
    AssignHead(c.m, rest1);
    Rest(c.m, TokensOf(e1), rest1, rest1[0]);
    AssignTailState(c.v, c.m);
    var r, rest2 := AcceptRun(1, c.m, rest1[1..]);
    AheadUnnamed(Run(1, c.m).m, AssignTail(c.v, c.m).m, rest2);
    SoundSuffix(TokensOf(e1), rest1);
    rest := rest2;
    if e1.Var? {
      AssignTree(e1.x, r, ts, rest1, rest2);
      e := Assign(e1.x, if rest1[0].OpAsg? then Some(rest1[0].op) else None, r);
    } else {
      RemainderTree(e1, r, ts, rest1, rest2);
      e := Remainder(e1.left, e1.right.x, rest1[0].op, r);
    }
  }

  lemma LevelDown(e: Expr)
    ensures Level(e) >= 2 ==> Level(e) >= 1
  {
  }

  lemma AssignHead(m: State, ts: seq<Token>)
    requires Ahead(m, ts) && AssignNext(m)
    ensures ts[0] == Sym(Eq) || ts[0].OpAsg?
    ensures Head(m, ts[0]) && ts[0] != Sym(End) && !IsPre(KindOf(ts[0]))
  {
    hide LexFrom;
  }

  lemma AssignTree(x: string, r: Expr, ts: seq<Token>, rest1: seq<Token>, rest2: seq<Token>)
    requires ts == TokensOf(Var(x)) + rest1 && WellFormed(Var(x)) && WellFormed(r) && Level(r) >= 1
    requires |rest1| > 0 && (rest1[0] == Sym(Eq) || rest1[0].OpAsg?) && rest1[1..] == TokensOf(r) + rest2
    requires Sound(rest1)
    ensures var e := Assign(x, if rest1[0].OpAsg? then Some(rest1[0].op) else None, r);
            WellFormed(e) && Level(e) >= 1 && ts == TokensOf(e) + rest2
  {
    hide AssignableOp, IsName;
    var e := Assign(x, if rest1[0].OpAsg? then Some(rest1[0].op) else None, r);
    assert rest1 == [rest1[0]] + rest1[1..];
    assert TokensOf(e) == [Name(x), rest1[0]] + TokensOf(r);
  }

  lemma RemainderTree(e1: Expr, r: Expr, ts: seq<Token>, rest1: seq<Token>, rest2: seq<Token>)
    requires e1.Binary? && e1.op == Mod && e1.right.Var? && WellFormed(e1) && WellFormed(r) && Level(r) >= 1
    requires ts == TokensOf(e1) + rest1 && |rest1| > 0 && rest1[0].OpAsg? && rest1[1..] == TokensOf(r) + rest2
    requires Sound(rest1)
    ensures var e := Remainder(e1.left, e1.right.x, rest1[0].op, r);
            WellFormed(e) && Level(e) >= 1 && ts == TokensOf(e) + rest2
  {
    hide AssignableOp, IsName;
    var l, x, t := e1.left, e1.right.x, rest1[0];
    var a, mod, name := TokensOf(l), [Sym(Bin(Mod))], [Name(x)];
    assert WellFormed(l) && IsName(x) && AssignableOp(t.op);
    assert TokensOf(e1) == a + mod + name;
    assert TokensOf(Remainder(l, x, t.op, r)) == a + [Sym(Bin(Mod)), Name(x), t] + TokensOf(r);
    hide TokensOf;
    assert rest1 == [t] + (TokensOf(r) + rest2);
    assert [Sym(Bin(Mod)), Name(x), t] == mod + name + [t];
    Associate3(a, mod + name + [t], TokensOf(r), rest2);
    Associate3(mod, name, [t], TokensOf(r) + rest2);
    Associate3(a, mod, name, rest1);
  }

  // ---------------------------------------------------------------- the conditional

  lemma {:induction false} AcceptCond(m: State, ts: seq<Token>) returns (e: Expr, rest: seq<Token>)
    requires Before(m, ts) && Run(2, m).Ok?
    ensures Accepted(2, e, Run(2, m), ts, rest)
    decreases |ts|, 2, 26
  {
    hide ReadTok, LexFrom, Sound, TokensOf, WellFormed, Run, Ahead, CondTail, CondStep, Level;
    RunCondUnfold(m);
    var c, rest1 := AcceptRun(3, m, ts);
    var t := Run(3, m);
    AheadLast(t.m, rest1);
    if t.m.cur != Quest {
      LevelDown3(c);
      return c, rest1;
    }
    TokensShorter(c, rest1, ts);
    QuestHead(t.m, rest1);
    Rest(t.m, TokensOf(c), rest1, Sym(Quest));
    var y, n, rest2, rest3 := AcceptBranches(t.v, t.m, rest1[1..]);
    CondTree(c, y, n, ts, rest1, rest2, rest3);
    e, rest := Conditional(c, y, n), rest3;
  }

  /** Both branches have trees, whichever is taken. */
  lemma {:induction false} AcceptBranches(v: intmax, m: State, ts: seq<Token>)
      returns (y: Expr, n: Expr, rest2: seq<Token>, rest3: seq<Token>)
    requires Before(m, ts) && m.cur == Quest && CondTail(v, m).Ok?
    ensures WellFormed(y) && WellFormed(n) && Level(n) >= 2
    ensures ts == TokensOf(y) + rest2 && |rest2| > 0 && rest2[0] == Sym(Colon) && rest2[1..] == TokensOf(n) + rest3
    ensures Ahead(CondTail(v, m).m, rest3) && CondTail(v, m).m.last == CondMark
    decreases |ts|, 3
  {
    hide ReadTok, LexFrom, Sound, TokensOf, WellFormed, Run, Ahead, CondTail, CondStep, Level;
    CondTailOk(v, m);
    var q := Suppress(m, v == 0);
    SuppressedBefore(m, v == 0, ts);
    y, rest2 := AcceptRun(0, q, ts);
    var ym := Run(0, q).m;
    TokensShorter(y, rest2, ts);
    ColonHead(ym, rest2);
    Rest(ym, TokensOf(y), rest2, Sym(Colon));
    var p := Suppress(Resume(ym, v == 0), v != 0);
    ResumedBefore(ym, p, rest2[1..]);
    n, rest3 := AcceptRun(2, p, rest2[1..]);
    var nm := Run(2, p).m;
    AheadLast(nm, rest3);
    AheadAnyway(nm, CondTail(v, m).m, rest3);
  }

  lemma LevelDown3(e: Expr)
    ensures Level(e) >= 3 ==> Level(e) >= 2
  {
  }

  lemma QuestHead(m: State, ts: seq<Token>)
    requires Ahead(m, ts) && m.cur == Quest
    ensures |ts| > 0 && ts[0] == Sym(Quest) && Head(m, Sym(Quest))
  {
    hide LexFrom;
  }

  lemma ColonHead(m: State, ts: seq<Token>)
    requires Ahead(m, ts) && m.cur == Colon
    ensures |ts| > 0 && ts[0] == Sym(Colon) && Head(m, Sym(Colon))
  {
    hide LexFrom;
  }

  lemma ResumedBefore(m: State, m': State, ts: seq<Token>)
    requires Before(m, ts) && m' == m.(noeval := m'.noeval)
    ensures Before(m', ts)
  {
    hide LexFrom;
  }

  lemma CondTailOk(c: intmax, m: State)
    requires Valid(m) && m.cur == Quest && CondTail(c, m).Ok?
    ensures Run(0, Suppress(m, c == 0)).Ok? && Run(0, Suppress(m, c == 0)).m.cur == Colon
    ensures var p := Suppress(Resume(Run(0, Suppress(m, c == 0)).m, c == 0), c != 0);
            && Run(2, p).Ok?
            && CondTail(c, m).m == Run(2, p).m.(last := CondMark, noeval := CondTail(c, m).m.noeval)
  {
    hide ReadTok, ExpComma, ExpCond;
  }

  lemma CondTree(c: Expr, y: Expr, n: Expr, ts: seq<Token>, rest1: seq<Token>, rest2: seq<Token>, rest3: seq<Token>)
    requires WellFormed(c) && Level(c) >= 3 && WellFormed(y) && WellFormed(n) && Level(n) >= 2
    requires ts == TokensOf(c) + rest1 && |rest1| > 0 && rest1[0] == Sym(Quest)
    requires rest1[1..] == TokensOf(y) + rest2 && |rest2| > 0 && rest2[0] == Sym(Colon)
    requires rest2[1..] == TokensOf(n) + rest3
    ensures var e := Conditional(c, y, n);
            WellFormed(e) && Level(e) >= 2 && ts == TokensOf(e) + rest3
  {
    var e := Conditional(c, y, n);
    assert TokensOf(e) == TokensOf(c) + [Sym(Quest)] + TokensOf(y) + [Sym(Colon)] + TokensOf(n);
    hide TokensOf, WellFormed;
    assert rest2 == [Sym(Colon)] + (TokensOf(n) + rest3);
    assert rest1 == [Sym(Quest)] + (TokensOf(y) + rest2);
    Associate3(TokensOf(c), [Sym(Quest)], TokensOf(y), rest2);
    Associate3(TokensOf(c) + [Sym(Quest)] + TokensOf(y), [Sym(Colon)], TokensOf(n), rest3);
  }

  // ---------------------------------------------------------------- exponentiation and unary operators

  lemma {:induction false} AcceptPower(m: State, ts: seq<Token>) returns (e: Expr, rest: seq<Token>)
    requires Before(m, ts) && Run(13, m).Ok?
    ensures Accepted(13, e, Run(13, m), ts, rest)
    decreases |ts|, 2, 4
  {
    hide ReadTok, LexFrom, Sound, TokensOf, WellFormed, Run, Ahead, PowerLoop, Power, Level;
    RunPowerUnfold(m);
    var b, rest1 := AcceptRun(14, m, ts);
    var l := Run(14, m);
    AheadLast(l.m, rest1);
    if l.m.cur != PowerOp {
      PowerLoopEnds(l.v, l.m);
      LevelDown14(b);
      return b, rest1;
    }
    TokensShorter(b, rest1, ts);
    PowerHead(l.m, rest1);
    Rest(l.m, TokensOf(b), rest1, Sym(PowerOp));
    PowerLoopUnfold(l.v, l.m);
    var x, rest2 := AcceptRun(13, l.m, rest1[1..]);
    var xm := Run(13, l.m).m;
    PowerTurnEnds(l.v, l.m);
    AheadAnyway(xm, xm.(last := Num), rest2);
    PowTree(b, x, ts, rest1, rest2);
    e, rest := Pow(b, x), rest2;
  }

  lemma LevelDown14(e: Expr)
    ensures Level(e) >= 14 ==> Level(e) >= 13
  {
  }

  lemma PowerHead(m: State, ts: seq<Token>)
    requires Ahead(m, ts) && m.cur == PowerOp
    ensures |ts| > 0 && ts[0] == Sym(PowerOp) && Head(m, Sym(PowerOp))
  {
    hide LexFrom;
  }

  lemma PowerTurnEnds(v: intmax, m: State)
    requires Valid(m) && m.cur == PowerOp && PowerLoop(v, m).Ok?
    requires Run(13, m).Ok? && Run(13, m).m.cur != PowerOp
    ensures PowerLoop(v, m).m == Run(13, m).m.(last := Num)
  {
    hide Run, PowerLoop, Power;
    PowerLoopUnfold(v, m);
    var v2, m3 := Run(13, m).v, Run(13, m).m.(last := Num);
    PowerLoopEnds(1, m3);
    if v2 >= 0 {
      PowerLoopEnds(Wrap(Power(v, v2)), m3);
    }
  }

  lemma PowTree(b: Expr, x: Expr, ts: seq<Token>, rest1: seq<Token>, rest2: seq<Token>)
    requires WellFormed(b) && Level(b) >= 14 && WellFormed(x) && Level(x) >= 13
    requires ts == TokensOf(b) + rest1 && |rest1| > 0 && rest1[0] == Sym(PowerOp) && rest1[1..] == TokensOf(x) + rest2
    ensures var e := Pow(b, x); WellFormed(e) && Level(e) >= 13 && ts == TokensOf(e) + rest2
  {
    assert TokensOf(Pow(b, x)) == TokensOf(b) + [Sym(PowerOp)] + TokensOf(x);
    hide TokensOf;
    assert rest1 == [Sym(PowerOp)] + (TokensOf(x) + rest2);
    Associate3(TokensOf(b), [Sym(PowerOp)], TokensOf(x), rest2);
  }

  /** The state on the first token of an operand. */
  lemma FirstRead(k: nat, m: State, ts: seq<Token>)
    requires k <= 15 && Before(m, ts) && Run(k, m).Ok?
    ensures ReadTok(m).Ok? && Exp(k, ReadTok(m).m) == Run(k, m)
    ensures var m1 := ReadTok(m).m;
            && Ahead(m1, ts) && m1.last == m.cur
            && (Operator(ts[0]) ==> m1.tokstr == m.tokstr)
            && (ts[0].Name? ==> m1.tokstr == Some(ts[0].x) && IsName(ts[0].x))
            && (ts[0].Name? && |ts| > 1 && ts[1] == Sym(Eq) ==> m1.tokval == 0)
  {
    hide ReadTok, LexFrom, Exp, IsName;
    ReadAny(m, ts);
  }

  lemma {:induction false} AcceptUnary(m: State, ts: seq<Token>) returns (e: Expr, rest: seq<Token>)
    requires Before(m, ts) && Run(14, m).Ok?
    ensures Accepted(14, e, Run(14, m), ts, rest)
    decreases |ts|, 2, 2
  {
    hide ReadTok, LexFrom, Sound, TokensOf, WellFormed, Run, Ahead, Exp, Level, ExpUnary, Exp0;
    FirstRead(14, m, ts);
    var m1 := ReadTok(m).m;
    AheadLast(m1, ts);
    ExpAtoms(m1);
    if UnaryOf(m1.cur).None? {
      RunOperand(m);
      e, rest := AcceptRun(15, m, ts);
      LevelDown15(e);
      return;
    }
    var op := UnaryOf(m1.cur).value;
    UnaryHead(m1, ts);
    ExpUnaryUnfold(m1, op);
    assert [] + ts == ts;
    Rest(m1, [], ts, Sym(m1.cur));
    var o, rest1 := AcceptRun(14, m1, ts[1..]);
    AheadAnyway(Run(14, m1).m, Run(14, m1).m.(last := Num), rest1);
    UnaryTree(op, o, ts, rest1);
    e, rest := Unary(op, o), rest1;
  }

  lemma LevelDown15(e: Expr)
    ensures Level(e) >= 15 ==> Level(e) >= 14
  {
  }

  lemma ExpAtoms(m: State)
    requires Valid(m)
    ensures Exp(14, m) == ExpUnary(m) && Exp(15, m) == Exp0(m)
  {
    hide ReadTok, ExpUnary, Exp0;
  }

  lemma RunOperand(m: State)
    requires Valid(m) && ReadTok(m).Ok? && UnaryOf(ReadTok(m).m.cur).None?
    ensures Run(14, m) == Run(15, m)
  {
    hide ReadTok, ExpUnary, Exp0;
    UnaryStops(ReadTok(m).m);
  }

  lemma UnaryHead(m: State, ts: seq<Token>)
    requires Ahead(m, ts) && UnaryOf(m.cur).Some?
    ensures |ts| > 0 && ts[0] == Sym(m.cur) && Head(m, Sym(m.cur)) && !IsPre(m.cur)
    ensures UnaryKind(UnaryOf(m.cur).value) == m.cur
  {
    hide LexFrom;
  }

  lemma UnaryTree(op: UnaryOp, o: Expr, ts: seq<Token>, rest: seq<Token>)
    requires WellFormed(o) && Level(o) >= 14 && |ts| > 0 && ts[0] == Sym(UnaryKind(op)) && ts[1..] == TokensOf(o) + rest
    ensures var e := Unary(op, o); WellFormed(e) && Level(e) >= 14 && ts == TokensOf(e) + rest
  {
    assert ts == [ts[0]] + ts[1..];
    assert TokensOf(Unary(op, o)) == [Sym(UnaryKind(op))] + TokensOf(o);
  }

  // ---------------------------------------------------------------- operands

  lemma {:induction false} AcceptOperand(m: State, ts: seq<Token>) returns (e: Expr, rest: seq<Token>)
    requires Before(m, ts) && Run(15, m).Ok?
    ensures Accepted(15, e, Run(15, m), ts, rest)
    decreases |ts|, 2, 0
  {
    hide ReadTok, LexFrom, Sound, TokensOf, WellFormed, Run, Ahead, Exp, Exp0, NameOperand, StepName;
    FirstRead(15, m, ts);
    var m1 := ReadTok(m).m;
    AheadLast(m1, ts);
    ExpAtoms(m1);
    Exp0Str(m1);
    assert [] + ts == ts;
    match m1.cur
    case Str =>
      StrHead(m1, ts);
      e, rest := AcceptName(m1, ts);
    case PreInc | PreDec => e, rest := AcceptStep(m1, ts);
    case Num => e, rest := AcceptNumber(m1, ts);
    case LParen =>
      Exp0Paren(m1);
      ParenHead(m1, ts);
      Rest(m1, [], ts, Sym(LParen));
      var inner, rest1 := AcceptRun(0, m1, ts[1..]);
      var im := Run(0, m1).m;
      CloseHead(im, rest1);
      Rest(im, TokensOf(inner), rest1, Sym(RParen));
      ReadAny'(im, rest1[1..]);
      ParenTree(inner, ts, rest1);
      e, rest := Paren(inner), rest1[1..];
    case _ => NoOperand(m1);
  }

  lemma StrHead(m: State, ts: seq<Token>)
    requires Ahead(m, ts) && m.cur == Str
    ensures |ts| > 0 && ts[0].Name?
  {
    hide LexFrom;
  }

  lemma NoOperand(m: State)
    requires Valid(m) && m.cur !in {Str, PreInc, PreDec, Num, LParen}
    ensures Exp0(m).Err?
  {
  }

  lemma ReadAny'(m: State, ts: seq<Token>)
    requires Before(m, ts) && ReadTok(m).Ok?
    ensures Ahead(ReadTok(m).m, ts) && ReadTok(m).m.last == m.cur
  {
    hide ReadTok, LexFrom;
    ReadAny(m, ts);
  }

  lemma ParenHead(m: State, ts: seq<Token>)
    requires Ahead(m, ts) && m.cur == LParen
    ensures |ts| > 0 && ts[0] == Sym(LParen) && Head(m, Sym(LParen))
  {
    hide LexFrom;
  }

  lemma CloseHead(m: State, ts: seq<Token>)
    requires Ahead(m, ts) && m.cur == RParen
    ensures |ts| > 0 && ts[0] == Sym(RParen) && Head(m, Sym(RParen))
  {
    hide LexFrom;
  }

  lemma ParenTree(inner: Expr, ts: seq<Token>, rest1: seq<Token>)
    requires WellFormed(inner) && |ts| > 0 && ts[0] == Sym(LParen) && ts[1..] == TokensOf(inner) + rest1
    requires |rest1| > 0 && rest1[0] == Sym(RParen)
    ensures var e := Paren(inner); WellFormed(e) && Level(e) >= 15 && ts == TokensOf(e) + rest1[1..]
  {
    assert TokensOf(Paren(inner)) == [Sym(LParen)] + TokensOf(inner) + [Sym(RParen)];
    hide TokensOf;
    assert ts == [Sym(LParen)] + (TokensOf(inner) + ([Sym(RParen)] + rest1[1..]));
  }

  lemma AcceptNumber(m: State, ts: seq<Token>) returns (e: Expr, rest: seq<Token>)
    requires Ahead(m, ts) && m.cur == Num && Sound(ts) && Exp0(m).Ok?
    ensures Accepted(15, e, Exp0(m), ts, rest)
  {
    hide ReadTok, LexFrom, Exp0, Sound;
    Exp0Num(m);
    assert [] + ts == ts;
    Rest(m, [], ts, ts[0]);
    ReadAny'(m, ts[1..]);
    e, rest := Lit(ts[0].v), ts[1..];
  }

  lemma AcceptStep(m: State, ts: seq<Token>) returns (e: Expr, rest: seq<Token>)
    requires Ahead(m, ts) && IsPre(m.cur) && Sound(ts) && StepName(m).Ok?
    ensures Accepted(15, e, StepName(m), ts, rest)
  {
    hide ReadTok, LexFrom, Wrap, BindStep, IsName, AssignableOp, StepName;
    var m0 := m.(last := m.cur);
    StepNameFails(m);
    var m1 := ReadTok(m0).m;
    ReadStepped(m0, ts[1..]);
    assert ts[1].Name? by { assert ts[1] == ts[1..][0]; }
    var b := BindStep(m1.tokstr, Wrap(if m.cur == PreInc then m1.tokval + 1 else m1.tokval - 1), m1);
    StepNameUnfold(m, m1, b);
    var m2 := b.m.(cur := Num);
    ReadBehind(m2, ts[1..][1..]);
    e, rest := PreStep(m.cur == PreInc, ts[1].x), ts[2..];
    assert ts == [ts[0], ts[1]] + ts[2..];
  }

  /** Behind `++` or `--` stands a name. */
  lemma ReadStepped(m: State, ts: seq<Token>)
    requires Valid(m) && IsPre(m.cur) && IsPre(m.last) && Unread(m) == ts && ReadTok(m).Ok? && ReadTok(m).m.cur == Str
    ensures ts[0].Name? && ReadTok(m).m.last == m.cur
    ensures LexFrom(m.text, ReadTok(m).m.tp, AfterPreName) == ts[1..]
    ensures ReadTok(m).m.text == m.text
  {
    hide ReadTok, Scan;
    LexUnfold(m.text, m.tp, ScanPrev(m.cur, m.last));
    ReadKind(m);
    var sc := Scan(m.text, m.tp, ScanPrev(m.cur, m.last));
    if sc.token.Name? {
      ReadNameUnfold(m, sc.token.x);
    }
  }

  /** Reading on behind a stepped name. */
  lemma ReadBehind(m: State, ts: seq<Token>)
    requires Valid(m) && m.cur == Num && Unread(m) == ts && ReadTok(m).Ok?
    ensures Ahead(ReadTok(m).m, ts) && ReadTok(m).m.last == Num
  {
    hide ReadTok, Scan;
    ReadAny(m, ts);
  }

  lemma AcceptName(m: State, ts: seq<Token>) returns (e: Expr, rest: seq<Token>)
    requires Ahead(m, ts) && m.cur == Str && Sound(ts) && NameOperand(m).Ok?
    requires ts[0].Name? && m.tokstr == Some(ts[0].x) && (|ts| > 1 && ts[1] == Sym(Eq) ==> m.tokval == 0)
    ensures Accepted(15, e, NameOperand(m), ts, rest)
  {
    hide ReadTok, LexFrom, Wrap, BindStep, IsName, AssignableOp;
    var p := m.(tokstr := None, noeval := 1);
    var peek := ReadTok(p).m;
    ReadAny(p, ts[1..]);
    var m1 := AfterPeek(m, peek).m;
    if peek.cur == PostInc || peek.cur == PostDec {
      PostHead(peek, ts[1..]);
      assert ts[1..][1..] == ts[2..];
      ReadBehind(m1, ts[2..]);
      assert ts[1] == ts[1..][0];
      e, rest := PostStep(peek.cur == PostInc, ts[0].x), ts[2..];
      assert ts == [ts[0], ts[1]] + ts[2..];
    } else {
      ReadAny(m1, ts[1..]);
      e, rest := Var(ts[0].x), ts[1..];
      assert ts == [ts[0]] + ts[1..];
      if AssignNext(ReadTok(m1).m) {
        OperatorNext(ReadTok(m1).m, ts[1..]);
      }
    }
  }

  lemma OperatorNext(m: State, ts: seq<Token>)
    requires Ahead(m, ts) && AssignNext(m)
    ensures Operator(ts[0]) && (m.cur == Eq ==> ts[0] == Sym(Eq))
  {
  }

  lemma PostHead(m: State, ts: seq<Token>)
    requires Ahead(m, ts) && (m.cur == PostInc || m.cur == PostDec)
    ensures ts[0] == Sym(m.cur) && Unread(m) == ts[1..]
  {
    hide LexFrom;
  }

  // ---------------------------------------------------------------- texts

  /** A text the evaluator accepts has a precedence tree. */
  lemma {:induction false} AcceptText(s: string, m: State)
    requires Valid(m) && m.noeval == 0 && !BlankText(s) && SubExpr(s, m).Ok?
    ensures HasTree(s)
  {
    hide LexFrom, TokensOf, WellFormed, Run, Ahead, SkipBlank, Sound;
    var m0 := Entered(s, m);
    SubExprRuns(s, m);
    LexSound(s, 0, AfterOther);
    var e, rest := AcceptRun(0, m0, Lex(s));
    EndHead(Run(0, m0).m, rest);
    assert IsTreeOf(e, s);
  }

  lemma SubExprRuns(s: string, m: State)
    requires Valid(m) && m.noeval == 0 && !BlankText(s) && SubExpr(s, m).Ok?
    ensures m.depth < MAX_DEPTH && Run(0, Entered(s, m)).Ok? && Run(0, Entered(s, m)).m.cur == End
  {
    hide ReadTok, ExpComma, SkipBlank;
  }

  lemma EndHead(m: State, ts: seq<Token>)
    requires Ahead(m, ts) && m.cur == End
    ensures ts == [Sym(End)]
  {
    hide LexFrom;
  }
}
