/** The one-pass evaluator computes the value of the precedence tree: for every well-formed tree of the
    text, at every level of the grammar, suppressed or not. */
module EvalCorrect {
  import opened Integers
  import opened Options
  import opened Tokens
  import opened Trees
  import opened Exponent
  import opened Machine
  import opened Reading
  import opened Levels
  import Acceptance

  /** What evaluating a tree in a state comes to: while suppressed it only has to be an expression. */
  ghost function Expected(e: Expr, m: State): Outcome
    requires m.depth <= MAX_DEPTH
  {
    if m.noeval > 0 then Skipped(e, m.store) else Eval(e, m.store, m.depth)
  }

  /** The evaluator's result `r` is the outcome `ref`, and it stands on `rest`. While suppressed values do not
      matter. */
  predicate Agrees(r: Result, ref: Outcome, m: State, rest: seq<Token>) {
    match ref
    case Value(v, st) => r.Ok? && (m.noeval == 0 ==> r.v == v) && r.m.store == st && Ahead(r.m, rest)
    case Failure(e, st) => r == Err(e, st)
    case Malformed => r.Err?
  }

  /** The left operand had the outcome `ref`, and the evaluator goes on with `v` and `m`. */
  predicate Reached(ref: Outcome, v: intmax, m: State) {
    ref.Value? && ref.store == m.store && (m.noeval == 0 ==> ref.v == v)
  }

  /** After a lone name lasttok and tokstr still show it, so that an assignment can follow. */
  predicate NameKept(e: Expr, m: State, r: Result) {
    e.Var? && r.Ok? ==> r.m.last == Str && r.m.tokstr == Some(e.x) && (m.noeval > 0 ==> r.v == 0)
  }

  /** The variable is the value of its text; while suppressed it is 0. */
  ghost function ExpectedName(x: string, m: State): Outcome
    requires m.depth <= MAX_DEPTH
  {
    if m.noeval > 0 then Value(0, m.store) else EvalText(Lookup(m.store, x), m.store, m.depth)
  }

  // ---------------------------------------------------------------- reading a variable

  /** What reading the name token does: the variable is evaluated with it, unless suppressed. */
  lemma ReadName(m: State, x: string, rest: seq<Token>)
    requires Valid(m) && IsPre(m.cur) == IsPre(m.last)
    requires Unread(m) == [Name(x)] + rest && |rest| > 0 && Operator(rest[0])
    requires IsPre(m.last) || rest[0] != Sym(Eq)
    ensures HoldsName(ReadTok(m), ExpectedName(x, m))
    ensures ReadTok(m).Ok? ==> OnName(ReadTok(m).m, m, x, rest)
    decreases MAX_DEPTH - m.depth, 1, 0
  {
    hide ReadTok, EvalText, SubExpr, Scan;
    var sc := Scan(m.text, m.tp, ScanPrev(m.cur, m.last));
    LexUnfold(m.text, m.tp, ScanPrev(m.cur, m.last));
    assert Unread(m)[1..] == rest;
    Peek(m, sc.next);
    var p := m.(tp := sc.next, cur := Str, noeval := 1, tokstr := None);
    var m1 := m.(tokstr := Some(x), assignTok := ReadTok(p).m.assignTok, tp := sc.next);
    ReadNameUnfold(m, x);
    if m.noeval == 0 {
      TextCorrect(Lookup(m.store, x), m1);
    }
  }

  /** The name has been read with the value of its text. */
  predicate HoldsName(r: Result, ref: Outcome) {
    match ref
    case Value(v, st) => r.Ok? && r.m.tokval == v && r.m.store == st
    case Failure(e, st) => r == Err(e, st)
    case Malformed => r.Err?
  }

  predicate OnName(m': State, m: State, x: string, rest: seq<Token>) {
    && Valid(m') && m'.text == m.text
    && m'.cur == Str && m'.tokstr == Some(x) && m'.last == m.cur
    && LexFrom(m'.text, m'.tp, NextPrev(ScanPrev(m.cur, m.last), Name(x))) == rest
  }

  /** A nested text evaluates to the value of its tree, one level deeper. */
  lemma {:induction false} TextCorrect(s: string, m: State)
    requires Valid(m) && m.noeval == 0
    ensures match EvalText(s, m.store, m.depth)
            case Value(v, st) => SubExpr(s, m).Ok? && SubExpr(s, m).v == v && SubExpr(s, m).m.store == st
            case Failure(e, st) => SubExpr(s, m) == Err(e, st)
            case Malformed => SubExpr(s, m).Err?
    decreases MAX_DEPTH - m.depth, 0
  {
    hide LexFrom, Eval, Run, Agrees, HasTree, IsTreeOf, BlankText, SubExpr;
    if BlankText(s) || m.depth >= MAX_DEPTH {
      TextNotRead(s, m);
    } else if HasTree(s) {
      TextHasTree(s, m);
      RunCorrect(0, TreeOf(s), Entered(s, m), [Sym(End)]);
      TextEnds(s, m, Eval(TreeOf(s), m.store, m.depth + 1));
    } else if SubExpr(s, m).Ok? {
      Acceptance.AcceptText(s, m);
    }
  }

  lemma TextNotRead(s: string, m: State)
    requires Valid(m) && m.noeval == 0 && (BlankText(s) || m.depth >= MAX_DEPTH)
    ensures SubExpr(s, m) == if BlankText(s) then Ok(0, m) else Err(TooDeep, m.store)
  {
    hide ReadTok, ExpComma, BlankText;
  }

  lemma TextHasTree(s: string, m: State)
    requires HasTree(s) && m.depth < MAX_DEPTH
    ensures WellFormed(TreeOf(s)) && Ready(Entered(s, m), TokensOf(TreeOf(s)) + [Sym(End)])
  {
    hide LexFrom, WellFormed, TokensOf;
  }

  lemma TextEnds(s: string, m: State, ref: Outcome)
    requires Valid(m) && m.noeval == 0 && !BlankText(s) && m.depth < MAX_DEPTH
    requires Agrees(Run(0, Entered(s, m)), ref, Entered(s, m), [Sym(End)])
    ensures match ref
            case Value(v, st) => SubExpr(s, m).Ok? && SubExpr(s, m).v == v && SubExpr(s, m).m.store == st
            case Failure(e, st) => SubExpr(s, m) == Err(e, st)
            case Malformed => SubExpr(s, m).Err?
  {
    hide ReadTok, ExpComma, LexFrom, SkipBlank;
  }

  /** Every tree of level `k` or tighter, wherever it stands in the text, evaluates to its value. */
  lemma {:induction false} RunCorrect(k: nat, e: Expr, m: State, rest: seq<Token>)
    requires k <= 15 && WellFormed(e) && Level(e) >= k && Follows(rest, k)
    requires Ready(m, TokensOf(e) + rest)
    ensures Agrees(Run(k, m), Expected(e, m), m, rest)
    ensures NameKept(e, m, Run(k, m))
    decreases MAX_DEPTH - m.depth, 2, e, 60 - 3 * k
  {
    hide Run, Expected, Agrees, LexFrom, TokensOf, ReadTok;
    if Level(e) > k {
      RunCorrect(k + 1, e, m, rest);
      Descend(k, e, m, rest);
    } else {
      match e
      case Sequence(_, _) => RunSpine(k, e, m, rest);
      case Or(_, _) => RunSpine(k, e, m, rest);
      case And(_, _) => RunSpine(k, e, m, rest);
      case Binary(_, _, _) => RunSpine(k, e, m, rest);
      case Assign(_, _, _) => RunAssign(e, m, rest);
      case Remainder(_, _, _, _) => RunRemainder(e, m, rest);
      case Conditional(_, _, _) => RunConditional(e, m, rest);
      case Pow(_, _) => RunPow(e, m, rest);
      case Unary(_, _) => RunUnary(e, m, rest);
      case Lit(_) => RunLit(e, m, rest);
      case Var(_) => RunVar(e, m, rest);
      case Paren(_) => RunParen(e, m, rest);
      case PreStep(_, _) => RunPreStep(e, m, rest);
      case PostStep(_, _) => RunPostStep(e, m, rest);
    }
  }

  /** A level does nothing when the operand is already of a tighter level and the next token of a looser one. */
  lemma Descend(k: nat, e: Expr, m: State, rest: seq<Token>)
    requires k < 15 && WellFormed(e) && Level(e) > k && Follows(rest, k)
    requires Ready(m, TokensOf(e) + rest)
    requires Agrees(Run(k + 1, m), Expected(e, m), m, rest)
    ensures Run(k, m) == Run(k + 1, m)
  {
    hide ReadTok, Exp, Expected, LexFrom, Scan, TokensOf, WellFormed;
    FollowsOperator(rest, k);
    if ReadTok(m).Ok? {
      var m1 := ReadTok(m).m;
      if k == 14 {
        FirstToken(e);
        ReadKind(m);
        LexUnfold(m.text, m.tp, ScanPrev(m.cur, m.last));
        assert Unread(m)[0] == TokensOf(e)[0];
      }
      DescendExp(k, m1, Run(k + 1, m), rest);
    }
  }

  /** If the left operand fails the whole operation fails. */
  lemma LeftFirst(e: Expr, m: State, l: Result, rest: seq<Token>, rest': seq<Token>)
    requires m.depth <= MAX_DEPTH && LeftLevel(Level(e))
    requires l.Err? && Agrees(l, Expected(LeftOf(e), m), m, rest')
    ensures Agrees(l, Expected(e, m), m, rest)
  {
    hide Ahead, Compute;
  }

  /** The end of a turn agrees with the operator of the tree. */
  lemma FinishCorrect(e: Expr, v: intmax, m0: State, m: State, r2: Result, rest: seq<Token>)
    requires LeftLevel(Level(e))
    requires m0.depth == m.depth && m0.noeval == m.noeval && m.depth <= MAX_DEPTH
    requires Reached(Expected(LeftOf(e), m0), v, m)
    requires Keeps(Suppress(m, Suppresses(e, v)), r2)
    requires var m1 := Suppress(m, Suppresses(e, v)); Agrees(r2, Expected(RightOf(e), m1), m1, rest)
    requires r2.Ok? ==> AheadLater(r2.m, rest)
    ensures Agrees(Finish(e, v, r2), Expected(e, m0), m0, rest)
  {
    hide Ahead, Compute;
  }

  /** The suppression counter and lasttok do not matter to where the evaluator stands. */
  ghost predicate AheadLater(m: State, rest: seq<Token>) {
    Ahead(m, rest) ==> forall n: nat, k: Kind :: !IsPre(k) ==> Ahead(m.(noeval := n).(last := k), rest)
  }

  lemma AheadStays(m: State, rest: seq<Token>)
    requires |rest| > 0 && Operator(rest[0])
    ensures AheadLater(m, rest)
  {
    hide LexFrom;
  }

  /** One turn computes the operator on the value of the left operand and the right operand. */
  lemma {:induction false} TurnCorrect(e: Expr, v: intmax, m0: State, m: State, rest: seq<Token>)
    requires WellFormed(e) && LeftLevel(Level(e)) && Follows(rest, Level(e) + 1)
    requires Ready(m, TokensOf(RightOf(e)) + rest)
    requires m0.depth == m.depth && m0.noeval == m.noeval
    requires Reached(Expected(LeftOf(e), m0), v, m)
    ensures Agrees(Turn(e, v, m), Expected(e, m0), m0, rest)
    decreases MAX_DEPTH - m.depth, 2, e, 57 - 3 * Level(e)
  {
    hide Run, Expected, LexFrom, TokensOf, Agrees, Finish, Ahead, Reached;
    var m1 := Suppress(m, Suppresses(e, v));
    RunCorrect(Level(e) + 1, RightOf(e), m1, rest);
    FollowsOperator(rest, Level(e) + 1);
    var r2 := Run(Level(e) + 1, m1);
    if r2.Ok? {
      AheadStays(r2.m, rest);
    }
    FinishCorrect(e, v, m0, m, r2, rest);
  }

  /** The loop of a level, entered with the value of a left operand, ends with the value of the whole
      chain of operators of that level. */
  lemma {:induction false} Spine(k: nat, e: Expr, m: State, rest: seq<Token>) returns (r: Result)
    requires LeftLevel(k) && WellFormed(e) && Level(e) >= k && Follows(rest, k + 1)
    requires Ready(m, TokensOf(e) + rest)
    ensures Agrees(r, Expected(e, m), m, rest) && Keeps(m, r)
    ensures NameKept(e, m, r)
    ensures Run(k, m) == Loop(k, r)
    decreases MAX_DEPTH - m.depth, 2, e, 58 - 3 * k
  {
    hide Run, Expected, LexFrom, TokensOf, Agrees, Loop, Turn, Ahead, Reached;
    RunLoop(k, m);
    if Level(e) > k {
      RunCorrect(k + 1, e, m, rest);
      r := Run(k + 1, m);
    } else {
      var rest' := [OperatorToken(e)] + (TokensOf(RightOf(e)) + rest);
      SplitTokens(e, rest);
      var l := Spine(k, LeftOf(e), m, rest');
      if l.Err? {
        LeftFirst(e, m, l, rest, rest');
        r := l;
      } else {
        AgreesOk(LeftOf(e), m, l, rest');
        LoopTurn(e, l.v, l.m);
        TurnCorrect(e, l.v, m, l.m, rest);
        r := Turn(e, l.v, l.m);
        assert Run(k, m) == Loop(k, Ok(l.v, l.m));
      }
    }
  }

  lemma SplitTokens(e: Expr, rest: seq<Token>)
    requires WellFormed(e) && LeftLevel(Level(e))
    ensures var rest' := [OperatorToken(e)] + (TokensOf(RightOf(e)) + rest);
            TokensOf(e) + rest == TokensOf(LeftOf(e)) + rest'
    ensures Follows([OperatorToken(e)] + (TokensOf(RightOf(e)) + rest), Level(e) + 1)
  {
    assert TokensOf(e) == TokensOf(LeftOf(e)) + [OperatorToken(e)] + TokensOf(RightOf(e));
    hide TokensOf, WellFormed;
    Associate3(TokensOf(LeftOf(e)), [OperatorToken(e)], TokensOf(RightOf(e)), rest);
  }

  lemma AgreesOk(e: Expr, m: State, l: Result, rest': seq<Token>)
    requires Valid(m) && l.Ok? && Keeps(m, l)
    requires Agrees(l, Expected(e, m), m, rest')
    ensures Reached(Expected(e, m), l.v, l.m)
    ensures Ahead(l.m, rest')
    ensures rest'[0] != Sym(End) && !IsPre(KindOf(rest'[0])) ==> Ready(l.m, rest'[1..])
    ensures Head(l.m, rest'[0])
  {
    hide Expected, LexFrom;
  }

  /** A whole left-associative level. */
  lemma RunSpine(k: nat, e: Expr, m: State, rest: seq<Token>)
    requires LeftLevel(k) && WellFormed(e) && Level(e) == k && Follows(rest, k)
    requires Ready(m, TokensOf(e) + rest)
    ensures Agrees(Run(k, m), Expected(e, m), m, rest)
    decreases MAX_DEPTH - m.depth, 2, e, 59 - 3 * k
  {
    hide Run, Expected, LexFrom, TokensOf, Loop;
    var r := Spine(k, e, m, rest);
    FollowsOperator(rest, k);
    if r.Ok? {
      AgreesOk(e, m, r, rest);
    }
    LoopStops(k, r);
  }

  // ---------------------------------------------------------------- operands

  lemma RunLit(e: Expr, m: State, rest: seq<Token>)
    requires e.Lit? && Follows(rest, 15) && Ready(m, TokensOf(e) + rest)
    ensures Agrees(Run(15, m), Expected(e, m), m, rest)
  {
    hide ReadTok, LexFrom;
    FollowsOperator(rest, 15);
    var ts := [Number(e.v)] + rest;
    ReadReady(m, ts);
    var m1 := ReadTok(m).m;
    AheadReady(m1, ts);
    assert ts[1..] == rest;
    ReadReady(m1, rest);
    Exp0Num(m1);
  }

  /** On a name whose value has been read: the token behind it is read, and the name is kept for an assignment. */
  lemma Exp0Name(m: State, rest: seq<Token>)
    requires Valid(m) && m.cur == Str && Unread(m) == rest && Operator(rest[0])
    requires KindOf(rest[0]) !in {PostInc, PostDec, PreInc, PreDec}
    ensures Exp0(m).Ok? && Exp0(m).v == m.tokval && Ahead(Exp0(m).m, rest)
    ensures Exp0(m).m.last == Str && Exp0(m).m.tokstr == m.tokstr && Exp0(m).m.store == m.store
    ensures Exp0(m).m.noeval == m.noeval && Exp0(m).m.depth == m.depth && Exp0(m).m.text == m.text
  {
    hide LexFrom, ReadTok;
    var p := m.(tokstr := None, noeval := 1);
    ReadPlain(p);
    var m0 := m.(assignTok := ReadTok(p).m.assignTok);
    ReadPlain(m0);
    Exp0Str(m);
  }

  lemma RunVar(e: Expr, m: State, rest: seq<Token>)
    requires e.Var? && Follows(rest, 15) && Ready(m, TokensOf(e) + rest)
    ensures Agrees(Run(15, m), Expected(e, m), m, rest)
    ensures NameKept(e, m, Run(15, m))
    decreases MAX_DEPTH - m.depth, 1, 1
  {
    hide ReadTok, LexFrom, EvalText, Exp0;
    FollowsOperator(rest, 15);
    ReadName(m, e.x, rest);
    if ReadTok(m).Ok? {
      Exp0Name(ReadTok(m).m, rest);
    }
  }

  lemma RunParen(e: Expr, m: State, rest: seq<Token>)
    requires e.Paren? && WellFormed(e) && Follows(rest, 15) && Ready(m, TokensOf(e) + rest)
    ensures Agrees(Run(15, m), Expected(e, m), m, rest)
    decreases MAX_DEPTH - m.depth, 2, e, 1
  {
    hide ReadTok, LexFrom, Run, Expected, Exp0;
    FollowsOperator(rest, 15);
    var rest' := [Sym(RParen)] + rest;
    var ts := [Sym(LParen)] + (TokensOf(e.inner) + rest');
    assert TokensOf(e) + rest == ts;
    ReadReady(m, ts);
    var m1 := ReadTok(m).m;
    AheadReady(m1, ts);
    assert ts[1..] == TokensOf(e.inner) + rest';
    ExpectedParen(e, m, m1);
    RunCorrect(0, e.inner, m1, rest');
    var r := Run(0, m1);
    if r.Ok? {
      AgreesOk(e.inner, m1, r, rest');
      assert rest'[1..] == rest;
      ReadReady(r.m, rest);
    }
    Exp0Paren(m1);
    RunAtom(m, m1);
  }

  lemma RunAtom(m: State, m1: State)
    requires Valid(m) && Valid(m1) && ReadTok(m).Ok? && m1 == ReadTok(m).m
    ensures Run(15, m) == Exp0(m1)
  {
    hide ReadTok, Exp0;
  }

  lemma ExpectedParen(e: Expr, m: State, m1: State)
    requires e.Paren? && m.depth <= MAX_DEPTH && m1.depth == m.depth && m1.noeval == m.noeval && m1.store == m.store
    ensures Expected(e, m) == Expected(e.inner, m1)
  {
  }

  lemma RunPostStep(e: Expr, m: State, rest: seq<Token>)
    requires e.PostStep? && WellFormed(e) && Follows(rest, 15) && Ready(m, TokensOf(e) + rest)
    ensures Agrees(Run(15, m), Expected(e, m), m, rest)
    decreases MAX_DEPTH - m.depth, 2, e, 1
  {
    hide ReadTok, LexFrom, EvalText, Exp0, BindStep;
    FollowsOperator(rest, 15);
    var rest' := [Sym(if e.up then PostInc else PostDec)] + rest;
    assert TokensOf(e) + rest == [Name(e.x)] + rest';
    ReadName(m, e.x, rest');
    if ReadTok(m).Ok? {
      var m1 := ReadTok(m).m;
      Exp0Post(m1, e.up, e.x, rest);
    }
  }

  lemma Exp0Post(m: State, up: bool, x: string, rest: seq<Token>)
    requires Valid(m) && m.cur == Str && m.tokstr == Some(x) && x != "" && |rest| > 0 && Operator(rest[0])
    requires Unread(m) == [Sym(if up then PostInc else PostDec)] + rest
    ensures var r := Exp0(m);
            if m.noeval > 0 then r.Ok? && Ahead(r.m, rest)
            else match Bind(m.store, x, Wrap(if up then m.tokval + 1 else m.tokval - 1))
                 case None => r == Err(ReadOnly, m.store)
                 case Some(st) => r.Ok? && r.v == m.tokval && r.m.store == st && Ahead(r.m, rest)
  {
    hide LexFrom, ReadTok, AfterPeek, Exp0, Wrap, NameOperand, Bind;
    var p := m.(tokstr := None, noeval := 1);
    ReadPlain(p);
    assert Unread(m)[1..] == rest;
    var peek := ReadTok(p).m;
    SteppedAfterwards(m, peek, up, x);
    var b := AfterPeek(m, peek);
    if b.Ok? {
      ReadReady(b.m, rest);
    }
    Exp0Str(m);
    NameOperandUnfold(m, peek, b);
  }

  lemma NameOperandUnfold(m: State, peek: State, b: Result)
    requires Valid(m) && m.cur == Str
    requires var p := ReadTok(m.(tokstr := None, noeval := 1)); p.Ok? && peek == p.m
    requires Valid(peek) && peek.text == m.text && peek.depth == m.depth && peek.store == m.store
    requires b == AfterPeek(m, peek)
    ensures NameOperand(m) == if b.Err? then b else var (_, m3) :- ReadTok(b.m); Ok(m.tokval, m3)
  {
    hide ReadTok, AfterPeek;
  }

  /** A name stepped afterwards is bound unless suppressed. */
  lemma SteppedAfterwards(m: State, peek: State, up: bool, x: string)
    requires Valid(m) && Valid(peek) && x != "" && m.tokstr == Some(x)
    requires peek.cur == if up then PostInc else PostDec
    requires peek.text == m.text && peek.depth == m.depth && peek.store == m.store
    ensures var r := AfterPeek(m, peek);
            var m1 := peek.(tokstr := m.tokstr, noeval := m.noeval, last := Str, cur := Num);
            if m.noeval > 0 then r == Ok(0, m1)
            else match Bind(m.store, x, Wrap(if up then m.tokval + 1 else m.tokval - 1))
                 case None => r == Err(ReadOnly, m.store)
                 case Some(st) => r == Ok(0, m1.(store := st))
  {
    hide Wrap, Bind, BindStep;
    var m1 := peek.(tokstr := m.tokstr, noeval := m.noeval, last := Str);
    StepBinds(x, Wrap(if up then m.tokval + 1 else m.tokval - 1), m1);
  }

  /** On `++` or `--`: the variable has the value of its text, is stepped and bound. */
  lemma StepNameCorrect(up: bool, x: string, m: State, rest: seq<Token>)
    requires Valid(m) && m.cur == (if up then PreInc else PreDec) && x != "" && Follows(rest, 15)
    requires Unread(m) == [Name(x)] + rest
    ensures Agrees(StepName(m), Stepped(up, x, ExpectedName(x, m), m.noeval), m, rest)
    decreases MAX_DEPTH - m.depth, 1, 1
  {
    hide ReadTok, LexFrom, BindStep, Wrap, StepName, ExpectedName, Assigned;
    FollowsOperator(rest, 15);
    var m0 := m.(last := m.cur);
    SameName(x, m, m0);
    ReadName(m0, x, rest);
    if ReadTok(m0).Err? {
      StepNameFails(m);
    } else {
      NameStepped(up, x, m, ReadTok(m0).m, rest);
    }
  }

  lemma SameName(x: string, m: State, m': State)
    requires m.depth <= MAX_DEPTH && m' == m.(last := m'.last)
    ensures ExpectedName(x, m) == ExpectedName(x, m')
  {
    hide EvalText;
  }

  /** From the name behind `++` or `--` on. */
  lemma NameStepped(up: bool, x: string, m: State, m1: State, rest: seq<Token>)
    requires Valid(m) && m.cur == (if up then PreInc else PreDec) && x != "" && Follows(rest, 15)
    requires var r := ReadTok(m.(last := m.cur)); r.Ok? && m1 == r.m
    requires OnName(m1, m.(last := m.cur), x, rest)
    ensures Agrees(StepName(m), Stepped(up, x, Value(m1.tokval, m1.store), m.noeval), m, rest)
  {
    hide ReadTok, LexFrom, BindStep, Wrap, StepName, Bind;
    FollowsOperator(rest, 15);
    var step := Wrap(if up then m1.tokval + 1 else m1.tokval - 1);
    StepBinds(x, step, m1);
    var b := BindStep(m1.tokstr, step, m1);
    StepNameUnfold(m, m1, b);
    if b.Ok? {
      ReadPlain(b.m.(cur := Num));
    }
  }

  /** The outcome of stepping a variable before using it. */
  function Stepped(up: bool, x: string, ref: Outcome, noeval: nat): Outcome {
    var (v, st) :- ref;
    var v1 := Wrap(if up then v + 1 else v - 1);
    if noeval > 0 then Value(v1, st) else Assigned(st, x, v1, v1)
  }

  lemma RunPreStep(e: Expr, m: State, rest: seq<Token>)
    requires e.PreStep? && WellFormed(e) && Follows(rest, 15) && Ready(m, TokensOf(e) + rest)
    ensures Agrees(Run(15, m), Expected(e, m), m, rest)
    decreases MAX_DEPTH - m.depth, 2, e, 1
  {
    hide ReadTok, LexFrom, EvalText, Exp0, StepName, Wrap;
    var pre := if e.up then PreInc else PreDec;
    var ts := [Sym(pre)] + ([Name(e.x)] + rest);
    assert TokensOf(e) + rest == ts;
    ReadReady(m, ts);
    assert ts[1..] == [Name(e.x)] + rest;
    var m1 := ReadTok(m).m;
    Exp0Str(m1);
    StepNameCorrect(e.up, e.x, m1, rest);
  }

  lemma RunUnary(e: Expr, m: State, rest: seq<Token>)
    requires e.Unary? && WellFormed(e) && Follows(rest, 14) && Ready(m, TokensOf(e) + rest)
    ensures Agrees(Run(14, m), Expected(e, m), m, rest)
    decreases MAX_DEPTH - m.depth, 2, e, 1
  {
    hide ReadTok, LexFrom, ExpUnary, Expected, WellFormed;
    FollowsOperator(rest, 14);
    var ts := [Sym(UnaryKind(e.uop))] + (TokensOf(e.operand) + rest);
    assert TokensOf(e) + rest == ts;
    ReadReady(m, ts);
    var m1 := ReadTok(m).m;
    UnaryParts(e, m, m1);
    AheadReady(m1, ts);
    assert ts[1..] == TokensOf(e.operand) + rest;
    RunCorrect(14, e.operand, m1, rest);
    var r := Run(14, m1);
    if r.Ok? {
      AgreesOk(e.operand, m1, r, rest);
      AheadOperator(r.m, Num, rest);
    }
    ExpUnaryUnfold(m1, e.uop);
  }

  lemma UnaryParts(e: Expr, m: State, m1: State)
    requires e.Unary? && WellFormed(e) && m.depth <= MAX_DEPTH
    requires m1.depth == m.depth && m1.noeval == m.noeval && m1.store == m.store
    ensures WellFormed(e.operand) && Level(e.operand) >= 14 && UnaryOf(UnaryKind(e.uop)) == Some(e.uop)
    ensures Expected(e, m) == if m.noeval > 0 then Expected(e.operand, m1) else
                var (v, st) :- Expected(e.operand, m1); Value(ComputeUnary(e.uop, v), st)
  {
  }

  lemma RunPow(e: Expr, m: State, rest: seq<Token>)
    requires e.Pow? && WellFormed(e) && Follows(rest, 13) && Ready(m, TokensOf(e) + rest)
    ensures Agrees(Run(13, m), Expected(e, m), m, rest)
    decreases MAX_DEPTH - m.depth, 2, e, 1
  {
    hide ReadTok, LexFrom, ExpUnary, ExpPower, PowerLoop, Expected, WellFormed, TokensOf, Run, Power, Agrees, Reached;
    FollowsOperator(rest, 13);
    var rest' := [Sym(PowerOp)] + (TokensOf(e.exponent) + rest);
    PowParts(e);
    assert TokensOf(e) + rest == TokensOf(e.base) + rest' by {
      Associate3(TokensOf(e.base), [Sym(PowerOp)], TokensOf(e.exponent), rest);
    }
    RunCorrect(14, e.base, m, rest');
    var l := Run(14, m);
    RunPowerUnfold(m);
    if l.Ok? {
      AgreesOk(e.base, m, l, rest');
      assert rest'[1..] == TokensOf(e.exponent) + rest;
      RunCorrect(13, e.exponent, l.m, rest);
      PowCorrect(e, l.v, m, l.m, Run(13, l.m), rest);
    } else {
      BaseFails(e, m, l, rest, rest');
    }
  }

  lemma BaseFails(e: Expr, m: State, l: Result, rest: seq<Token>, rest': seq<Token>)
    requires e.Pow? && m.depth <= MAX_DEPTH && l.Err? && Agrees(l, Expected(e.base, m), m, rest')
    ensures Agrees(l, Expected(e, m), m, rest)
  {
    hide Ahead;
  }

  /** The power of the value of the base and the value of the exponent. */
  lemma PowCorrect(e: Expr, v: intmax, m0: State, m: State, r: Result, rest: seq<Token>)
    requires e.Pow? && Follows(rest, 13) && Valid(m) && m.cur == PowerOp && r == Run(13, m)
    requires m0.depth == m.depth && m0.noeval == m.noeval && Reached(Expected(e.base, m0), v, m)
    requires Agrees(r, Expected(e.exponent, m), m, rest)
    ensures Agrees(PowerLoop(v, m), Expected(e, m0), m0, rest)
  {
    hide ReadTok, LexFrom, PowerLoop, Expected, Run, Power, Ahead;
    FollowsOperator(rest, 13);
    PowExpected(e, v, m0, m);
    PowerLoopUnfold(v, m);
    if r.Ok? {
      AgreesOk(e.exponent, m, r, rest);
      AheadOperator(r.m, Num, rest);
      PowerLoopEnds(1, r.m.(last := Num));
      if r.v >= 0 {
        PowerLoopEnds(Wrap(Power(v, r.v)), r.m.(last := Num));
        if r.v == 0 {
          PowerZero(v);
        }
      }
    }
  }

  lemma PowerZero(a: int)
    ensures Wrap(Power(a, 0)) == 1
  {
  }

  lemma PowParts(e: Expr)
    requires e.Pow? && WellFormed(e)
    ensures WellFormed(e.base) && Level(e.base) >= 14 && WellFormed(e.exponent) && Level(e.exponent) >= 13
    ensures TokensOf(e) == TokensOf(e.base) + [Sym(PowerOp)] + TokensOf(e.exponent)
  {
  }

  lemma PowExpected(e: Expr, v: intmax, m0: State, m: State)
    requires e.Pow? && m0.depth <= MAX_DEPTH
    requires m0.depth == m.depth && m0.noeval == m.noeval && Reached(Expected(e.base, m0), v, m)
    ensures Expected(e, m0) == if m.noeval > 0 then Expected(e.exponent, m) else
                var (b, st) :- Expected(e.exponent, m);
                if b < 0 then Failure(NegativeExponent, st) else Value(Wrap(Power(v, b)), st)
  {
    hide Power;
  }

  /** An operand never begins with the end of the text or with a colon. */
  lemma ReadFirst(e: Expr, m: State, rest: seq<Token>)
    requires WellFormed(e) && Ready(m, TokensOf(e) + rest)
    ensures ReadTok(m).Ok? ==> ReadTok(m).m.cur !in {End, Colon}
  {
    hide LexFrom, ReadTok, Scan, WellFormed, TokensOf;
    FirstToken(e);
    ReadKind(m);
    LexUnfold(m.text, m.tp, ScanPrev(m.cur, m.last));
    assert Unread(m)[0] == TokensOf(e)[0];
  }

  lemma CondParts(e: Expr, rest: seq<Token>)
    requires e.Conditional? && WellFormed(e)
    ensures WellFormed(e.test) && WellFormed(e.yes) && WellFormed(e.no) && Level(e.test) >= 3 && Level(e.no) >= 2
    ensures var restN := [Sym(Colon)] + (TokensOf(e.no) + rest);
            var restY := [Sym(Quest)] + (TokensOf(e.yes) + restN);
            TokensOf(e) + rest == TokensOf(e.test) + restY
  {
    assert TokensOf(e) == TokensOf(e.test) + [Sym(Quest)] + TokensOf(e.yes) + [Sym(Colon)] + TokensOf(e.no);
    hide TokensOf;
    var restN := [Sym(Colon)] + (TokensOf(e.no) + rest);
    Associate3(TokensOf(e.test), [Sym(Quest)], TokensOf(e.yes), restN);
    Associate3(TokensOf(e.test) + [Sym(Quest)] + TokensOf(e.yes), [Sym(Colon)], TokensOf(e.no), rest);
  }

  lemma RunConditional(e: Expr, m: State, rest: seq<Token>)
    requires e.Conditional? && WellFormed(e) && Follows(rest, 2) && Ready(m, TokensOf(e) + rest)
    ensures Agrees(Run(2, m), Expected(e, m), m, rest)
    decreases MAX_DEPTH - m.depth, 2, e, 1
  {
    hide ReadTok, LexFrom, Expected, WellFormed, TokensOf, Run, CondStep, CondTail, Agrees, Ahead, Reached;
    var restN := [Sym(Colon)] + (TokensOf(e.no) + rest);
    var restY := [Sym(Quest)] + (TokensOf(e.yes) + restN);
    CondParts(e, rest);
    RunCorrect(3, e.test, m, restY);
    RunCondUnfold(m);
    var t := Run(3, m);
    if t.Ok? {
      AgreesOk(e.test, m, t, restY);
      assert restY[1..] == TokensOf(e.yes) + restN;
      BranchesCorrect(e, t.v, m, t.m, rest);
    } else {
      TestFails(e, m, t, rest, restY);
    }
  }

  lemma TestFails(e: Expr, m: State, t: Result, rest: seq<Token>, restY: seq<Token>)
    requires e.Conditional? && m.depth <= MAX_DEPTH && t.Err?
    requires Agrees(t, Expected(e.test, m), m, restY)
    ensures Agrees(t, Expected(e, m), m, rest)
  {
    hide Ahead;
  }

  /** The branch not taken runs suppressed, the branch taken gives the value. */
  lemma BranchesCorrect(e: Expr, c: intmax, m0: State, m: State, rest: seq<Token>)
    requires e.Conditional? && WellFormed(e) && Follows(rest, 2) && m.cur == Quest
    requires m0.depth == m.depth && m0.noeval == m.noeval && m.depth <= MAX_DEPTH
    requires Reached(Expected(e.test, m0), c, m)
    requires Ready(m, TokensOf(e.yes) + ([Sym(Colon)] + (TokensOf(e.no) + rest)))
    ensures Agrees(CondTail(c, m), Expected(e, m0), m0, rest)
    decreases MAX_DEPTH - m.depth, 2, e, 0
  {
    hide ReadTok, LexFrom, WellFormed, TokensOf, Run, CondStep, CondTail, Ahead, Expected, Agrees, Reached;
    var restN := [Sym(Colon)] + (TokensOf(e.no) + rest);
    CondParts(e, rest);
    var q := Suppress(m, c == 0);
    RunCorrect(0, e.yes, q, restN);
    ReadFirst(e.yes, q, restN);
    var y := Run(0, q);
    if y.Ok? {
      AgreesOk(e.yes, q, y, restN);
      assert restN[1..] == TokensOf(e.no) + rest;
      var p := Suppress(Resume(y.m, c == 0), c != 0);
      assert Ready(p, TokensOf(e.no) + rest);
      RunCorrect(2, e.no, p, rest);
      ReadFirst(e.no, p, rest);
      var n := Run(2, p);
      SecondBranch(e, c, m0, m, y, n, rest);
    } else {
      FirstBranchFails(e, c, m0, m, y, rest, restN);
    }
    CondTailStep(c, m);
    CondStepUnfold(c, m);
  }

  lemma FirstBranchFails(e: Expr, c: intmax, m0: State, m: State, y: Result, rest: seq<Token>, restN: seq<Token>)
    requires e.Conditional? && m0.depth == m.depth && m0.noeval == m.noeval && m.depth <= MAX_DEPTH
    requires Reached(Expected(e.test, m0), c, m)
    requires y.Err? && Agrees(y, Expected(e.yes, Suppress(m, c == 0)), Suppress(m, c == 0), restN)
    ensures Agrees(y, Expected(e, m0), m0, rest)
  {
    hide Ahead;
  }

  lemma SecondBranch(e: Expr, c: intmax, m0: State, m: State, y: Result, n: Result, rest: seq<Token>)
    requires e.Conditional? && Follows(rest, 2)
    requires m0.depth == m.depth && m0.noeval == m.noeval && m.depth <= MAX_DEPTH
    requires Reached(Expected(e.test, m0), c, m)
    requires var q := Suppress(m, c == 0); y.Ok? && Keeps(q, y) && Reached(Expected(e.yes, q), y.v, y.m)
    requires var p := Suppress(Resume(y.m, c == 0), c != 0);
             Keeps(p, n) && Agrees(n, Expected(e.no, p), p, rest)
    ensures Agrees(if n.Err? then n else Ok(if c != 0 then y.v else n.v, Resume(n.m, c != 0).(last := CondMark)),
                   Expected(e, m0), m0, rest)
  {
    hide Ahead;
    FollowsOperator(rest, 2);
    if n.Ok? {
      AheadStays(n.m, rest);
    }
  }

  // ---------------------------------------------------------------- assignment

  /** The name about to be assigned is not read. */
  lemma ReadTarget(m: State, x: string, rest: seq<Token>)
    requires Valid(m) && !IsPre(m.cur) && !IsPre(m.last)
    requires Unread(m) == [Name(x)] + rest && |rest| > 0 && rest[0] == Sym(Eq)
    ensures ReadTok(m).Ok? && OnName(ReadTok(m).m, m, x, rest) && ReadTok(m).m.store == m.store
  {
    hide ReadTok, StreVal, Scan;
    var sc := Scan(m.text, m.tp, ScanPrev(m.cur, m.last));
    LexUnfold(m.text, m.tp, ScanPrev(m.cur, m.last));
    assert Unread(m)[1..] == rest;
    Peek(m, sc.next);
    ReadNameUnfold(m, x);
  }

  /** A lone name climbs through the levels untouched up to the assignment. */
  lemma {:induction false} NameClimbs(k: nat, m: State, rest: seq<Token>)
    requires Valid(m) && 2 <= k <= 15 && m.cur == Str && Looser(rest, 2)
    requires Exp0(m).Ok? && Ahead(Exp0(m).m, rest)
    ensures Exp(k, m) == Exp0(m)
    decreases 15 - k
  {
    hide ReadTok, LexFrom, Exp0;
    if k < 15 {
      NameClimbs(k + 1, m, rest);
      DescendExp(k, m, Exp0(m), rest);
    } else {
      ExpOperand(m);
    }
  }

  lemma AssignParts(e: Expr, rest: seq<Token>)
    requires e.Assign? && WellFormed(e)
    ensures WellFormed(e.rhs) && Level(e.rhs) >= 1 && e.target != ""
    ensures TokensOf(e) + rest == [Name(e.target)] + ([AssignToken(e.aop)] + (TokensOf(e.rhs) + rest))
  {
  }

  /** The outcome of an assignment from its operator on: the right side has the outcome `rhs`, the operation
      applies to `v`, and the result is bound. */
  function Completed(x: string, aop: Option<BinOp>, v: intmax, rhs: Outcome, noeval: nat): Outcome {
    var (b, st) :- rhs;
    if noeval > 0 then Value(b, st)
    else
      match aop
      case None => Assigned(st, x, b, b)
      case Some(op) =>
        match Compute(op, v, b)
        case None => Failure(DivisionByZero, st)
        case Some(w) => Assigned(st, x, w, w)
  }

  lemma AssignExpected(e: Expr, v: intmax, m0: State, m: State)
    requires e.Assign? && m0.depth == m.depth && m0.noeval == m.noeval && m.depth <= MAX_DEPTH
    requires if e.aop.None? then m.store == m0.store
             else ExpectedName(e.target, m0) == Value(v, m.store)
    ensures Agreeing(Expected(e, m0), Completed(e.target, e.aop, v, Expected(e.rhs, m), m.noeval), m.noeval)
  {
    hide Compute, EvalText;
  }

  /** The same outcome; while suppressed values do not matter. */
  predicate Agreeing(ref: Outcome, ref': Outcome, noeval: nat) {
    ref == ref' || (noeval > 0 && ref.Value? && ref'.Value? && ref.store == ref'.store)
  }

  lemma AgreesWith(r: Result, ref: Outcome, ref': Outcome, m: State, m': State, rest: seq<Token>)
    requires Agrees(r, ref', m', rest) && Agreeing(ref, ref', m.noeval) && m.noeval == m'.noeval
    ensures Agrees(r, ref, m, rest)
  {
    hide Ahead;
  }

  lemma RunAssign(e: Expr, m: State, rest: seq<Token>)
    requires e.Assign? && WellFormed(e) && Follows(rest, 1) && Ready(m, TokensOf(e) + rest)
    ensures Agrees(Run(1, m), Expected(e, m), m, rest)
    decreases MAX_DEPTH - m.depth, 2, e, 1
  {
    hide ReadTok, LexFrom, Expected, ExpectedName, WellFormed, TokensOf, Exp0, Exp, ExpCond, ExpAssign, AssignTail,
      Completed;
    var rest' := [AssignToken(e.aop)] + (TokensOf(e.rhs) + rest);
    AssignParts(e, rest);
    if e.aop.None? {
      ReadTarget(m, e.target, rest');
    } else {
      ReadName(m, e.target, rest');
    }
    if ReadTok(m).Ok? {
      var m1 := ReadTok(m).m;
      Exp0Name(m1, rest');
      NameClimbs(2, m1, rest');
      ExpOperand(m1);
      ExpAssignUnfold(m1);
      var c := Exp0(m1);
      AheadReady(c.m, rest');
      assert rest'[1..] == TokensOf(e.rhs) + rest;
      AssignExpected(e, c.v, m, c.m);
      AssignCorrect(e.target, e.aop, e.rhs, c.v, c.m, rest);
      var done := Completed(e.target, e.aop, c.v, Expected(e.rhs, c.m), c.m.noeval);
      AgreesWith(AssignTail(c.v, c.m), Expected(e, m), done, m, c.m, rest);
    } else {
      TargetFails(e, m, ReadTok(m), rest);
    }
  }

  lemma TargetFails(e: Expr, m: State, r: Result, rest: seq<Token>)
    requires e.Assign? && e.aop.Some? && m.depth <= MAX_DEPTH && r.Err? && HoldsName(r, ExpectedName(e.target, m))
    ensures Agrees(r, Expected(e, m), m, rest)
  {
    hide EvalText;
  }

  /** From the assignment operator on: the right side is evaluated, then the target is bound. */
  lemma AssignCorrect(x: string, aop: Option<BinOp>, rhs: Expr, v: intmax, m: State, rest: seq<Token>)
    requires WellFormed(rhs) && Level(rhs) >= 1 && x != "" && Follows(rest, 1)
    requires Ready(m, TokensOf(rhs) + rest) && Head(m, AssignToken(aop)) && m.tokstr == Some(x)
    ensures Agrees(AssignTail(v, m), Completed(x, aop, v, Expected(rhs, m), m.noeval), m, rest)
    decreases MAX_DEPTH - m.depth, 2, rhs, 60
  {
    hide LexFrom, Expected, WellFormed, TokensOf, Run, Compute, BindStep, BinStep, Agrees, Completed;
    RunCorrect(1, rhs, m, rest);
    var r := Run(1, m);
    if r.Ok? {
      AgreesOk(rhs, m, r, rest);
      FollowsOperator(rest, 1);
      forall st
        ensures Ahead(r.m.(store := st).(tokstr := None), rest)
      {
        AheadUnnamed(r.m, r.m.(store := st).(tokstr := None), rest);
      }
    }
    AssignEnds(x, aop, v, m, r, Expected(rhs, m), rest);
  }

  lemma AssignEnds(x: string, aop: Option<BinOp>, v: intmax, m: State, r: Result, ref: Outcome, rest: seq<Token>)
    requires Valid(m) && r == Run(1, m) && x != "" && Head(m, AssignToken(aop)) && m.tokstr == Some(x)
    requires Agrees(r, ref, m, rest)
    requires r.Ok? ==> forall st :: Ahead(r.m.(store := st).(tokstr := None), rest)
    ensures Agrees(AssignTail(v, m), Completed(x, aop, v, ref, m.noeval), m, rest)
  {
    hide Run, Ahead, Compute;
    if r.Ok? {
      BinStepMeans(m.assignTok, v, r.v, r.m.noeval);
      var value := if m.cur == OpAssign then BinStep(m.assignTok, v, r.v, r.m.noeval) else Some(r.v);
      assert Ahead(r.m.(store := r.m.store).(tokstr := None), rest);
      if value.Some? {
        StepBinds(x, value.value, r.m);
      }
    }
  }

  // ---------------------------------------------------------------- a remainder in front of op=

  /** From `%` up to the assignment, a result in front of `op=` passes through every level. */
  lemma {:induction false} Climbs(k: nat, m: State, rest: seq<Token>)
    requires Valid(m) && 2 <= k <= 12 && Looser(rest, 2)
    requires Exp(12, m).Ok? ==> Ahead(Exp(12, m).m, rest)
    ensures Exp(k, m) == Exp(12, m)
    decreases 12 - k
  {
    hide ReadTok, LexFrom, Exp;
    if k < 12 {
      Climbs(k + 1, m, rest);
      DescendExp(k, m, Exp(12, m), rest);
    }
  }

  lemma RunClimbs(m: State, rest: seq<Token>)
    requires Valid(m) && Looser(rest, 2)
    requires Run(12, m).Ok? ==> Ahead(Run(12, m).m, rest)
    ensures Run(2, m) == Run(12, m)
  {
    hide ReadTok, LexFrom, Exp;
    if ReadTok(m).Ok? {
      Climbs(2, ReadTok(m).m, rest);
    }
  }

  lemma RemainderParts(e: Expr, rest: seq<Token>)
    requires e.Remainder? && WellFormed(e)
    ensures WellFormed(e.dividend) && Level(e.dividend) >= 12 && IsName(e.target) && e.target != ""
    ensures WellFormed(e.rhs) && Level(e.rhs) >= 1
    ensures TokensOf(e) + rest == TokensOf(e.dividend)
                                  + ([Sym(Bin(Mod))] + ([Name(e.target)] + ([OpAsg(e.rop)] + (TokensOf(e.rhs) + rest))))
  {
    var l, x, op, r := e.dividend, e.target, e.rop, e.rhs;
    assert TokensOf(e) == TokensOf(l) + [Sym(Bin(Mod)), Name(x), OpAsg(op)] + TokensOf(r);
    hide TokensOf, IsName, AssignableOp;
    assert [Sym(Bin(Mod)), Name(x), OpAsg(op)] + (TokensOf(r) + rest)
        == [Sym(Bin(Mod))] + ([Name(x)] + ([OpAsg(op)] + (TokensOf(r) + rest)));
    Associate3(TokensOf(l), [Sym(Bin(Mod)), Name(x), OpAsg(op)], TokensOf(r), rest);
  }

  /** A name at the level behind `%`. */
  lemma RunName(x: string, m: State, rest: seq<Token>)
    requires IsName(x) && Follows(rest, 13) && Ready(m, [Name(x)] + rest)
    ensures Agrees(Run(13, m), Expected(Var(x), m), m, rest)
    ensures NameKept(Var(x), m, Run(13, m))
    decreases MAX_DEPTH - m.depth, 1, 2
  {
    hide Run, Expected, LexFrom, Agrees;
    RunVar(Var(x), m, rest);
    Descend(14, Var(x), m, rest);
    Descend(13, Var(x), m, rest);
  }

  /** The result of `dividend % target` when `op=` is still to come: an error, or the value 0 with the name kept,
      or a value with the name forgotten. */
  ghost predicate RemainderRead(e: Expr, m0: State, t: Result, target: seq<Token>, rest: seq<Token>)
    requires e.Remainder? && m0.depth <= MAX_DEPTH
  {
    match t
    case Err(_, _) => Agrees(t, Expected(e, m0), m0, rest)
    case Ok(v, m) =>
      && Ahead(m, target) && m.depth == m0.depth && m.noeval == m0.noeval
      && if m.last == Str then
           && v == 0 && m.tokstr == Some(e.target)
           && Expected(e, m0) == Completed(e.target, Some(e.rop), 0, Expected(e.rhs, m), m.noeval)
         else Expected(e, m0) == Failure(Syntax, m.store)
  }

  lemma DividendFails(e: Expr, m: State, l: Result, rest: seq<Token>, rest': seq<Token>)
    requires e.Remainder? && m.depth <= MAX_DEPTH && l.Err? && Agrees(l, Expected(e.dividend, m), m, rest')
    ensures Agrees(l, Expected(e, m), m, rest)
  {
    hide Ahead, Compute;
  }

  lemma RemainderComputed(e: Expr, v: intmax, m0: State, m: State, r2: Result, target: seq<Token>, rest: seq<Token>)
    requires e.Remainder? && Valid(m) && |target| > 0 && Operator(target[0])
    requires m0.depth == m.depth && m0.noeval == m.noeval && Reached(Expected(e.dividend, m0), v, m)
    requires Keeps(m, r2) && Agrees(r2, Expected(Var(e.target), m), m, target) && NameKept(Var(e.target), m, r2)
    ensures RemainderRead(e, m0, Finish(Binary(Mod, e.dividend, Var(e.target)), v, r2), target, rest)
  {
    hide Ahead, EvalText;
    if r2.Ok? {
      AheadStays(r2.m, target);
      assert Ahead(r2.m.(noeval := r2.m.noeval).(last := Num), target);
    }
  }

  /** `dividend % target` runs up to the level of assignment. */
  lemma RunDividend(e: Expr, m: State, rest: seq<Token>)
    requires e.Remainder? && WellFormed(e) && Follows(rest, 1) && Ready(m, TokensOf(e) + rest)
    ensures RemainderRead(e, m, Run(2, m), [OpAsg(e.rop)] + (TokensOf(e.rhs) + rest), rest)
    decreases MAX_DEPTH - m.depth, 2, e, 0
  {
    hide LexFrom, Expected, WellFormed, TokensOf, Run, Loop, Turn, ReadTok, Agrees, Reached, Finish, RemainderRead,
      IsName;
    var target := [OpAsg(e.rop)] + (TokensOf(e.rhs) + rest);
    var rest' := [Sym(Bin(Mod))] + ([Name(e.target)] + target);
    RemainderParts(e, rest);
    var l := Spine(12, e.dividend, m, rest');
    if l.Err? {
      LoopStops(12, l);
      RunClimbs(m, target);
      DividendFails(e, m, l, rest, rest');
      FailedRead(e, m, l, target, rest);
    } else {
      AgreesOk(e.dividend, m, l, rest');
      assert rest'[1..] == [Name(e.target)] + target;
      RunName(e.target, l.m, target);
      RemainderRuns(e, l.v, m, l.m, target, rest);
    }
  }

  lemma FailedRead(e: Expr, m: State, l: Result, target: seq<Token>, rest: seq<Token>)
    requires e.Remainder? && m.depth <= MAX_DEPTH && l.Err? && Agrees(l, Expected(e, m), m, rest)
    ensures RemainderRead(e, m, l, target, rest)
  {
    hide Ahead, Expected;
  }

  lemma RemainderRuns(e: Expr, v: intmax, m0: State, m: State, target: seq<Token>, rest: seq<Token>)
    requires e.Remainder? && Valid(m0) && Valid(m) && m.cur == Bin(Mod) && |target| > 0 && target[0].OpAsg?
    requires m0.depth == m.depth && m0.noeval == m.noeval && Reached(Expected(e.dividend, m0), v, m)
    requires Run(12, m0) == Loop(12, Ok(v, m))
    requires Agrees(Run(13, m), Expected(Var(e.target), m), m, target) && NameKept(Var(e.target), m, Run(13, m))
    ensures RemainderRead(e, m0, Run(2, m0), target, rest)
  {
    hide LexFrom, Expected, Run, Loop, Turn, Agrees, Reached, Finish, NameKept;
    var x := Binary(Mod, e.dividend, Var(e.target));
    LoopTurn(x, v, m);
    RemainderComputed(e, v, m0, m, Run(13, m), target, rest);
    TurnFinishes(x, v, m);
    var t := Turn(x, v, m);
    if t.Ok? {
      TargetHead(t.m, target);
    }
    LoopStops(12, t);
    RunClimbs(m0, target);
  }

  lemma TurnFinishes(e: Expr, v: intmax, m: State)
    requires Valid(m) && e.Binary? && e.op == Mod
    ensures Turn(e, v, m) == Finish(e, v, Run(13, m))
  {
    hide Run, Finish;
  }

  lemma TargetHead(m: State, target: seq<Token>)
    requires Ahead(m, target) && target[0].OpAsg?
    ensures Head(m, target[0]) && Operator(target[0]) && TokenLevel(target[0]) < 12
  {
    hide LexFrom;
  }

  lemma RunRemainder(e: Expr, m: State, rest: seq<Token>)
    requires e.Remainder? && WellFormed(e) && Follows(rest, 1) && Ready(m, TokensOf(e) + rest)
    ensures Agrees(Run(1, m), Expected(e, m), m, rest)
    decreases MAX_DEPTH - m.depth, 2, e, 1
  {
    hide LexFrom, Expected, WellFormed, TokensOf, Run, AssignTail, Completed;
    RunDividend(e, m, rest);
    RunAssignUnfold(m);
    RemainderParts(e, rest);
    var target := [OpAsg(e.rop)] + (TokensOf(e.rhs) + rest);
    var t := Run(2, m);
    if t.Ok? && t.m.last == Str {
      AheadReady(t.m, target);
      assert target[1..] == TokensOf(e.rhs) + rest;
      AssignCorrect(e.target, Some(e.rop), e.rhs, 0, t.m, rest);
    }
  }
}
