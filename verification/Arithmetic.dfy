/** What the one-pass evaluator is for: its results on whole texts, against the precedence tree. */
module Arithmetic {
  import opened Integers
  import opened Text
  import opened Numbers
  import opened Options
  import opened Tokens
  import opened Trees
  import opened Machine
  import opened Reading
  import opened Levels
  import opened EvalCorrect
  import opened Spelling
  import opened Grammar

  /** The evaluator's result on a text is the reference outcome. */
  predicate Matches(r: Result, ref: Outcome) {
    match ref
    case Value(v, st) => r.Ok? && r.v == v && r.m.store == st
    case Failure(e, st) => r == Err(e, st)
    case Malformed => r.Err?
  }

  /** At the top of a text: no suppression, and room for one more text. */
  predicate AtTop(m: State) {
    Valid(m) && m.noeval == 0 && m.depth < MAX_DEPTH
  }

  lemma TreeNotBlank(e: Expr, s: string)
    requires IsTreeOf(e, s)
    ensures !BlankText(s)
  {
    hide TokensOf, WellFormed, SkipBlank, ScanOperator;
    LexUnfold(s, 0, AfterOther);
    FirstToken(e);
    assert Lex(s)[0] == TokensOf(e)[0];
  }

  /** For every tree of a text: evaluating while reading gives the value, the assignments and the error of
      evaluating the tree. */
  lemma {:induction false} OnePassIsTreeEvaluation(e: Expr, s: string, m: State)
    requires AtTop(m) && IsTreeOf(e, s)
    ensures Matches(SubExpr(s, m), Eval(e, m.store, m.depth + 1))
  {
    hide LexFrom, TokensOf, WellFormed, Eval, Run, Agrees, SkipBlank, SubExpr;
    TreeNotBlank(e, s);
    var m0 := Entered(s, m);
    RunCorrect(0, e, m0, [Sym(End)]);
    TextEnds(s, m, Eval(e, m.store, m.depth + 1));
  }

  /** Every tree is evaluated so, on the text that spells it. */
  lemma {:induction false} EveryTreeIsEvaluated(e: Expr, m: State)
    requires AtTop(m) && WellFormed(e)
    ensures Matches(SubExpr(TextOf(e), m), Eval(e, m.store, m.depth + 1))
  {
    hide SubExpr, Eval, WellFormed, SpellAll, IsTreeOf;
    TreeOfItsText(e);
    OnePassIsTreeEvaluation(e, TextOf(e), m);
  }

  /** Every text is evaluated so: blank texts, texts with a tree and texts without one. */
  lemma {:induction false} EveryTextIsEvaluated(s: string, m: State)
    requires Valid(m) && m.noeval == 0
    ensures Matches(SubExpr(s, m), EvalText(s, m.store, m.depth))
  {
    hide SubExpr, EvalText;
    TextCorrect(s, m);
  }

  /** A text evaluates normally exactly when the reference has a value for it, and then it has one tree: a tree
      of the documented grammar unless the text contains `% name op=`. */
  lemma {:induction false} AcceptedExactly(s: string, m: State)
    requires Valid(m) && m.noeval == 0
    ensures SubExpr(s, m).Ok? <==> EvalText(s, m.store, m.depth).Value?
    ensures SubExpr(s, m).Ok? && !BlankText(s) ==> HasTree(s) && (Regular(TreeOf(s)) <==> !Forgetful(Lex(s)))
  {
    hide SubExpr, Eval, HasTree, Lex, SkipBlank, Forgetful, Regular;
    EveryTextIsEvaluated(s, m);
    if HasTree(s) {
      RegularExactly(TreeOf(s), s);
    }
  }

  // ---------------------------------------------------------------- reading back what was assigned

  lemma LexDigits(d: string)
    requires |d| > 0 && forall k :: 0 <= k < |d| ==> IsDigit(d[k])
    requires NumberValue(d).Some?
    ensures LexFrom(d, 0, AfterOther) == [Number(NumberValue(d).value), Sym(End)]
  {
    hide NumberValue;
    assert d + "" == d;
    Spelling.ScanNumber(d, "", AfterOther);
    LexUnfold(d, 0, AfterOther);
    LexUnfold(d, |d|, AfterOther);
    assert Scan(d, |d|, AfterOther) == Scanned(Sym(End), |d|);
  }

  lemma LexItos(v: intmax)
    ensures Lex(Itos(v)) == if v >= 0 then [Number(v), Sym(End)] else [Sym(Bin(Sub)), Number(Wrap(0 - v)), Sym(End)]
  {
    var n := if v >= 0 then v else 0 - v;
    DecimalValueOf(n);
    LexDigits(Decimal(n));
    if v < 0 {
      var s := Itos(v);
      assert s == "-" + Decimal(n);
      LexMinus(Decimal(n));
    }
  }

  lemma ScanMinus(d: string)
    requires |d| > 0 && IsDigit(d[0])
    ensures Scan("-" + d, 0, AfterOther) == Scanned(Sym(Bin(Sub)), 1)
  {
    hide LexFrom, NumberValue, NameEnd, NumberSpan;
    var s := "-" + d;
    assert s[0] == '-' && At(s, 1) == d[0];
    assert SkipBlank(s, 0) == 0;
  }

  lemma LexMinus(d: string)
    requires |d| > 0 && IsDigit(d[0])
    ensures Lex("-" + d) == [Sym(Bin(Sub))] + LexFrom(d, 0, AfterOther)
  {
    hide LexFrom, Scan;
    ScanMinus(d);
    LexAfter("-", d, Sym(Bin(Sub)));
  }

  lemma LexAfter(p: string, q: string, t: Token)
    requires Scan(p + q, 0, AfterOther) == Scanned(t, |p|) && !LastToken(t) && NextPrev(AfterOther, t) == AfterOther
    ensures LexFrom(p + q, 0, AfterOther) == [t] + LexFrom(q, 0, AfterOther)
  {
    hide Scan;
    LexShift(p, q, 0, AfterOther);
  }

  lemma ItosNotBlank(v: intmax)
    ensures !BlankText(Itos(v))
  {
    hide Decimal;
    var s := Itos(v);
    assert s[0] == '-' || IsDigit(s[0]);
    assert SkipBlank(s, 0) == 0;
  }

  lemma ItosTree(v: intmax)
    ensures HasTree(Itos(v))
    ensures TreeOf(Itos(v)) == if v >= 0 then Lit(v) else Unary(Negate, Lit(Wrap(0 - v)))
  {
    var s := Itos(v);
    LexItos(v);
    var e := if v >= 0 then Lit(v) else Unary(Negate, Lit(Wrap(0 - v)));
    assert TokensOf(e) + [Sym(End)] == Lex(s);
    assert Level(Lit(Wrap(0 - v))) == 15;
    assert IsTreeOf(e, s);
    Unambiguous(e, TreeOf(s), s);
  }

  /** Reading the text an assignment has stored gives the assigned value, the smallest integer included. */
  lemma ReadBack(v: intmax, st: Store, depth: nat)
    requires depth < MAX_DEPTH
    ensures EvalText(Itos(v), st, depth) == Value(v, st)
  {
    hide HasTree, Lex, Itos, SkipBlank;
    ItosNotBlank(v);
    ItosTree(v);
    if v >= 0 {
      assert Eval(Lit(v), st, depth + 1) == Value(v, st);
    } else {
      assert Eval(Unary(Negate, Lit(Wrap(0 - v))), st, depth + 1) == Value(Wrap(0 - Wrap(0 - v)), st);
      assert Wrap(0 - Wrap(0 - v)) == v;
    }
  }

  /** A variable just assigned has the assigned value. */
  lemma ReadAfterBind(x: string, v: intmax, st: Store, depth: nat)
    requires depth < MAX_DEPTH && x !in st.readonly
    ensures Bind(st, x, v).Some?
    ensures var st' := Bind(st, x, v).value; Eval(Var(x), st', depth) == Value(v, st')
  {
    hide EvalText, Itos;
    ReadBack(v, Bind(st, x, v).value, depth);
  }

  // ---------------------------------------------------------------- endless variables

  lemma NameTree(x: string)
    requires IsName(x)
    ensures !BlankText(x) && HasTree(x) && TreeOf(x) == Var(x)
  {
    hide ScanOperator, NumberValue;
    assert SkipBlank(x, 0) == 0;
    NameEndAll(x, 0);
    assert x[0..|x|] == x;
    assert Scan(x, 0, AfterOther) == Scanned(Name(x), |x|);
    LexUnfold(x, 0, AfterOther);
    LexUnfold(x, |x|, AfterName);
    assert Scan(x, |x|, AfterName) == Scanned(Sym(End), |x|);
    assert Lex(x) == [Name(x)] + [Sym(End)];
    assert IsTreeOf(Var(x), x);
    Unambiguous(Var(x), TreeOf(x), x);
  }

  lemma {:induction false} NameEndAll(x: string, i: nat)
    requires IsName(x) && i <= |x|
    ensures NameEnd(x, i) == |x|
    decreases |x| - i
  {
    if i < |x| {
      NameEndAll(x, i + 1);
    }
  }

  /** A variable whose text is its own name is read 1024 times and then refused; nothing is assigned. */
  lemma {:induction false} SelfReference(x: string, st: Store, depth: nat)
    requires depth <= MAX_DEPTH && IsName(x) && Lookup(st, x) == x
    ensures EvalText(x, st, depth) == Failure(TooDeep, st)
    decreases MAX_DEPTH - depth
  {
    hide IsName, SkipBlank, HasTree;
    NameTree(x);
    if depth < MAX_DEPTH {
      SelfReference(x, st, depth + 1);
      assert Eval(Var(x), st, depth + 1) == EvalText(x, st, depth + 1);
    }
  }

  // ---------------------------------------------------------------- a remainder in front of op=

  /** The dividend is the smallest integer, the name holds -1, and the operation on 0 and the right side can be
      done and stored. */
  ghost predicate Overwrites(e: Expr, st: Store, depth: nat)
    requires e.Remainder? && depth <= MAX_DEPTH
  {
    var a := Eval(e.dividend, st, depth);
    && a.Value? && a.v == INTMAX_MIN
    && var b := EvalText(Lookup(a.store, e.target), a.store, depth);
    && b.Value? && b.v == -1
    && var c := Eval(e.rhs, b.store, depth);
    && c.Value? && Compute(e.rop, 0, c.v).Some? && e.target !in c.store.readonly
  }

  /** `dividend % name op= rhs` is no expression of the documented grammar, and is accepted exactly in this case. */
  lemma {:induction false} RemainderAccepted(e: Expr, s: string, m: State)
    requires AtTop(m) && e.Remainder? && IsTreeOf(e, s)
    ensures SubExpr(s, m).Ok? <==> Overwrites(e, m.store, m.depth + 1)
    ensures forall e' :: IsTreeOf(e', s) ==> !Regular(e')
  {
    hide SubExpr, EvalText, Compute, IsTreeOf;
    OnePassIsTreeEvaluation(e, s, m);
    forall e' | IsTreeOf(e', s)
      ensures !Regular(e')
    {
      Unambiguous(e, e', s);
    }
  }

  /** For instance `9223372036854775808 % x += 5` with x holding -1: it sets x to 5. */
  lemma {:induction false} RemainderAssignsExample(m: State)
    requires m == State("", 0, End, End, Add, 0, None, 0, 0, Store(map["x" := Itos(-1)], {}))
    ensures var s := TextOf(Remainder(Lit(INTMAX_MIN), "x", Add, Lit(5)));
            SubExpr(s, m).Ok? && SubExpr(s, m).v == 5 && SubExpr(s, m).m.store.vars == map["x" := Itos(5)]
  {
    hide SubExpr, Eval, EvalText, Itos, TextOf, WellFormed;
    OneLetter();
    ReadBack(-1, m.store, 1);
    assert Lookup(m.store, "x") == Itos(-1);
    RemainderOfLiterals(5, "x", m.store);
    EveryTreeIsEvaluated(Remainder(Lit(INTMAX_MIN), "x", Add, Lit(5)), m);
    assert m.store.vars["x" := Itos(5)] == map["x" := Itos(5)];
  }

  lemma RemainderOfLiterals(v: intmax, x: string, st: Store)
    requires EvalText(Lookup(st, x), st, 1) == Value(-1, st) && x !in st.readonly
    ensures Eval(Remainder(Lit(INTMAX_MIN), x, Add, Lit(v)), st, 1) == Value(v, st.(vars := st.vars[x := Itos(v)]))
  {
    hide EvalText, Itos, Compute, Lookup;
    AddToZero(v);
    LitValue(INTMAX_MIN, st);
    LitValue(v, st);
  }

  lemma LitValue(v: intmax, st: Store)
    ensures Eval(Lit(v), st, 1) == Value(v, st)
  {
  }

  lemma OneLetter()
    ensures WellFormed(Remainder(Lit(INTMAX_MIN), "x", Add, Lit(5)))
  {
    assert IsName("x");
  }

  lemma AddToZero(v: intmax)
    ensures Compute(Add, 0, v) == Some(v)
  {
  }
}
