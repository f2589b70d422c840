/** Laws of evaluation: operators said through one another. */
module Laws {
  import opened Integers
  import opened Text
  import opened Options
  import opened Tokens
  import opened Trees
  import opened Exponent
  import Arithmetic

  /** The value of an assignment is what the variable then holds. */
  lemma AssignmentHolds(x: string, aop: Option<BinOp>, r: Expr, st: Store, depth: nat)
    requires depth < MAX_DEPTH
    ensures var o := Eval(Assign(x, aop, r), st, depth);
            o.Value? ==> Eval(Sequence(Assign(x, aop, r), Var(x)), st, depth) == o
  {
    hide EvalText, Itos, Compute;
    var o := Eval(Assign(x, aop, r), st, depth);
    if o.Value? {
      Held(x, aop, r, st, depth);
      Arithmetic.ReadBack(o.v, o.store, depth);
    }
  }

  lemma Held(x: string, aop: Option<BinOp>, r: Expr, st: Store, depth: nat)
    requires depth < MAX_DEPTH && Eval(Assign(x, aop, r), st, depth).Value?
    ensures var o := Eval(Assign(x, aop, r), st, depth); Lookup(o.store, x) == Itos(o.v)
  {
    hide EvalText, Itos, Compute;
  }

  /** `x op= r` is `x = x op r`. */
  lemma OperatorAssignment(x: string, op: BinOp, r: Expr, st: Store, depth: nat)
    requires depth <= MAX_DEPTH
    ensures Eval(Assign(x, Some(op), r), st, depth) == Eval(Assign(x, None, Binary(op, Var(x), r)), st, depth)
  {
    hide EvalText, Compute, Itos, Bind;
    VarValue(x, st, depth);
    BinaryValue(op, Var(x), r, st, depth);
    assert Eval(Assign(x, None, Binary(op, Var(x), r)), st, depth) ==
           var (v, st1) :- Eval(Binary(op, Var(x), r), st, depth); Assigned(st1, x, v, v);
  }

  lemma VarValue(x: string, st: Store, depth: nat)
    requires depth <= MAX_DEPTH
    ensures Eval(Var(x), st, depth) == EvalText(Lookup(st, x), st, depth)
  {
    hide EvalText;
  }

  lemma BinaryValue(op: BinOp, l: Expr, r: Expr, st: Store, depth: nat)
    requires depth <= MAX_DEPTH
    ensures Eval(Binary(op, l, r), st, depth) == (
              var (a, st1) :- Eval(l, st, depth);
              var (b, st2) :- Eval(r, st1, depth);
              match Compute(op, a, b)
              case None => Failure(DivisionByZero, st2)
              case Some(v) => Value(v, st2))
  {
    hide EvalText, Compute;
  }

  /** `++x` is `x += 1` and `--x` is `x -= 1`. */
  lemma StepFirst(up: bool, x: string, st: Store, depth: nat)
    requires depth <= MAX_DEPTH
    ensures Eval(PreStep(up, x), st, depth) == Eval(Assign(x, Some(if up then Add else Sub), Lit(1)), st, depth)
  {
    hide EvalText, Itos, Wrap;
  }

  /** `x++` and `x--` do the same and have the value that x had. */
  lemma StepAfter(up: bool, x: string, st: Store, depth: nat)
    requires depth <= MAX_DEPTH
    ensures var o, p := Eval(PostStep(up, x), st, depth), Eval(PreStep(up, x), st, depth);
            if p.Value? then o == Value(Eval(Var(x), st, depth).v, p.store) else o == p
  {
    hide EvalText, Itos, Wrap;
  }

  /** `!!a` is 1 exactly when `a` is not 0. */
  lemma NotNot(a: Expr, st: Store, depth: nat)
    requires depth <= MAX_DEPTH
    ensures var o, p := Eval(a, st, depth), Eval(Unary(LogNot, Unary(LogNot, a)), st, depth);
            if o.Value? then p == Value(if o.v != 0 then 1 else 0, o.store) else p == o
  {
    assert Eval(Unary(LogNot, a), st, depth) ==
           var (v, st1) :- Eval(a, st, depth); Value(ComputeUnary(LogNot, v), st1);
  }

  /** `!(a && b)` is `!a || !b`, and `!(a || b)` is `!a && !b`, with the same effects. */
  lemma DeMorgan(a: Expr, b: Expr, st: Store, depth: nat)
    requires depth <= MAX_DEPTH
    ensures Eval(Unary(LogNot, And(a, b)), st, depth)
         == Eval(Or(Unary(LogNot, a), Unary(LogNot, b)), st, depth)
    ensures Eval(Unary(LogNot, Or(a, b)), st, depth)
         == Eval(And(Unary(LogNot, a), Unary(LogNot, b)), st, depth)
  {
    NotValue(a, st, depth);
    var o := Eval(a, st, depth);
    if o.Value? {
      NotValue(b, o.store, depth);
    }
    assert Regular(Unary(LogNot, b)) == Regular(b);
    AndValue(a, b, st, depth);
    OrValue(a, b, st, depth);
    AndValue(Unary(LogNot, a), Unary(LogNot, b), st, depth);
    OrValue(Unary(LogNot, a), Unary(LogNot, b), st, depth);
    NotValue(And(a, b), st, depth);
    NotValue(Or(a, b), st, depth);
    hide Eval;
  }

  lemma NotValue(a: Expr, st: Store, depth: nat)
    requires depth <= MAX_DEPTH
    ensures var o := Eval(a, st, depth);
            Eval(Unary(LogNot, a), st, depth) == if o.Value? then Value(if o.v == 0 then 1 else 0, o.store) else o
  {
  }

  lemma AndUnfold(a: Expr, b: Expr, st: Store, depth: nat)
    requires depth <= MAX_DEPTH
    ensures Eval(And(a, b), st, depth) == (
              var (v, st1) :- Eval(a, st, depth);
              if v == 0 then Skipped(b, st1)
              else
                var (u, st2) :- Eval(b, st1, depth);
                Value(Truth(u != 0), st2))
  {
    hide EvalText, Compute, ComputeUnary, Assigned, Skipped, Truth;
  }

  lemma OrUnfold(a: Expr, b: Expr, st: Store, depth: nat)
    requires depth <= MAX_DEPTH
    ensures Eval(Or(a, b), st, depth) == (
              var (v, st1) :- Eval(a, st, depth);
              if v != 0 then
                var (_, st2) :- Skipped(b, st1);
                Value(1, st2)
              else
                var (u, st2) :- Eval(b, st1, depth);
                Value(Truth(u != 0), st2))
  {
    hide EvalText, Compute, ComputeUnary, Assigned, Skipped, Truth;
  }

  /** `a && b` is 1 if both are not 0 and otherwise 0, and `b` is not evaluated if `a` is 0. */
  lemma AndValue(a: Expr, b: Expr, st: Store, depth: nat)
    requires depth <= MAX_DEPTH
    ensures var o := Eval(a, st, depth);
            Eval(And(a, b), st, depth) ==
            if !o.Value? then o
            else if o.v == 0 then (if Regular(b) then Value(0, o.store) else Failure(Syntax, o.store))
            else
              var p := Eval(b, o.store, depth);
              if p.Value? then Value(if p.v != 0 then 1 else 0, p.store) else p
  {
    hide Eval;
    AndUnfold(a, b, st, depth);
  }

  lemma OrValue(a: Expr, b: Expr, st: Store, depth: nat)
    requires depth <= MAX_DEPTH
    ensures var o := Eval(a, st, depth);
            Eval(Or(a, b), st, depth) ==
            if !o.Value? then o
            else if o.v != 0 then (if Regular(b) then Value(1, o.store) else Failure(Syntax, o.store))
            else
              var p := Eval(b, o.store, depth);
              if p.Value? then Value(if p.v != 0 then 1 else 0, p.store) else p
  {
    hide Eval;
    OrUnfold(a, b, st, depth);
  }

  /** `!c ? y : n` is `c ? n : y`. */
  lemma ConditionalNot(c: Expr, y: Expr, n: Expr, st: Store, depth: nat)
    requires depth <= MAX_DEPTH && Regular(y) && Regular(n)
    ensures Eval(Conditional(Unary(LogNot, c), y, n), st, depth) == Eval(Conditional(c, n, y), st, depth)
  {
    NotValue(c, st, depth);
  }

  /** `a ? 1 : 0` is `!!a`. */
  lemma ConditionalTruth(a: Expr, st: Store, depth: nat)
    requires depth <= MAX_DEPTH
    ensures Eval(Conditional(a, Lit(1), Lit(0)), st, depth) == Eval(Unary(LogNot, Unary(LogNot, a)), st, depth)
  {
    hide EvalText, Compute;
    NotNot(a, st, depth);
    assert forall st1 :: Eval(Lit(1), st1, depth) == Value(1, st1) && Eval(Lit(0), st1, depth) == Value(0, st1);
  }

  lemma SequenceUnfold(a: Expr, b: Expr, st: Store, depth: nat)
    requires depth <= MAX_DEPTH
    ensures Eval(Sequence(a, b), st, depth) == (var (_, st1) :- Eval(a, st, depth); Eval(b, st1, depth))
  {
    hide EvalText, Compute, ComputeUnary, Assigned, Skipped, Truth;
  }

  lemma ParenUnfold(a: Expr, st: Store, depth: nat)
    requires depth <= MAX_DEPTH
    ensures Eval(Paren(a), st, depth) == Eval(a, st, depth)
  {
    hide EvalText, Compute, ComputeUnary, Assigned, Skipped, Truth;
  }

  /** `a , b` is `b` after `a`; parentheses change nothing. */
  lemma CommaAndParentheses(a: Expr, b: Expr, st: Store, depth: nat)
    requires depth <= MAX_DEPTH
    ensures var o := Eval(a, st, depth);
            Eval(Sequence(a, b), st, depth) == if o.Value? then Eval(b, o.store, depth) else o
    ensures Eval(Paren(a), st, depth) == Eval(a, st, depth)
  {
    hide Eval;
    SequenceUnfold(a, b, st, depth);
    ParenUnfold(a, st, depth);
  }

  // ---------------------------------------------------------------- exponents

  /** `a ** 0` is 1, each step multiplies once more by `a`, and a negative exponent is an error. */
  lemma PowerSteps(a: intmax, n: intmax, st: Store, depth: nat)
    requires depth <= MAX_DEPTH
    ensures Eval(Pow(Lit(a), Lit(0)), st, depth) == Value(1, st)
    ensures 0 <= n < INTMAX_MAX ==>
              var o := Eval(Pow(Lit(a), Lit(n)), st, depth);
              o.Value? && Some(Eval(Pow(Lit(a), Lit(n + 1)), st, depth)) ==
                          (match Compute(Mul, o.v, a) case None => None case Some(v) => Some(Value(v, st)))
    ensures n < 0 ==> Eval(Pow(Lit(a), Lit(n)), st, depth) == Failure(NegativeExponent, st)
  {
    hide Wrap;
    PowerOfLiterals(a, 0, st, depth);
    PowerOfLiterals(a, n, st, depth);
    WrapOne();
    if 0 <= n < INTMAX_MAX {
      var m: nat := n;
      PowerOfLiterals(a, n + 1, st, depth);
      WrapMul(Power(a, m), a);
      assert Power(a, m + 1) == a * Power(a, m);
      assert a * Power(a, m) == Power(a, m) * a;
    }
  }

  lemma WrapOne()
    ensures Wrap(1) == 1
  {
  }

  lemma PowerOfLiterals(a: intmax, n: intmax, st: Store, depth: nat)
    requires depth <= MAX_DEPTH
    ensures Eval(Pow(Lit(a), Lit(n)), st, depth) ==
            if n < 0 then Failure(NegativeExponent, st) else Value(Wrap(Power(a, n)), st)
  {
    hide Wrap, Power;
    assert forall v: intmax :: Eval(Lit(v), st, depth) == Value(v, st);
  }

  // ---------------------------------------------------------------- variables

  /** Blank text is 0, and so is a variable without a text. */
  lemma BlankIsZero(s: string, x: string, st: Store, depth: nat)
    requires depth <= MAX_DEPTH && forall i :: 0 <= i < |s| ==> s[i] in {' ', '\t', '\n'}
    ensures EvalText(s, st, depth) == Value(0, st)
    ensures x !in st.vars ==> Eval(Var(x), st, depth) == Value(0, st)
  {
    AllSkipped(s, 0);
    AllSkipped("", 0);
  }

  lemma {:induction false} AllSkipped(s: string, i: nat)
    requires i <= |s| && forall i :: 0 <= i < |s| ==> s[i] in {' ', '\t', '\n'}
    ensures SkipBlank(s, i) == |s|
    decreases |s| - i
  {
    if i < |s| {
      AllSkipped(s, i + 1);
    }
  }

  /** A read-only variable is not assigned, whatever is assigned to it. */
  lemma ReadOnlyStays(x: string, r: Expr, st: Store, depth: nat)
    requires depth <= MAX_DEPTH
    requires var o := Eval(r, st, depth); o.Value? && x in o.store.readonly
    ensures Eval(Assign(x, None, r), st, depth) == Failure(ReadOnly, Eval(r, st, depth).store)
  {
    hide EvalText;
  }

  /** 1024 texts are evaluated inside one another and no more. */
  lemma DepthLimit(v: intmax, st: Store)
    ensures EvalText(Itos(v), st, 1023) == Value(v, st)
    ensures EvalText(Itos(v), st, 1024) == Failure(TooDeep, st)
  {
    hide Itos, Eval;
    Arithmetic.ReadBack(v, st, 1023);
    Arithmetic.ItosNotBlank(v);
  }
}
