/** The operand that is not chosen is read but neither assigns nor fails on anything but syntax. */
module Suppression {
  import opened Integers
  import opened Tokens
  import opened Machine
  import opened Levels

  /** Nothing was assigned since `m`: the store is the same, at the end or at the error, and an error is one of
      syntax. */
  predicate Untouched(m: State, r: Result) {
    match r
    case Ok(_, m') => m'.store == m.store
    case Err(e, st) => st == m.store && SyntaxError(e)
  }

  /** Behind an operand that is not 0, the operands of `||` are not evaluated, and the value is 1. */
  lemma {:induction false} OrStops(v: intmax, m: State)
    requires Valid(m) && v != 0
    ensures Untouched(m, LorLoop(v, m))
    ensures LorLoop(v, m).Ok? ==> LorLoop(v, m).v == if m.cur == LogOr then 1 else v
    decreases Remaining(m)
  {
    hide ReadTok, ExpLand, LorLoop;
    LorUnfold(v, m);
    if m.cur == LogOr {
      var r1 := ReadTok(Suppress(m, true));
      if r1.Ok? {
        var r2 := ExpLand(r1.m);
        if r2.Ok? {
          OrStops(1, Resume(r2.m, true).(last := LogOr));
        }
      }
    }
  }

  lemma LorUnfold(v: intmax, m: State)
    requires Valid(m) && v != 0
    ensures LorLoop(v, m) ==
            if m.cur != LogOr then Ok(v, m)
            else
              var (_, m1) :- ReadTok(Suppress(m, true));
              var (_, m2) :- ExpLand(m1);
              LorLoop(1, Resume(m2, true).(last := LogOr))
  {
    hide ReadTok, ExpLand;
  }

  /** Behind an operand that is 0, the operands of `&&` are not evaluated, and the value is 0. */
  lemma {:induction false} AndStops(m: State)
    requires Valid(m)
    ensures Untouched(m, LandLoop(0, m))
    ensures LandLoop(0, m).Ok? ==> LandLoop(0, m).v == 0
    decreases Remaining(m)
  {
    hide ReadTok, ExpBinary, LandLoop;
    LandUnfold(m);
    if m.cur == LogAnd {
      var r1 := ReadTok(Suppress(m, true));
      if r1.Ok? {
        var r2 := ExpBinary(0, r1.m);
        if r2.Ok? {
          AndStops(Resume(r2.m, true).(last := LogAnd));
        }
      }
    }
  }

  lemma LandUnfold(m: State)
    requires Valid(m)
    ensures LandLoop(0, m) ==
            if m.cur != LogAnd then Ok(0, m)
            else
              var (_, m1) :- ReadTok(Suppress(m, true));
              var (_, m2) :- ExpBinary(0, m1);
              LandLoop(0, Resume(m2, true).(last := LogAnd))
  {
    hide ReadTok, ExpBinary;
  }

  /** `a || b`: if `a` is not 0, nothing is assigned behind it. */
  lemma RightOfOr(m: State)
    requires Valid(m) && ExpLand(m).Ok? && ExpLand(m).v != 0
    ensures Untouched(ExpLand(m).m, ExpLor(m))
    ensures ExpLor(m).Ok? ==> ExpLor(m).v == if ExpLand(m).m.cur == LogOr then 1 else ExpLand(m).v
  {
    hide ReadTok, ExpLand, ExpLor, LorLoop;
    LorExpLoop(m);
    OrStops(ExpLand(m).v, ExpLand(m).m);
  }

  /** `a && b`: if `a` is 0, nothing is assigned behind it, and the value is 0. */
  lemma RightOfAnd(m: State)
    requires Valid(m) && ExpBinary(0, m).Ok? && ExpBinary(0, m).v == 0
    ensures Untouched(ExpBinary(0, m).m, ExpLand(m))
    ensures ExpLand(m).Ok? ==> ExpLand(m).v == 0
  {
    hide ReadTok, ExpBinary, ExpLand, LandLoop;
    LandExpLoop(m);
    AndStops(ExpBinary(0, m).m);
  }

  lemma PunctuationReadsNothing(m: State)
    requires Valid(m) && ReadTok(m).Ok? && ReadTok(m).m.cur in {End, Colon}
    ensures ReadTok(m).m.store == m.store
  {
    hide Scan;
  }

  /** `a ? b : c` from the `?` on, if `a` is not 0: `b` runs as it would alone and has the value, and nothing is
      assigned behind it. */
  lemma YesOnly(c: intmax, m: State)
    requires Valid(m) && m.cur == Quest && c != 0
    ensures var y, r := Run(0, m), CondTail(c, m);
            && (y.Ok? && ReadTok(m).m.cur !in {End, Colon} ==> Untouched(y.m, r))
            && (ReadTok(m).Ok? && ReadTok(m).m.cur in {End, Colon} ==> r == Err(Syntax, m.store))
            && (r.Ok? ==> y.Ok? && r.v == y.v && r.m.store == y.m.store)
            && (y.Err? ==> r == y || r == Err(Syntax, m.store))
  {
    hide ReadTok, ExpComma, ExpCond;
    if ReadTok(m).Ok? && ReadTok(m).m.cur in {End, Colon} {
      PunctuationReadsNothing(m);
    }
  }

  /** If `a` is 0: nothing is assigned before `c` runs, and `c` has the value. */
  lemma NoOnly(c: intmax, m: State)
    requires Valid(m) && m.cur == Quest && c == 0
    ensures var y, r := Run(0, Suppress(m, true)), CondTail(c, m);
            && Untouched(m, y)
            && (r.Err? ==> Untouched(m, r) || (y.Ok? && r == Run(2, Resume(y.m, true))))
            && (r.Ok? ==> y.Ok? && Run(2, Resume(y.m, true)).Ok? && r.v == Run(2, Resume(y.m, true)).v
                          && r.m.store == Run(2, Resume(y.m, true)).m.store)
  {
    hide ReadTok, ExpComma, ExpCond;
    var y := Run(0, Suppress(m, true));
    if y.Ok? {
      var p := Resume(y.m, true);
      if ReadTok(p).Ok? && ReadTok(p).m.cur in {End, Colon} {
        PunctuationReadsNothing(p);
      }
    }
  }
}
