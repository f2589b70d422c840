/** Signals that no loop is left for. A `break` or `continue` is pending outside of all loops exactly when the run has
    come to a loop that ended without looking at its counters while they counted to the outermost loop of all. */
module Strays {
  import opened Options
  import opened Commands
  import opened Executor
  import opened Signals
  import opened Slips
  import opened Places
  import opened Nesting

  /** A signal for a loop further out than number `low`. */
  predicate Below(o: Option<Result>, low: int) {
    o.Some? && !AtLeast(o.value.signal, low)
  }

  /** The loop ends here with a signal for loop number `loop` pending: its list is empty or its first word cannot be
      assigned, or its first or third expression has failed. */
  predicate SlipsHere(env: Env, p: Place, loop: int) {
    match p
    case At(For(words, id, body), d, w, fuel) =>
      && env.named(id, w)
      && var o := Meaning(env, words, d + 1, Saw(w, Named(id)), fuel);
         o.Some? && AimsAt(o.value.signal, loop) && NothingBound(env, id, Pending(o.value.signal, o.value.w))
    case InTurns(_, _, _, v, _) => !v.ok && AimsAt(v.signal, loop)
    case _ => false
  }

  /** The number of a loop as seen from the next place: in a function called among `d` loops they count from -d. */
  function LowAcross(p: Place, q: Place, low: int): int {
    if IsCall(p, q) then low - p.d else low
  }

  /** A run of places to a loop that slips on a signal for the loop that has the number `low` where the run begins. */
  ghost predicate StrayRun(env: Env, ps: seq<Place>, low: int)
    decreases |ps|
  {
    && ps != [] && IsPlace(ps[0])
    && if |ps| == 1 then SlipsHere(env, ps[0], low)
       else Leads(env, ps[0], ps[1]) && StrayRun(env, ps[1..], LowAcross(ps[0], ps[1], low))
  }

  /** The run from this place on comes to such a loop. */
  ghost predicate Strays(env: Env, p: Place, low: int) {
    exists ps :: ps != [] && StrayRun(env, ps, low) && ps[0] == p
  }

  lemma StraysHere(env: Env, p: Place, low: int)
    requires IsPlace(p) && SlipsHere(env, p, low)
    ensures Strays(env, p, low)
  {
    hide Leads;
    assert StrayRun(env, [p], low);
  }

  lemma StraysAlong(env: Env, p: Place, q: Place, low: int)
    requires IsPlace(p) && Leads(env, p, q) && Strays(env, q, LowAcross(p, q, low))
    ensures Strays(env, p, low)
  {
    hide Leads, SlipsHere;
    var ps :| ps != [] && StrayRun(env, ps, LowAcross(p, q, low)) && ps[0] == q;
    var qs := [p] + ps;
    assert qs[1..] == ps;
    assert StrayRun(env, qs, low);
  }

  // ---------------------------------------------------------------- a slip comes out

  lemma SlipIsBelow(env: Env, p: Place, low: int)
    requires IsPlace(p) && SlipsHere(env, p, low)
    ensures Below(Outcome(env, p), low)
  {
    hide Meaning, Turns;
    match p
    case At(c, d, w, fuel) => ListSlips(env, p, Meaning(env, c.words, d + 1, Saw(w, Named(c.id)), fuel).value);
    case InTurns(c, d, status, v, fuel) => TurnFails(env, c, d, status, v, fuel);
  }

  /** A list that leaves nothing to assign hands on its signal, from one loop further out. */
  lemma ListSlips(env: Env, p: Place, r: Result)
    requires p.At? && p.c.For? && env.named(p.c.id, p.w)
    requires Meaning(env, p.c.words, p.d + 1, Saw(p.w, Named(p.c.id)), p.fuel) == Some(r) && r.signal != Normal
    requires NothingBound(env, p.c.id, Pending(r.signal, r.w))
    ensures var o := Outcome(env, p); o.Some? && o.value.signal == Slipped(r.signal)
  {
    hide Meaning, Each;
    var c, d, w1 := p.c, p.d, Saw(p.w, Named(p.c.id));
    MeaningIsInner(env, c, d, p.w, p.fuel);
    assert Substitute(env, c, c.words, d + 1, Normal, w1, p.fuel) == Some(Pending(r.signal, r.w));
    var n, y := env.words(c.id, r.w), Saw(r.w, Expanded(c.id));
    if n == 0 {
      EachNone(env, c, d, n, SUCCESS, r.signal, y, p.fuel);
    } else {
      EachOne(env, c, d, 0, n, SUCCESS, r.signal, y, p.fuel);
    }
  }

  /** Such a signal comes out of every step, by way of a further slip or of the end of a function, too. */
  lemma StrayCrosses(env: Env, p: Place, q: Place, low: int)
    requires IsPlace(p) && IsPlace(q) && Leads(env, p, q) && low <= 0
    requires Below(Outcome(env, q), LowAcross(p, q, low))
    ensures Below(Outcome(env, p), low)
  {
    hide Leads, Outcome, Looks;
    var r := Outcome(env, q).value;
    if IsCall(p, q) {
      CallCrosses(env, p, q, low);
    } else if Looks(env, p, q, r) {
      StepPasses(env, p, q, r);
    } else {
      UnheededCrosses(env, p, q, r);
    }
  }

  lemma CallCrosses(env: Env, p: Place, q: Place, low: int)
    requires IsPlace(p) && IsPlace(q) && Leads(env, p, q) && IsCall(p, q) && Below(Outcome(env, q), low - p.d)
    ensures Below(Outcome(env, p), low)
  {
    hide Meaning;
    MeaningIsInner(env, p.c, p.d, p.w, p.fuel);
  }

  lemma UnheededCrosses(env: Env, p: Place, q: Place, r: Result)
    requires IsPlace(p) && IsPlace(q) && Leads(env, p, q) && !IsCall(p, q)
    requires Outcome(env, q) == Some(r) && r.signal != Normal && !Looks(env, p, q, r)
    ensures var o := Outcome(env, p); o.Some? && o.value.signal == Slipped(r.signal)
  {
    hide Meaning, Turns;
    match p
    case At(c, d, w, fuel) =>
      if c.For? {
        ListSlips(env, p, r);
      } else {
        MeaningIsInner(env, c, d, w, fuel);
        var v := Calculation(env, c.init, Pending(r.signal, r.w));
        assert Calculate(env, c, c.init, d + 1, Normal, w, fuel) == Some(v);
        TurnFails(env, c, d, SUCCESS, v, fuel);
      }
    case InStep(c, d, b, fuel) =>
      var v := Calculation(env, c.step, Pending(r.signal, r.w));
      assert Calculate(env, c, c.step, d + 1, Normal, b.w, fuel) == Some(v);
      TurnFails(env, c, d, b.status, v, fuel - 1);
  }

  lemma {:induction false} StrayComesOut(env: Env, ps: seq<Place>, low: int)
    requires StrayRun(env, ps, low) && low <= 0
    ensures Below(Outcome(env, ps[0]), low)
    decreases |ps|
  {
    hide Leads, Outcome, SlipsHere, Below;
    if |ps| == 1 {
      SlipIsBelow(env, ps[0], low);
    } else {
      assert ps[1..][0] == ps[1];
      StrayComesOut(env, ps[1..], LowAcross(ps[0], ps[1], low));
      StrayCrosses(env, ps[0], ps[1], low);
    }
  }

  // ---------------------------------------------------------------- where it came from

  /** What is left of a loop or `case` at a place. */
  function Left(p: Place): int
    requires IsPlace(p)
  {
    match p
    case InList(_, _, k, n, _, _, _) => n - k
    case InTurns(_, _, _, _, _) => 1
    case InTests(c, _, i, _, _, _, _) => |c.clauses| - i
    case InClause(c, _, i, _, _) => |c.clauses| - i
    case _ => 0
  }

  function PatternsLeft(p: Place): int
    requires IsPlace(p)
  {
    match p
    case InTests(c, _, i, j, _, _, _) => |c.clauses[i].patterns| - j
    case _ => 0
  }

  /** What an arithmetic loop has pending is not yet for a loop further out. */
  predicate Carries(p: Place, low: int) {
    p.InTurns? ==> AtLeast(p.v.signal, low)
  }

  /** `q` is nearer to the end of the run than `p`. */
  ghost predicate Nearer(p: Place, q: Place)
    requires IsPlace(p) && IsPlace(q)
  {
    if q.fuel != p.fuel then q.fuel < p.fuel
    else if q.c != p.c then q.c < p.c
    else if q.At? != p.At? then p.At?
    else if Left(q) != Left(p) then 0 <= Left(q) < Left(p)
    else if q.InTests? != p.InTests? then p.InTests?
    else 0 <= PatternsLeft(q) < PatternsLeft(p)
  }

  /** The signal comes from a loop that the run has come to. */
  lemma {:induction false} StrayIsFound(env: Env, p: Place, low: int)
    requires IsPlace(p) && low <= 0 && Below(Outcome(env, p), low) && Carries(p, low)
    ensures Strays(env, p, low)
    decreases p.fuel, p.c, p.At?, Left(p), p.InTests?, PatternsLeft(p), 3
  {
    hide Outcome, Strays, Below;
    match p
    case At(_, _, _, _) => FoundInCommand(env, p, low);
    case InRounds(_, _, _, _, _) => FoundInRounds(env, p, low);
    case InList(_, _, _, _, _, _, _) => FoundInList(env, p, low);
    case InTurns(_, _, _, _, _) => FoundInTurns(env, p, low);
    case InStep(_, _, _, _) => FoundInStep(env, p, low);
    case InTests(_, _, _, _, _, _, _) => FoundInTests(env, p, low);
    case InClause(_, _, _, _, _) => FoundInClause(env, p, low);
  }

  /** It comes from the place that is next. */
  lemma {:induction false} FoundNext(env: Env, p: Place, q: Place, low: int)
    requires IsPlace(p) && IsPlace(q) && Leads(env, p, q) && low <= 0
    requires Nearer(p, q) && Carries(q, low)
    requires Below(Outcome(env, q), LowAcross(p, q, low))
    ensures Strays(env, p, low)
    decreases p.fuel, p.c, p.At?, Left(p), p.InTests?, PatternsLeft(p), 0, 0
  {
    hide Leads, Outcome, Strays, Below;
    StrayIsFound(env, q, LowAcross(p, q, low));
    StraysAlong(env, p, q, low);
  }

  lemma {:induction false} FoundInCommand(env: Env, p: Place, low: int)
    requires p.At? && low <= 0 && Below(Outcome(env, p), low)
    ensures Strays(env, p, low)
    decreases p.fuel, p.c, p.At?, Left(p), p.InTests?, PatternsLeft(p), 2
  {
    hide Strays, Meaning, SlipsHere, Leads, Left, PatternsLeft;
    var c, d, w, fuel := p.c, p.d, p.w, p.fuel;
    match c
    case Null => NothingFound(env, p);
    case Simple(_, _) | Calc(_) | Call(_, _) => FoundInWords(env, p, low);
    case For(_, _, _) => FoundInFor(env, p, low);
    case ArithFor(_, _, _, _) => FoundInArithFor(env, p, low);
    case Case(_, _, _) => FoundInCase(env, p, low);
    case Then(_, _) | And(_, _) | Or(_, _) | If(_, _, _) => FoundInPairs(env, p, low);
    case _ => FoundInParts(env, p, low);
  }

  lemma NothingFound(env: Env, p: Place)
    requires p.At? && p.c == Null
    ensures Outcome(env, p).Some? && Outcome(env, p).value.signal == Normal
  {
  }

  lemma {:induction false} FoundInWords(env: Env, p: Place, low: int)
    requires p.At? && (p.c.Simple? || p.c.Calc? || p.c.Call?) && low <= 0 && Below(Outcome(env, p), low)
    ensures Strays(env, p, low)
    decreases p.fuel, p.c, p.At?, Left(p), p.InTests?, PatternsLeft(p), 1
  {
    hide Strays, Meaning;
    var c, d, w, fuel := p.c, p.d, p.w, p.fuel;
    MeaningIsInner(env, c, d, w, fuel);
    var words := if c.Calc? then c.a.prelude else c.words;
    var x := Meaning(env, words, d, w, fuel).value;
    assert Substitute(env, c, words, d, Normal, w, fuel) == Some(Pending(x.signal, x.w));
    if x.signal != Normal {
      FoundNext(env, p, At(words, d, w, fuel), low);
    } else {
      assert Expands(env, words, d, w, fuel, x.w);
      FoundNext(env, p, At(env.funcs[c.f], 0, x.w, fuel - 1), low);
    }
  }

  lemma {:induction false} FoundInParts(env: Env, p: Place, low: int)
    requires p.At? && (p.c.Break? || p.c.Continue? || p.c.Not? || p.c.Repeat?) && low <= 0
    requires Below(Outcome(env, p), low)
    ensures Strays(env, p, low)
    decreases p.fuel, p.c, p.At?, Left(p), p.InTests?, PatternsLeft(p), 1
  {
    hide Strays, Meaning, Rounds;
    var c, d, w, fuel := p.c, p.d, p.w, p.fuel;
    MeaningIsInner(env, c, d, w, fuel);
    match c
    case Break(_) =>
    case Continue(_) =>
    case Not(a) => FoundNext(env, p, At(a, d, w, fuel), low);
    case Repeat(_, _, _) => FoundNext(env, p, InRounds(c, d, SUCCESS, w, fuel), low);
  }

  lemma {:induction false} FoundInPairs(env: Env, p: Place, low: int)
    requires p.At? && (p.c.Then? || p.c.And? || p.c.Or? || p.c.If?) && low <= 0 && Below(Outcome(env, p), low)
    ensures Strays(env, p, low)
    decreases p.fuel, p.c, p.At?, Left(p), p.InTests?, PatternsLeft(p), 1
  {
    hide Strays, Meaning;
    var c, d, w, fuel := p.c, p.d, p.w, p.fuel;
    MeaningIsInner(env, c, d, w, fuel);
    match c
    case Then(a, b) => FoundInPair(env, p, a, b, low);
    case And(a, b) => FoundInPair(env, p, a, b, low);
    case Or(a, b) => FoundInPair(env, p, a, b, low);
    case If(t, y, n) =>
      var r := Meaning(env, t, d, w, fuel);
      FoundInPair(env, p, t, if r.value.status == SUCCESS then y else n, low);
  }

  /** In the first part, or in the second one after it. */
  lemma {:induction false} FoundInPair(env: Env, p: Place, a: Command, b: Command, low: int)
    requires p.At? && a < p.c && b < p.c && low <= 0 && !p.c.Call?
    requires Leads(env, p, At(a, p.d, p.w, p.fuel))
    requires var r := Meaning(env, a, p.d, p.w, p.fuel);
             && r.Some?
             && (r.value.signal == Normal ==> Leads(env, p, At(b, p.d, r.value.w, p.fuel)))
             && (Below(r, low) || (r.value.signal == Normal && Below(Meaning(env, b, p.d, r.value.w, p.fuel), low)))
    ensures Strays(env, p, low)
    decreases p.fuel, p.c, p.At?, Left(p), p.InTests?, PatternsLeft(p), 0, 1
  {
    hide Strays, Meaning, Leads;
    var r := Meaning(env, a, p.d, p.w, p.fuel);
    if Below(r, low) {
      FoundNext(env, p, At(a, p.d, p.w, p.fuel), low);
    } else {
      FoundNext(env, p, At(b, p.d, r.value.w, p.fuel), low);
    }
  }

  lemma {:induction false} FoundInFor(env: Env, p: Place, low: int)
    requires p.At? && p.c.For? && low <= 0 && Below(Outcome(env, p), low)
    ensures Strays(env, p, low)
    decreases p.fuel, p.c, p.At?, Left(p), p.InTests?, PatternsLeft(p), 1
  {
    hide Strays, Meaning, Each;
    var c, d, w, fuel := p.c, p.d, p.w, p.fuel;
    MeaningIsInner(env, c, d, w, fuel);
    var w1 := Saw(w, Named(c.id));
    var r := Meaning(env, c.words, d + 1, w1, fuel).value;
    var x := Pending(r.signal, r.w);
    assert Substitute(env, c, c.words, d + 1, Normal, w1, fuel) == Some(x);
    var n, y := env.words(c.id, x.w), Saw(x.w, Expanded(c.id));
    var z := Saw(y, Bound(c.id, 0));
    if !AtLeast(x.s, low) {
      FoundNext(env, p, At(c.words, d + 1, w1, fuel), low);
    } else if x.s == Normal {
      FoundNext(env, p, InList(c, d, 0, n, SUCCESS, y, fuel), low);
    } else if NothingBound(env, c.id, x) {
      ListSlips(env, p, r);
      StraysHere(env, p, low);
    } else {
      EachOne(env, c, d, 0, n, SUCCESS, x.s, y, fuel);
      FoundNext(env, p, InList(c, d, 1, n, z.last, z, fuel), low);
    }
  }

  lemma {:induction false} FoundInArithFor(env: Env, p: Place, low: int)
    requires p.At? && p.c.ArithFor? && low <= 0 && Below(Outcome(env, p), low)
    ensures Strays(env, p, low)
    decreases p.fuel, p.c, p.At?, Left(p), p.InTests?, PatternsLeft(p), 1
  {
    hide Strays, Meaning, Turns;
    var c, d, w, fuel := p.c, p.d, p.w, p.fuel;
    MeaningIsInner(env, c, d, w, fuel);
    assert Substitute(env, c, c.init.prelude, d + 1, Normal, w, fuel).Some?;
    var r := Meaning(env, c.init.prelude, d + 1, w, fuel).value;
    var v := Calculation(env, c.init, Pending(r.signal, r.w));
    assert Calculate(env, c, c.init, d + 1, Normal, w, fuel) == Some(v);
    if !AtLeast(r.signal, low) {
      FoundNext(env, p, At(c.init.prelude, d + 1, w, fuel), low);
    } else {
      FoundNext(env, p, InTurns(c, d, SUCCESS, v, fuel), low);
    }
  }

  lemma {:induction false} FoundInCase(env: Env, p: Place, low: int)
    requires p.At? && p.c.Case? && low <= 0 && Below(Outcome(env, p), low)
    ensures Strays(env, p, low)
    decreases p.fuel, p.c, p.At?, Left(p), p.InTests?, PatternsLeft(p), 1
  {
    hide Strays, Meaning, Pick, Try;
    var c, d, w, fuel := p.c, p.d, p.w, p.fuel;
    MeaningIsInner(env, c, d, w, fuel);
    var r := Meaning(env, c.words, d, w, fuel).value;
    assert Substitute(env, c, c.words, d, Normal, w, fuel) == Some(Pending(r.signal, r.w));
    var y := Saw(r.w, Expanded(c.id));
    if !AtLeast(r.signal, low) {
      FoundNext(env, p, At(c.words, d, w, fuel), low);
    } else if r.signal != Normal {
      PendingPick(env, c, d, 0, SUCCESS, r.signal, y, fuel);
    } else if c.clauses == [] {
      PickNone(env, c, d, SUCCESS, Normal, y, fuel);
    } else {
      assert Expands(env, c.words, d, w, fuel, r.w);
      PickTries(env, c, d, 0, SUCCESS, Normal, y, fuel);
      FoundNext(env, p, InTests(c, d, 0, 0, SUCCESS, y, fuel), low);
    }
  }

  lemma {:induction false} FoundInRounds(env: Env, p: Place, low: int)
    requires p.InRounds? && IsPlace(p) && low <= 0 && Below(Outcome(env, p), low)
    ensures Strays(env, p, low)
    decreases p.fuel, p.c, p.At?, Left(p), p.InTests?, PatternsLeft(p), 2
  {
    hide Strays, Meaning;
    var c, d, w, fuel := p.c, p.d, p.w, p.fuel;
    var t := Meaning(env, c.test, d + 1, w, fuel).value;
    if !AtLeast(t.signal, low) {
      FoundNext(env, p, At(c.test, d + 1, w, fuel), low);
    } else {
      assert (t.status == SUCCESS) != c.until;
      assert t.signal == Normal ==> BodyStarts(env, c, d, w, fuel, t);
      var b := if t.signal != Normal then t else Meaning(env, c.body, d + 1, t.w, fuel).value;
      if !AtLeast(b.signal, low) {
        FoundNext(env, p, At(c.body, d + 1, t.w, fuel), low);
      } else {
        assert RoundEnds(env, c, d, w, fuel, b);
        assert NextRound(env, c, d, b, fuel) == Outcome(env, p);
        FoundNext(env, p, InRounds(c, d, b.status, b.w, fuel - 1), low);
      }
    }
  }

  lemma {:induction false} FoundInList(env: Env, p: Place, low: int)
    requires p.InList? && IsPlace(p) && low <= 0 && Below(Outcome(env, p), low)
    ensures Strays(env, p, low)
    decreases p.fuel, p.c, p.At?, Left(p), p.InTests?, PatternsLeft(p), 2
  {
    hide Strays, Meaning;
    var c, d, k, n, w, fuel := p.c, p.d, p.k, p.n, p.w, p.fuel;
    var w1 := Saw(w, Bound(c.id, k));
    var b := Meaning(env, c.body, d + 1, w1, fuel).value;
    if !AtLeast(b.signal, low) {
      FoundNext(env, p, At(c.body, d + 1, w1, fuel), low);
    } else {
      FoundNext(env, p, InList(c, d, k + 1, n, b.status, b.w, fuel), low);
    }
  }

  lemma {:induction false} FoundInTurns(env: Env, p: Place, low: int)
    requires p.InTurns? && IsPlace(p) && Carries(p, low) && low <= 0 && Below(Outcome(env, p), low)
    ensures Strays(env, p, low)
    decreases p.fuel, p.c, p.At?, Left(p), p.InTests?, PatternsLeft(p), 2
  {
    hide Strays, Meaning, Turns, Calculate, AfterBody;
    var c, d, v, fuel := p.c, p.d, p.v, p.fuel;
    if !v.ok {
      TurnFails(env, c, d, p.status, v, fuel);
      FoundInFailure(env, p, low);
    } else {
      var o := Calculate(env, c, c.arith, d + 1, v.signal, v.w, fuel);
      if o.None? {
        TurnStuck(env, c, d, p.status, v, fuel);
      }
      var t := o.value;
      TurnTested(env, c, d, p.status, v, fuel, t);
      TestSignal(env, c, d, v, fuel, t);
      if v.signal == Normal && !AtLeast(t.signal, low) {
        FoundNext(env, p, At(c.arith.prelude, d + 1, v.w, fuel), low);
      } else {
        FoundInBody(env, p, t, low);
      }
    }
  }

  lemma TestSignal(env: Env, c: Command, d: nat, v: Value, fuel: nat, t: Value)
    requires c.ArithFor? && Within(v.signal, d + 1) && Calculate(env, c, c.arith, d + 1, v.signal, v.w, fuel) == Some(t)
    ensures v.signal != Normal ==> t.signal == v.signal
    ensures v.signal == Normal ==>
              var o := Meaning(env, c.arith.prelude, d + 1, v.w, fuel); o.Some? && o.value.signal == t.signal
  {
    hide Meaning;
  }

  /** Either the signal was so far out before the expression failed, or this is the slip. */
  lemma FoundInFailure(env: Env, p: Place, low: int)
    requires p.InTurns? && IsPlace(p) && !p.v.ok && Carries(p, low)
    requires !AtLeast(Slipped(p.v.signal), low)
    ensures Strays(env, p, low)
  {
    hide Strays;
    StraysHere(env, p, low);
  }

  /** The body, or a turn after it. */
  lemma {:induction false} FoundInBody(env: Env, p: Place, t: Value, low: int)
    requires p.InTurns? && IsPlace(p) && p.v.ok && low <= 0 && Below(Outcome(env, p), low) && AtLeast(t.signal, low)
    requires Calculate(env, p.c, p.c.arith, p.d + 1, p.v.signal, p.v.w, p.fuel) == Some(t)
    ensures Strays(env, p, low)
    decreases p.fuel, p.c, p.At?, Left(p), p.InTests?, PatternsLeft(p), 1
  {
    hide Strays, Meaning, Turns, Calculate, AfterBody;
    var c, d, v, fuel := p.c, p.d, p.v, p.fuel;
    TurnTested(env, c, d, p.status, v, fuel, t);
    assert TestRuns(env, c, d, v, fuel, t);
    var b := Meaning(env, c.body, d + 1, t.w, fuel).value;
    if !AtLeast(b.signal, low) {
      FoundNext(env, p, At(c.body, d + 1, t.w, fuel), low);
    } else {
      if !GoesOn(b.signal, d) {
        BodyLeaves(env, c, d, b, fuel);
      }
      FoundNext(env, p, InStep(c, d, b, fuel), low);
    }
  }

  lemma {:induction false} FoundInStep(env: Env, p: Place, low: int)
    requires p.InStep? && IsPlace(p) && low <= 0 && Below(Outcome(env, p), low)
    ensures Strays(env, p, low)
    decreases p.fuel, p.c, p.At?, Left(p), p.InTests?, PatternsLeft(p), 2
  {
    hide Strays, Meaning, Turns;
    var c, d, b, fuel := p.c, p.d, p.b, p.fuel;
    assert AfterBody(env, c, d, b, fuel).Some?;
    assert Calculate(env, c, c.step, d + 1, Normal, b.w, fuel).Some?;
    var r := Meaning(env, c.step.prelude, d + 1, b.w, fuel).value;
    var v := Calculation(env, c.step, Pending(r.signal, r.w));
    assert Calculate(env, c, c.step, d + 1, Normal, b.w, fuel) == Some(v);
    if !AtLeast(r.signal, low) {
      FoundNext(env, p, At(c.step.prelude, d + 1, b.w, fuel), low);
    } else {
      FoundNext(env, p, InTurns(c, d, b.status, v, fuel - 1), low);
    }
  }

  lemma {:induction false} FoundInTests(env: Env, p: Place, low: int)
    requires p.InTests? && IsPlace(p) && low <= 0 && Below(Outcome(env, p), low)
    ensures Strays(env, p, low)
    decreases p.fuel, p.c, p.At?, Left(p), p.InTests?, PatternsLeft(p), 2
  {
    hide Strays, Meaning, Act, Try, Pick;
    var c, d, i, j, w, fuel := p.c, p.d, p.i, p.j, p.w, p.fuel;
    if j == |c.clauses[i].patterns| {
      TryNone(env, c, d, i, Normal, w, fuel);
      if i + 1 < |c.clauses| {
        PickTries(env, c, d, i + 1, p.status, Normal, w, fuel);
        FoundNext(env, p, InTests(c, d, i + 1, 0, p.status, w, fuel), low);
      } else {
        PickNone(env, c, d, p.status, Normal, w, fuel);
      }
    } else {
      FoundInPattern(env, p, low);
    }
  }

  lemma {:induction false} FoundInPattern(env: Env, p: Place, low: int)
    requires p.InTests? && IsPlace(p) && p.j < |p.c.clauses[p.i].patterns| && low <= 0 && Below(Outcome(env, p), low)
    ensures Strays(env, p, low)
    decreases p.fuel, p.c, p.At?, Left(p), p.InTests?, PatternsLeft(p), 1
  {
    hide Strays, Meaning, Act, Try, Pick;
    var c, d, i, j, w, fuel := p.c, p.d, p.i, p.j, p.w, p.fuel;
    TryOne(env, c, d, i, j, Normal, w, fuel);
    var pattern := c.clauses[i].patterns[j];
    var r := Meaning(env, pattern.prelude, d, w, fuel).value;
    assert Substitute(env, c, pattern.prelude, d, Normal, w, fuel) == Some(Pending(r.signal, r.w));
    var y, hit := Saw(r.w, Tested(pattern.id)), env.matches(pattern.id, r.w);
    if !AtLeast(r.signal, low) {
      FoundNext(env, p, At(pattern.prelude, d, w, fuel), low);
    } else if r.signal != Normal {
      if hit {
        PendingAct(env, c, d, i, r.signal, y, fuel);
      } else {
        PendingTried(env, c, d, i, j + 1, p.status, r.signal, y, fuel);
      }
    } else {
      assert Expands(env, pattern.prelude, d, w, fuel, r.w);
      FoundNext(env, p, if hit then InClause(c, d, i, y, fuel) else InTests(c, d, i, j + 1, p.status, y, fuel), low);
    }
  }

  lemma {:induction false} FoundInClause(env: Env, p: Place, low: int)
    requires p.InClause? && IsPlace(p) && low <= 0 && Below(Outcome(env, p), low)
    ensures Strays(env, p, low)
    decreases p.fuel, p.c, p.At?, Left(p), p.InTests?, PatternsLeft(p), 2
  {
    hide Strays, Meaning, Pick, Try;
    var c, d, i, w, fuel := p.c, p.d, p.i, p.w, p.fuel;
    var r := Meaning(env, c.clauses[i].action, d, w, fuel).value;
    if !AtLeast(r.signal, low) {
      FoundNext(env, p, At(c.clauses[i].action, d, w, fuel), low);
    } else if r.signal != Normal {
      PendingAfter(env, p, r);
    } else {
      assert Ends(env, c.clauses[i].action, d, w, fuel, r);
      match c.clauses[i].end
      case Stop =>
      case Fall => FoundNext(env, p, InClause(c, d, i + 1, r.w, fuel), low);
      case Next =>
        if i + 1 == |c.clauses| {
          PickNone(env, c, d, r.status, Normal, r.w, fuel);
        } else {
          PickTries(env, c, d, i + 1, r.status, Normal, r.w, fuel);
          FoundNext(env, p, InTests(c, d, i + 1, 0, r.status, r.w, fuel), low);
        }
    }
  }

  lemma PendingAfter(env: Env, p: Place, r: Result)
    requires p.InClause? && IsPlace(p) && Meaning(env, p.c.clauses[p.i].action, p.d, p.w, p.fuel) == Some(r)
    requires r.signal != Normal
    ensures Outcome(env, p).Some? && Outcome(env, p).value.signal == r.signal
  {
    hide Meaning, Pick, Settles;
    var c, d, i, fuel := p.c, p.d, p.i, p.fuel;
    match c.clauses[i].end
    case Stop =>
    case Fall =>
      if i + 1 < |c.clauses| {
        PendingAct(env, c, d, i + 1, r.signal, r.w, fuel);
      }
    case Next => PendingPick(env, c, d, i + 1, r.status, r.signal, r.w, fuel);
  }

  // ---------------------------------------------------------------- exactly then

  /** After a command among `d` loops a signal is pending that is for none of them exactly when the run has come to a
      loop that slipped on a signal for the outermost loop of all: whatever the command holds, whatever its breaks and
      continues count, and however often loops slip within one another and within functions. */
  lemma StraysExactly(env: Env, c: Command, d: nat, w: World, fuel: nat)
    requires Meaning(env, c, d, w, fuel).Some?
    ensures AtLeast(Meaning(env, c, d, w, fuel).value.signal, 0) <==> !Strays(env, At(c, d, w, fuel), 0)
  {
    hide Meaning, StrayRun;
    var p := At(c, d, w, fuel);
    if Strays(env, p, 0) {
      var ps :| ps != [] && StrayRun(env, ps, 0) && ps[0] == p;
      StrayComesOut(env, ps, 0);
    } else if Below(Outcome(env, p), 0) {
      StrayIsFound(env, p, 0);
    }
  }

  /** So a command line leaves a signal pending, and the next one does not run, exactly in this case. */
  lemma LineStraysExactly(env: Env, c: Command, next: Command, w: World, fuel: nat)
    requires Meaning(env, c, 0, w, fuel).Some?
    ensures var r := Meaning(env, c, 0, w, fuel).value;
            && (r.signal != Normal <==> Strays(env, At(c, 0, w, fuel), 0))
            && (Strays(env, At(c, 0, w, fuel), 0) ==> Meaning(env, Then(c, next), 0, w, fuel) == Some(r))
  {
    hide Meaning, Strays;
    StraysExactly(env, c, 0, w, fuel);
    ThenMeans(env, c, next, 0, w, fuel);
  }

  /** Any command line at all: the counters are zero afterwards exactly when the run came to no such loop. */
  method ExecuteAnyLine(shell: Shell, c: Command, fuel: nat) returns (status: int, done: bool)
    requires shell.breaking == 0 && shell.continuing == 0 && shell.loopLevel == 0
    modifies shell
    ensures shell.loopLevel == 0
    ensures done ==>
              (shell.breaking == 0 && shell.continuing == 0 <==> !Strays(shell.env, At(c, 0, old(shell.w), fuel), 0))
    ensures var o := Meaning(shell.env, c, 0, old(shell.w), fuel);
            (done <==> o.Some?) && (done ==> status == o.value.status && shell.w == o.value.w)
  {
    hide Meaning, Strays;
    if Meaning(shell.env, c, 0, shell.w, fuel).Some? {
      StraysExactly(shell.env, c, 0, shell.w, fuel);
    }
    status, done := shell.Execute(c, fuel, Normal);
  }
}
