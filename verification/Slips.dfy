/** Loops that end without looking at a pending signal. The condition is stated on the evaluations themselves: a first
    or third expression that fails, a word list that is empty, or a first word that cannot be assigned, while a break or
    continue raised in that expression or list is pending. */
module Slips {
  import opened Options
  import opened Commands
  import opened Executor
  import opened Signals

  /** An arithmetic loop before its next test. */
  datatype Turn = Turn(status: int, v: Value, fuel: nat)

  /** The next turn: the test lets the body run, the body goes on, and the third expression is calculated. */
  function Following(env: Env, c: Command, d: nat, v: Value, fuel: nat): (o: Option<Turn>)
    requires c.ArithFor? && Within(v.signal, d + 1)
    ensures o.Some? ==> Within(o.value.v.signal, d + 1)
  {
    if !v.ok || fuel == 0 then None
    else
      match Calculate(env, c, c.arith, d + 1, v.signal, v.w, fuel)
      case None => None
      case Some(t) =>
        if !RunsBody(t, d) then None
        else
          match Meaning(env, c.body, d + 1, t.w, fuel)
          case None => None
          case Some(b) =>
            if !GoesOn(b.signal, d) then None
            else
              match Calculate(env, c, c.step, d + 1, Normal, b.w, fuel)
              case None => None
              case Some(s) => Some(Turn(b.status, s, fuel - 1))
  }

  /** The k-th turn of an arithmetic loop, if it comes so far. */
  function TurnAt(env: Env, c: Command, d: nat, status: int, v: Value, fuel: nat, k: nat): (o: Option<Turn>)
    requires c.ArithFor? && Within(v.signal, d + 1)
    ensures o.Some? ==> Within(o.value.v.signal, d + 1)
    decreases k
  {
    if k == 0 then Some(Turn(status, v, fuel))
    else
      match Following(env, c, d, v, fuel)
      case None => None
      case Some(n) => TurnAt(env, c, d, n.status, n.v, n.fuel, k - 1)
  }

  predicate AimsAt(s: Signal, loop: int) {
    s != Normal && s.loop == loop
  }

  /** A turn is reached whose expression failed while a signal for the loop was pending. */
  ghost predicate FailsPending(env: Env, c: Command, d: nat, status: int, v: Value, fuel: nat, loop: int)
    requires c.ArithFor? && Within(v.signal, d + 1)
  {
    exists k: nat :: FailsAt(env, c, d, status, v, fuel, loop, k)
  }

  predicate FailsAt(env: Env, c: Command, d: nat, status: int, v: Value, fuel: nat, loop: int, k: nat)
    requires c.ArithFor? && Within(v.signal, d + 1)
  {
    var o := TurnAt(env, c, d, status, v, fuel, k);
    o.Some? && !o.value.v.ok && AimsAt(o.value.v.signal, loop)
  }

  /** A `for` loop has no first word to assign, or cannot assign it. */
  predicate NothingBound(env: Env, id: nat, p: Pending) {
    env.words(id, p.w) == 0 || !env.bind(id, 0, Saw(p.w, Expanded(id)))
  }

  /** The loop ends with its counters unread while a signal for loop number `loop` is pending. */
  ghost predicate Slips(env: Env, c: Command, d: nat, w: World, fuel: nat, loop: int)
    requires c.For? || c.ArithFor?
  {
    if c.For? then
      && env.named(c.id, w)
      && var o := Substitute(env, c, c.words, d + 1, Normal, Saw(w, Named(c.id)), fuel);
         o.Some? && AimsAt(o.value.s, loop) && NothingBound(env, c.id, o.value)
    else
      var o := Calculate(env, c, c.init, d + 1, Normal, w, fuel);
      o.Some? && FailsPending(env, c, d, SUCCESS, o.value, fuel, loop)
  }

  /** From among `d` loops, the command aims at most `m` loops out. */
  ghost predicate Reaches(env: Env, p: Command, d: nat, m: nat) {
    forall w, fuel: nat :: var o := Meaning(env, p, d, w, fuel); o.Some? ==> AtLeast(o.value.signal, d - m)
  }

  /** The parts of a loop with number `d` aim at most `m` loops out from inside it. */
  ghost predicate PartsReach(env: Env, c: Command, d: nat, m: nat)
    requires c.For? || c.ArithFor?
  {
    if c.For? then Reaches(env, c.words, d + 1, m) && Reaches(env, c.body, d + 1, m)
    else
      && Reaches(env, c.init.prelude, d + 1, m) && Reaches(env, c.arith.prelude, d + 1, m)
      && Reaches(env, c.step.prelude, d + 1, m) && Reaches(env, c.body, d + 1, m)
  }

  /** What no break or continue escapes from by more than `m` loops reaches no further; and whatever its breaks and
      continues count, none reaches further than all loops. */
  lemma TameReaches(env: Env, p: Command, d: nat, m: nat)
    requires Tame(p) && TameFunctions(env) && Bounded(p, d, m)
    ensures Reaches(env, p, d, m)
  {
    hide Meaning;
    forall w, fuel: nat
      ensures var o := Meaning(env, p, d, w, fuel); o.Some? ==> AtLeast(o.value.signal, d - m)
    {
      SaneMeaning(env, p, d, m, w, fuel);
    }
  }

  lemma ReachesFrom(env: Env, p: Command, m: nat, d: nat, w: World, fuel: nat)
    requires Reaches(env, p, d, m)
    ensures var o := Meaning(env, p, d, w, fuel); o.Some? ==> AtLeast(o.value.signal, d - m)
  {
    hide Meaning;
  }

  // ---------------------------------------------------------------- one loop too many

  /** When a loop slips, what was pending counts from one loop further out, at any depth. */
  lemma SlipsOneLoopOut(env: Env, c: Command, d: nat, w: World, fuel: nat, loop: int)
    requires (c.For? || c.ArithFor?) && Slips(env, c, d, w, fuel, loop)
    ensures var o := Meaning(env, c, d, w, fuel); o.Some? && AimsAt(o.value.signal, loop - 1)
  {
    hide Meaning, Substitute, Calculate, Turns, TurnAt;
    MeaningIsInner(env, c, d, w, fuel);
    if c.ArithFor? {
      var v := Calculate(env, c, c.init, d + 1, Normal, w, fuel).value;
      var k: nat :| FailsAt(env, c, d, SUCCESS, v, fuel, loop, k);
      TurnsFrom(env, c, d, SUCCESS, v, fuel, k);
      var t := TurnAt(env, c, d, SUCCESS, v, fuel, k).value;
      TurnFails(env, c, d, t.status, t.v, t.fuel);
    }
  }

  /** The loop from any of its turns on is the loop. */
  lemma {:induction false} TurnsFrom(env: Env, c: Command, d: nat, status: int, v: Value, fuel: nat, k: nat)
    requires c.ArithFor? && Within(v.signal, d + 1) && TurnAt(env, c, d, status, v, fuel, k).Some?
    ensures var t := TurnAt(env, c, d, status, v, fuel, k).value;
            Turns(env, c, d, status, v, fuel) == Turns(env, c, d, t.status, t.v, t.fuel)
    decreases k
  {
    hide Meaning, Calculate;
    if k > 0 {
      var n := Following(env, c, d, v, fuel).value;
      TurnsFrom(env, c, d, n.status, n.v, n.fuel, k - 1);
    }
  }

  // ---------------------------------------------------------------- exactly then

  /** A loop whose parts aim at most m loops out, itself the first of them, hands on a signal for a loop further out
      exactly when it slips on a signal for the outermost of the m. With m = 1: when its parts aim at no loop but
      itself, a signal comes out of it exactly when it slips. With m = d + 1: the counters exceed the depth afterwards
      exactly when it slips on a signal for the outermost loop of all; this needs only that its parts do not do so
      themselves, whatever their breaks and continues count. */
  lemma SlipExactly(env: Env, c: Command, d: nat, m: nat, w: World, fuel: nat)
    requires (c.For? || c.ArithFor?) && 1 <= m <= d + 1 && PartsReach(env, c, d, m)
    requires Meaning(env, c, d, w, fuel).Some?
    ensures AtLeast(Meaning(env, c, d, w, fuel).value.signal, d + 1 - m) <==> !Slips(env, c, d, w, fuel, d + 1 - m)
  {
    hide Meaning, Substitute, Calculate, Turns, Each, Reaches, FailsPending;
    MeaningIsInner(env, c, d, w, fuel);
    if c.For? {
      var w1 := Saw(w, Named(c.id));
      if env.named(c.id, w) {
        WordsReach(env, c, c.words, d + 1, m, w1, fuel);
        var p := Substitute(env, c, c.words, d + 1, Normal, w1, fuel).value;
        SlipOfList(env, c, d, m, p, fuel);
      }
    } else {
      WordsReach(env, c, c.init.prelude, d + 1, m, w, fuel);
      CalculateReach(env, c, c.init, d + 1, Normal, w, fuel);
      var v := Calculate(env, c, c.init, d + 1, Normal, w, fuel).value;
      SlipOfTurns(env, c, d, m, SUCCESS, v, fuel);
    }
  }

  lemma WordsReach(env: Env, c: Command, p: Command, d: nat, m: nat, w: World, fuel: nat)
    requires p < c && Reaches(env, p, d, m)
    ensures var o := Substitute(env, c, p, d, Normal, w, fuel); o.Some? ==> AtLeast(o.value.s, d - m)
  {
    hide Meaning, Reaches;
    ReachesFrom(env, p, m, d, w, fuel);
  }

  /** The signal of a value is that of its expansion. */
  lemma CalculateReach(env: Env, c: Command, a: Arith, d: nat, s: Signal, w: World, fuel: nat)
    requires c.ArithFor? && (a == c.init || a == c.arith || a == c.step) && Within(s, d)
    ensures var o, p := Calculate(env, c, a, d, s, w, fuel), Substitute(env, c, a.prelude, d, s, w, fuel);
            (o.Some? <==> p.Some?) && (o.Some? ==> o.value.signal == p.value.s)
    ensures var o := Calculate(env, c, a, d, s, w, fuel); o.Some? && s != Normal ==> o.value.signal == s
  {
    hide Meaning;
  }

  lemma SlipOfList(env: Env, c: Command, d: nat, m: nat, p: Pending, fuel: nat)
    requires c.For? && 1 <= m <= d + 1 && Reaches(env, c.body, d + 1, m)
    requires Within(p.s, d + 1) && AtLeast(p.s, d + 1 - m)
    ensures var o := Each(env, c, d, 0, env.words(c.id, p.w), SUCCESS, p.s, Saw(p.w, Expanded(c.id)), fuel);
            o.Some? ==>
              (AtLeast(o.value.signal, d + 1 - m) <==> !(AimsAt(p.s, d + 1 - m) && NothingBound(env, c.id, p)))
  {
    hide Meaning, Reaches;
    var n, w := env.words(c.id, p.w), Saw(p.w, Expanded(c.id));
    if !NothingBound(env, c.id, p) {
      var w1 := Saw(w, Bound(c.id, 0));
      ReachesFrom(env, c.body, m, d + 1, w1, fuel);
      var b := if p.s != Normal then Some(Result(w1.last, p.s, w1)) else Meaning(env, c.body, d + 1, w1, fuel);
      if b.Some? {
        ListReach(env, c, d, m, 1, n, b.value.status, b.value.w, fuel);
      }
    }
  }

  lemma {:induction false} ListReach(env: Env, c: Command, d: nat, m: nat, k: nat, n: nat, status: int, w: World,
      fuel: nat)
    requires c.For? && k <= n && 1 <= m <= d + 1 && Reaches(env, c.body, d + 1, m)
    ensures var o := Each(env, c, d, k, n, status, Normal, w, fuel); o.Some? ==> AtLeast(o.value.signal, d + 1 - m)
    decreases n - k
  {
    hide Meaning, Reaches;
    if k < n {
      var w1 := Saw(w, Bound(c.id, k));
      ReachesFrom(env, c.body, m, d + 1, w1, fuel);
      var b := Meaning(env, c.body, d + 1, w1, fuel);
      if b.Some? {
        ListReach(env, c, d, m, k + 1, n, b.value.status, b.value.w, fuel);
      }
    }
  }

  lemma {:induction false} SlipOfTurns(env: Env, c: Command, d: nat, m: nat, status: int, v: Value, fuel: nat)
    requires c.ArithFor? && 1 <= m <= d + 1 && PartsReach(env, c, d, m)
    requires Within(v.signal, d + 1) && AtLeast(v.signal, d + 1 - m)
    ensures var o := Turns(env, c, d, status, v, fuel);
            o.Some? ==>
              (AtLeast(o.value.signal, d + 1 - m) <==> !FailsPending(env, c, d, status, v, fuel, d + 1 - m))
    decreases fuel
  {
    hide Meaning, Calculate, Reaches, FailsPending, Substitute, Turns;
    if !v.ok {
      TurnFails(env, c, d, status, v, fuel);
      FailsNow(env, c, d, status, v, fuel, d + 1 - m);
    } else {
      WordsReach(env, c, c.arith.prelude, d + 1, m, v.w, fuel);
      CalculateReach(env, c, c.arith, d + 1, v.signal, v.w, fuel);
      var t := Calculate(env, c, c.arith, d + 1, v.signal, v.w, fuel);
      if t.None? {
        TurnStuck(env, c, d, status, v, fuel);
      } else {
        TurnTested(env, c, d, status, v, fuel, t.value);
        FailsLater(env, c, d, status, v, fuel, d + 1 - m);
        if RunsBody(t.value, d) {
          ReachesFrom(env, c.body, m, d + 1, t.value.w, fuel);
          var b := Meaning(env, c.body, d + 1, t.value.w, fuel);
          if b.Some? && GoesOn(b.value.signal, d) && fuel > 0 {
            WordsReach(env, c, c.step.prelude, d + 1, m, b.value.w, fuel);
            CalculateReach(env, c, c.step, d + 1, Normal, b.value.w, fuel);
            var s := Calculate(env, c, c.step, d + 1, Normal, b.value.w, fuel);
            if s.Some? {
              SlipOfTurns(env, c, d, m, b.value.status, s.value, fuel - 1);
            }
          }
        }
      }
    }
  }

  lemma FailsNow(env: Env, c: Command, d: nat, status: int, v: Value, fuel: nat, loop: int)
    requires c.ArithFor? && Within(v.signal, d + 1) && !v.ok
    ensures FailsPending(env, c, d, status, v, fuel, loop) <==> AimsAt(v.signal, loop)
  {
    hide Meaning, Calculate;
    assert FailsAt(env, c, d, status, v, fuel, loop, 0) <==> AimsAt(v.signal, loop);
  }

  /** With a good value, the failing turn is a later one. */
  lemma FailsLater(env: Env, c: Command, d: nat, status: int, v: Value, fuel: nat, loop: int)
    requires c.ArithFor? && Within(v.signal, d + 1) && v.ok
    ensures var n := Following(env, c, d, v, fuel);
            FailsPending(env, c, d, status, v, fuel, loop)
            <==> n.Some? && FailsPending(env, c, d, n.value.status, n.value.v, n.value.fuel, loop)
  {
    hide Meaning, Calculate, Following;
    var n := Following(env, c, d, v, fuel);
    if FailsPending(env, c, d, status, v, fuel, loop) {
      var k: nat :| FailsAt(env, c, d, status, v, fuel, loop, k);
      assert FailsAt(env, c, d, n.value.status, n.value.v, n.value.fuel, loop, k - 1);
    }
    if n.Some? && FailsPending(env, c, d, n.value.status, n.value.v, n.value.fuel, loop) {
      var k: nat :| FailsAt(env, c, d, n.value.status, n.value.v, n.value.fuel, loop, k);
      assert FailsAt(env, c, d, status, v, fuel, loop, k + 1);
    }
  }

  // ---------------------------------------------------------------- inputs

  /** `for ((${ break; } fails; ; )) do ...; done; next`: a break is still pending outside of all loops, and the next
      command does not run. */
  lemma FailingExample(env: Env, w: World, fuel: nat)
    requires !env.ok(0, World(w.trace, SUCCESS))
    ensures var c := ArithFor(Arith(Break(1), 0), Arith(Null, 1), Arith(Null, 2), Null);
            var o := Meaning(env, c, 0, w, fuel);
            && o.Some? && Breaks(o.value.signal, 0) == 1
            && Meaning(env, Then(c, Simple(Null, 3)), 0, w, fuel) == o
  {
    hide Turns, Meaning;
    var c := ArithFor(Arith(Break(1), 0), Arith(Null, 1), Arith(Null, 2), Null);
    BreakMeans(env, 1, 1, w, fuel);
    var p := Pending(Leave(0), World(w.trace, SUCCESS));
    assert Substitute(env, c, Break(1), 1, Normal, w, fuel) == Some(p);
    assert FailsAt(env, c, 0, SUCCESS, Calculation(env, c.init, p), fuel, 0, 0);
    SlipsOneLoopOut(env, c, 0, w, fuel, 0);
    TurnFails(env, c, 0, SUCCESS, Calculation(env, c.init, p), fuel);
    MeaningIsInner(env, c, 0, w, fuel);
    ThenMeans(env, c, Simple(Null, 3), 0, w, fuel);
  }

  /** `for x in ${ break n; }; do ...; done; next`, with nothing left to assign: outside of all loops the same happens
      for every count, `break 0` and `break 99` included, and inside of others one loop more is left. */
  lemma EmptyListExample(env: Env, n: int, body: Command, d: nat, w: World, fuel: nat)
    requires env.named(1, w) && env.words(1, World(w.trace + [Named(1)], CountStatus(n, d + 1))) == 0
    ensures var c := For(Break(n), 1, body);
            var o := Meaning(env, c, d, w, fuel);
            && o.Some? && o.value.signal == Leave(if 0 < n <= d then d - n else -1)
            && Breaks(o.value.signal, d) == (if 0 < n <= d then n else d + 1)
            && Meaning(env, Then(c, Simple(Null, 3)), d, w, fuel) == o
  {
    hide Meaning;
    var c := For(Break(n), 1, body);
    var w1 := Saw(w, Named(1));
    BreakMeans(env, n, d + 1, w1, fuel);
    MeaningIsInner(env, c, d, w, fuel);
    ThenMeans(env, c, Simple(Null, 3), d, w, fuel);
  }

  /** A break that stays inside of the expression is harmless: `for ((${ while :; do break; done; } ...; ; ))`. */
  lemma HarmlessExample(body: Command)
    requires Tame(body)
    ensures Tame(ArithFor(Arith(Repeat(false, Simple(Null, 0), Break(1)), 1), Arith(Null, 2), Arith(Null, 3), body))
  {
    var loop := Repeat(false, Simple(Null, 0), Break(1));
    assert Contained(loop, 0) && Tame(loop);
  }
}
