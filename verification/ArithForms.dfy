/** The arithmetic `for` loop and the `while` loop that execute_cmd.c says it is exactly equivalent to. */
module ArithForms {
  import opened Options
  import opened Commands
  import opened Slips
  import opened Blindness

  /** `((init)); while ((test)); do body; ((step)); done`. */
  function WhileForm(c: Command): Command
    requires c.ArithFor?
  {
    Then(Calc(c.init), FormLoop(c))
  }

  function FormLoop(c: Command): Command
    requires c.ArithFor?
  {
    Repeat(false, Calc(c.arith), Then(c.body, Calc(c.step)))
  }

  /** The expressions run no commands, and test and step can be told apart in what happens. */
  predicate PlainLoop(c: Command) {
    && c.ArithFor? && c.init.prelude == Null && c.arith.prelude == Null && c.step.prelude == Null
    && c.arith.id != c.step.id
  }

  function Evaluate(env: Env, a: Arith, w: World): Value {
    Calculation(env, a, Pending(Normal, w))
  }

  lemma NoWords(env: Env, c: Command, d: nat, w: World, fuel: nat)
    requires Null < c
    ensures Substitute(env, c, Null, d, Normal, w, fuel) == Some(Pending(Normal, w))
  {
    assert Meaning(env, Null, d, w, fuel) == Some(Result(SUCCESS, Normal, w));
  }

  lemma PlainCalculate(env: Env, c: Command, a: Arith, d: nat, w: World, fuel: nat)
    requires PlainLoop(c) && (a == c.init || a == c.arith || a == c.step)
    ensures Calculate(env, c, a, d, Normal, w, fuel) == Some(Evaluate(env, a, w))
  {
    hide Substitute;
    NoWords(env, c, d, w, fuel);
  }

  lemma CalcMeans(env: Env, a: Arith, d: nat, w: World, fuel: nat)
    requires a.prelude == Null
    ensures Meaning(env, Calc(a), d, w, fuel) == Some(Finish(Evaluate(env, a, w).Outcome()))
  {
    hide Substitute;
    NoWords(env, Calc(a), d, w, fuel);
    assert Inner(env, Calc(a), d, w, fuel) == Some(Evaluate(env, a, w).Outcome());
  }

  /** The body of this turn ends in a `continue` of the loop. */
  predicate BodyContinues(env: Env, c: Command, d: nat, turn: Turn)
    requires c.ArithFor? && Within(turn.v.signal, d + 1)
  {
    turn.v.ok &&
    match Calculate(env, c, c.arith, d + 1, turn.v.signal, turn.v.w, turn.fuel)
    case None => false
    case Some(t) =>
      RunsBody(t, d) &&
      match Meaning(env, c.body, d + 1, t.w, turn.fuel)
      case None => false
      case Some(b) => b.signal == Resume(d)
  }

  /** The first or third expression before this turn could be calculated, and its body does not continue the loop. */
  predicate StraightAt(env: Env, c: Command, d: nat, status: int, v: Value, fuel: nat, k: nat)
    requires c.ArithFor? && Within(v.signal, d + 1)
  {
    var o := TurnAt(env, c, d, status, v, fuel, k);
    o.Some? ==> o.value.v.ok && !BodyContinues(env, c, d, o.value)
  }

  ghost predicate Straight(env: Env, c: Command, d: nat, status: int, v: Value, fuel: nat)
    requires c.ArithFor? && Within(v.signal, d + 1)
  {
    forall k: nat :: StraightAt(env, c, d, status, v, fuel, k)
  }

  lemma StraightFrom(env: Env, c: Command, d: nat, status: int, v: Value, fuel: nat)
    requires c.ArithFor? && Within(v.signal, d + 1)
    ensures Straight(env, c, d, status, v, fuel) <==>
              && v.ok && !BodyContinues(env, c, d, Turn(status, v, fuel))
              && var n := Following(env, c, d, v, fuel);
                 n.Some? ==> Straight(env, c, d, n.value.status, n.value.v, n.value.fuel)
  {
    hide Meaning, Calculate, Following, BodyContinues;
    var n := Following(env, c, d, v, fuel);
    assert StraightAt(env, c, d, status, v, fuel, 0) <==> v.ok && !BodyContinues(env, c, d, Turn(status, v, fuel));
    if Straight(env, c, d, status, v, fuel) && n.Some? {
      forall k: nat
        ensures StraightAt(env, c, d, n.value.status, n.value.v, n.value.fuel, k)
      {
        assert StraightAt(env, c, d, status, v, fuel, k + 1);
      }
    }
    if v.ok && !BodyContinues(env, c, d, Turn(status, v, fuel)) &&
       (n.Some? ==> Straight(env, c, d, n.value.status, n.value.v, n.value.fuel)) {
      forall k: nat
        ensures StraightAt(env, c, d, status, v, fuel, k)
      {
        if k > 0 && n.Some? {
          assert StraightAt(env, c, d, n.value.status, n.value.v, n.value.fuel, k - 1);
        }
      }
    }
  }

  /** The same has happened, and the same signal is handed on. */
  predicate SameCourse(r: Result, q: Result) {
    r.w.trace == q.w.trace && r.signal == q.signal
  }

  // ---------------------------------------------------------------- what comes first

  /** The `while` loop begins with its test. */
  lemma FormBegins(env: Env, c: Command, d: nat, status: int, w: World, fuel: nat)
    requires PlainLoop(c) && Rounds(env, FormLoop(c), d, status, w, fuel).Some?
    ensures w.trace + [Calculated(c.arith.id)] <= Rounds(env, FormLoop(c), d, status, w, fuel).value.w.trace
  {
    hide Meaning;
    CalcMeans(env, c.arith, d + 1, w, fuel);
  }

  /** After a body that goes on, the arithmetic loop continues with its third expression. */
  lemma StepFollows(env: Env, c: Command, d: nat, b: Result, fuel: nat)
    requires PlainLoop(c) && Within(b.signal, d + 1) && GoesOn(b.signal, d) && AfterBody(env, c, d, b, fuel).Some?
    ensures fuel > 0
    ensures AfterBody(env, c, d, b, fuel) == Turns(env, c, d, b.status, Evaluate(env, c.step, b.w), fuel - 1)
    ensures b.w.trace + [Calculated(c.step.id)] <= AfterBody(env, c, d, b, fuel).value.w.trace
  {
    hide Turns, Calculate;
    PlainCalculate(env, c, c.step, d + 1, b.w, fuel);
  }

  /** A value before and after in worlds that differ in the last status. */
  lemma SameEvaluate(env: Env, a: Arith, v: World, w: World)
    requires Blind(env) && v.trace == w.trace
    ensures SameValue(Some(Evaluate(env, a, v)), Some(Evaluate(env, a, w)))
  {
    hide Blind;
    BlindTo(env, v, w);
  }

  /** One round of the `while` loop. */
  lemma FormRound(env: Env, c: Command, d: nat, status: int, w: World, fuel: nat)
    requires PlainLoop(c)
    ensures var t := Evaluate(env, c.arith, w);
            var w1 := t.w.(last := t.Outcome().status);
            Rounds(env, FormLoop(c), d, status, w, fuel) ==
            if !RunsBody(t, d) then Some(Result(status, Normal, w1))
            else
              match Meaning(env, c.body, d + 1, w1, fuel)
              case None => None
              case Some(b) =>
                if b.signal != Normal then NextRound(env, FormLoop(c), d, b, fuel)
                else NextRound(env, FormLoop(c), d, Finish(Evaluate(env, c.step, b.w).Outcome()), fuel)
  {
    hide Meaning, NextRound;
    CalcMeans(env, c.arith, d + 1, w, fuel);
    var t := Evaluate(env, c.arith, w);
    var w1 := t.w.(last := t.Outcome().status);
    ThenMeans(env, c.body, Calc(c.step), d + 1, w1, fuel);
    var b := Meaning(env, c.body, d + 1, w1, fuel);
    if b.Some? {
      CalcMeans(env, c.step, d + 1, b.value.w, fuel);
    }
  }

  // ---------------------------------------------------------------- side by side

  /** The statuses the two loops end with when they run side by side: the status of the last body against that of the
      last third expression, and failure against that when the test fails. */
  datatype Statuses = Statuses(arith: int, form: int)

  function StatusesOf(env: Env, c: Command, d: nat, arith: int, form: int, v: Value, fuel: nat): Statuses
    requires PlainLoop(c)
    decreases fuel
  {
    var t := Evaluate(env, c.arith, v.w);
    if !RunsBody(t, d) then Statuses(if t.ok then arith else FAILURE, form)
    else
      match Meaning(env, c.body, d + 1, t.w, fuel)
      case None => Statuses(arith, form)
      case Some(b) =>
        if b.signal != Normal || fuel == 0 then Statuses(b.status, b.status)
        else
          var s := Evaluate(env, c.step, b.w);
          StatusesOf(env, c, d, b.status, s.Outcome().status, s, fuel - 1)
  }

  /** From the same point on: the outcome `r` of the arithmetic loop and the outcome `q` of the `while` loop. */
  predicate Compare(r: Option<Result>, q: Option<Result>, straight: bool) {
    && (straight ==> (r.Some? <==> q.Some?))
    && (r.Some? ==> (straight <==> q.Some? && SameCourse(r.value, q.value)))
  }

  /** The two loops take the same course exactly when no expression fails and no body continues the loop. */
  lemma {:induction false} SideBySide(env: Env, c: Command, d: nat, arith: int, form: int, v: Value, w: World,
      fuel: nat)
    requires Blind(env) && PlainLoop(c) && v.signal == Normal && v.w.trace == w.trace
    ensures var r, q := Turns(env, c, d, arith, v, fuel), Rounds(env, FormLoop(c), d, form, w, fuel);
            && Compare(r, q, Straight(env, c, d, arith, v, fuel))
            && (Straight(env, c, d, arith, v, fuel) && r.Some? ==>
                  Statuses(r.value.status, q.value.status) == StatusesOf(env, c, d, arith, form, v, fuel))
    decreases fuel
  {
    hide Meaning, Calculate, Turns, Rounds, Blind, Straight, AfterBody, NextRound;
    StraightFrom(env, c, d, arith, v, fuel);
    if !v.ok {
      TurnFails(env, c, d, arith, v, fuel);
      if Rounds(env, FormLoop(c), d, form, w, fuel).Some? {
        FormBegins(env, c, d, form, w, fuel);
      }
    } else {
      PlainCalculate(env, c, c.arith, d + 1, v.w, fuel);
      var t, u := Evaluate(env, c.arith, v.w), Evaluate(env, c.arith, w);
      SameEvaluate(env, c.arith, v.w, w);
      TurnTested(env, c, d, arith, v, fuel, t);
      FormRound(env, c, d, form, w, fuel);
      if RunsBody(t, d) {
        var w1 := u.w.(last := u.Outcome().status);
        SameMeaning(env, c.body, d + 1, t.w, w1, fuel);
        var b, e := Meaning(env, c.body, d + 1, t.w, fuel), Meaning(env, c.body, d + 1, w1, fuel);
        if b.Some? {
          BodiesEnd(env, c, d, arith, form, v, b.value, e.value, fuel);
        }
      }
    }
  }

  /** The same, from the end of a body on. */
  lemma {:induction false} BodiesEnd(env: Env, c: Command, d: nat, arith: int, form: int, v: Value, b: Result,
      e: Result,
      fuel: nat)
    requires Blind(env) && PlainLoop(c) && v.ok && v.signal == Normal
    requires var t := Evaluate(env, c.arith, v.w);
             RunsBody(t, d) && Meaning(env, c.body, d + 1, t.w, fuel) == Some(b)
    requires Within(b.signal, d + 1) && Same(Some(b), Some(e))
    ensures var r, q := AfterBody(env, c, d, b, fuel), FormAfter(env, c, d, e, fuel);
            && Compare(r, q, Straight(env, c, d, arith, v, fuel))
            && (Straight(env, c, d, arith, v, fuel) && r.Some? ==>
                  Statuses(r.value.status, q.value.status) == StatusesOf(env, c, d, arith, form, v, fuel))
    decreases fuel, 0
  {
    hide Meaning, Calculate, Turns, Rounds, Blind, Straight, AfterBody;
    StraightFrom(env, c, d, arith, v, fuel);
    PlainCalculate(env, c, c.arith, d + 1, v.w, fuel);
    var r, q := AfterBody(env, c, d, b, fuel), FormAfter(env, c, d, e, fuel);
    if b.signal == Resume(d) {
      if r.Some? && q.Some? {
        StepFollows(env, c, d, b, fuel);
        FormBegins(env, c, d, e.status, e.w, fuel - 1);
        Diverge(b.w.trace, r.value.w.trace, q.value.w.trace, c);
      }
    } else if b.signal != Normal {
      BodyEnds(env, c, d, b, fuel);
    } else {
      PlainCalculate(env, c, c.step, d + 1, b.w, fuel);
      StepsNext(env, c, d, b, fuel);
      if fuel > 0 {
        SameEvaluate(env, c.step, b.w, e.w);
        var s, x := Evaluate(env, c.step, b.w), Finish(Evaluate(env, c.step, e.w).Outcome());
        SideBySide(env, c, d, b.status, x.status, s, x.w, fuel - 1);
      }
    }
  }

  lemma StepsNext(env: Env, c: Command, d: nat, b: Result, fuel: nat)
    requires PlainLoop(c) && b.signal == Normal
    ensures AfterBody(env, c, d, b, fuel) ==
            if fuel == 0 then None else Turns(env, c, d, b.status, Evaluate(env, c.step, b.w), fuel - 1)
  {
    hide Turns, Calculate;
    PlainCalculate(env, c, c.step, d + 1, b.w, fuel);
  }

  /** What the `while` loop does when its body proper has ended in `e`. */
  function FormAfter(env: Env, c: Command, d: nat, e: Result, fuel: nat): Option<Result>
    requires PlainLoop(c) && Within(e.signal, d + 1)
  {
    if e.signal != Normal then NextRound(env, FormLoop(c), d, e, fuel)
    else NextRound(env, FormLoop(c), d, Finish(Evaluate(env, c.step, e.w).Outcome()), fuel)
  }

  lemma BodyEnds(env: Env, c: Command, d: nat, b: Result, fuel: nat)
    requires c.ArithFor? && Within(b.signal, d + 1) && !GoesOn(b.signal, d)
    ensures AfterBody(env, c, d, b, fuel) == Some(Result(b.status, Caught(b.signal, d), b.w))
  {
    hide Calculate;
  }

  lemma Diverge(t: seq<Event>, r: seq<Event>, q: seq<Event>, c: Command)
    requires PlainLoop(c) && t + [Calculated(c.step.id)] <= r && t + [Calculated(c.arith.id)] <= q
    ensures r != q
  {
    assert r[|t|] == (t + [Calculated(c.step.id)])[|t|];
    assert q[|t|] == (t + [Calculated(c.arith.id)])[|t|];
  }

  /** The comment's equivalence, for loops whose expressions run no commands and for commands that do not look at the
      last exit status: an arithmetic `for` that ends does what the `while` loop does, and the `while` loop ends too,
      in the same order and with the same signal, exactly when its first expression and every third one it comes to
      can be calculated and no body ends in a `continue` of the loop. The exit statuses are those of StatusesOf. As
      long as this is so, one loop ends within any number of rounds exactly when the other does. */
  lemma ArithForIsWhile(env: Env, c: Command, d: nat, w: World, fuel: nat)
    requires Blind(env) && PlainLoop(c)
    ensures var o, p := Meaning(env, c, d, w, fuel), Meaning(env, WhileForm(c), d, w, fuel);
            var v := Evaluate(env, c.init, w);
            var straight := Straight(env, c, d, SUCCESS, v, fuel);
            && (o.Some? ==> (p.Some? && SameCourse(o.value, p.value) <==> straight))
            && (straight ==> (o.Some? <==> p.Some?))
            && (straight && o.Some? ==>
                  Statuses(o.value.status, p.value.status) == StatusesOf(env, c, d, SUCCESS, SUCCESS, v, fuel))
  {
    hide Meaning, Calculate, Turns, Rounds, Blind, Straight, StatusesOf;
    var v := Evaluate(env, c.init, w);
    PlainCalculate(env, c, c.init, d + 1, w, fuel);
    MeaningIsInner(env, c, d, w, fuel);
    CalcMeans(env, c.init, d, w, fuel);
    ThenMeans(env, Calc(c.init), FormLoop(c), d, w, fuel);
    var w1 := Finish(v.Outcome()).w;
    MeaningIsInner(env, FormLoop(c), d, w1, fuel);
    SideBySide(env, c, d, SUCCESS, SUCCESS, v, w1, fuel);
  }

  // ---------------------------------------------------------------- inputs where the forms differ

  /** What an expression comes to after these events. */
  ghost predicate Says(env: Env, id: nat, trace: seq<Event>, okay: bool, nonzero: bool) {
    forall last: int :: env.ok(id, World(trace, last)) == okay && env.nonzero(id, World(trace, last)) == nonzero
  }

  function Example(body: Command): Command {
    ArithFor(Arith(Null, 0), Arith(Null, 1), Arith(Null, 2), body)
  }

  /** The arithmetic loop after its first expression. */
  lemma ExampleBegins(env: Env, body: Command, d: nat, w: World, fuel: nat)
    ensures var c := Example(body);
            Meaning(env, c, d, w, fuel) == Ended(Turns(env, c, d, SUCCESS, Evaluate(env, c.init, w), fuel))
  {
    hide Meaning, Calculate, Turns;
    var c := Example(body);
    PlainCalculate(env, c, c.init, d + 1, w, fuel);
    MeaningIsInner(env, c, d, w, fuel);
  }

  /** A turn of the arithmetic loop. */
  lemma ExampleTurns(env: Env, body: Command, d: nat, status: int, v: Value, fuel: nat)
    requires v.ok && v.signal == Normal
    ensures var c := Example(body);
            var t := Evaluate(env, c.arith, v.w);
            Turns(env, c, d, status, v, fuel) ==
            if !RunsBody(t, d) then Some(Result(if t.ok then status else FAILURE, Normal, t.w))
            else
              var b := Meaning(env, body, d + 1, t.w, fuel);
              if b.None? then None else AfterBody(env, c, d, b.value, fuel)
  {
    hide Meaning, Calculate, Turns, AfterBody;
    var c := Example(body);
    PlainCalculate(env, c, c.arith, d + 1, v.w, fuel);
    TurnTested(env, c, d, status, v, fuel, Evaluate(env, c.arith, v.w));
  }

  lemma ExampleSteps(env: Env, body: Command, d: nat, b: Result, fuel: nat)
    requires GoesOn(b.signal, d) && fuel > 0
    ensures var c := Example(body);
            AfterBody(env, c, d, b, fuel) == Turns(env, c, d, b.status, Evaluate(env, c.step, b.w), fuel - 1)
  {
    hide Turns, Calculate;
    var c := Example(body);
    PlainCalculate(env, c, c.step, d + 1, b.w, fuel);
  }

  /** The `while` loop after its first expression. */
  lemma FormBeginsWith(env: Env, body: Command, d: nat, w: World, fuel: nat)
    ensures var c := Example(body);
            var w1 := Finish(Evaluate(env, c.init, w).Outcome()).w;
            Meaning(env, WhileForm(c), d, w, fuel) == Ended(Ended(Rounds(env, FormLoop(c), d, SUCCESS, w1, fuel)))
  {
    hide Meaning, Rounds;
    var c := Example(body);
    CalcMeans(env, c.init, d, w, fuel);
    ThenMeans(env, Calc(c.init), FormLoop(c), d, w, fuel);
    MeaningIsInner(env, FormLoop(c), d, Finish(Evaluate(env, c.init, w).Outcome()).w, fuel);
  }

  /** When the first expression fails, the `while` loop still tests. */
  lemma InitExample(env: Env, body: Command, d: nat, w: World, fuel: nat)
    requires Says(env, 0, w.trace, false, false) && Says(env, 1, w.trace + [Calculated(0)], true, false)
    ensures var r, q := Meaning(env, Example(body), d, w, fuel), Meaning(env, WhileForm(Example(body)), d, w, fuel);
            && r == Some(Result(FAILURE, Normal, World(w.trace + [Calculated(0)], FAILURE)))
            && q == Some(Result(SUCCESS, Normal, World(w.trace + [Calculated(0)] + [Calculated(1)], SUCCESS)))
  {
    hide Meaning, Turns, Rounds;
    var c := Example(body);
    ExampleBegins(env, body, d, w, fuel);
    assert !env.ok(0, World(w.trace, w.last));
    TurnFails(env, c, d, SUCCESS, Evaluate(env, c.init, w), fuel);
    FormBeginsWith(env, body, d, w, fuel);
    FormRound(env, c, d, SUCCESS, Finish(Evaluate(env, c.init, w).Outcome()).w, fuel);
  }

  /** When the test fails, the same has happened but the statuses differ. */
  lemma TestExample(env: Env, body: Command, d: nat, w: World, fuel: nat)
    requires Says(env, 0, w.trace, true, false) && Says(env, 1, w.trace + [Calculated(0)], false, false)
    ensures var r, q := Meaning(env, Example(body), d, w, fuel), Meaning(env, WhileForm(Example(body)), d, w, fuel);
            && r.Some? && q.Some? && SameCourse(r.value, q.value)
            && r.value.status == FAILURE && q.value.status == SUCCESS
  {
    hide Meaning, Turns, Rounds;
    var c := Example(body);
    ExampleBegins(env, body, d, w, fuel);
    assert env.ok(0, World(w.trace, w.last));
    ExampleTurns(env, body, d, SUCCESS, Evaluate(env, c.init, w), fuel);
    FormBeginsWith(env, body, d, w, fuel);
    FormRound(env, c, d, SUCCESS, Finish(Evaluate(env, c.init, w).Outcome()).w, fuel);
  }

  /** `for ((init; test; step)) do continue; done`: the third expression is calculated, while `continue` skips it in the
      `while` loop. */
  lemma ContinueExample(env: Env, d: nat, w: World, fuel: nat)
    requires fuel > 0 && Says(env, 0, w.trace, true, false)
    requires var t := w.trace + [Calculated(0)];
             && Says(env, 1, t, true, true) && Says(env, 2, t + [Calculated(1)], true, false)
             && Says(env, 1, t + [Calculated(1)] + [Calculated(2)], true, false)
             && Says(env, 1, t + [Calculated(1)], true, false)
    ensures var c := Example(Continue(1));
            var r, q := Meaning(env, c, d, w, fuel), Meaning(env, WhileForm(c), d, w, fuel);
            && r.Some? && r.value.w.trace
                 == w.trace + [Calculated(0)] + [Calculated(1)] + [Calculated(2)] + [Calculated(1)]
            && q.Some? && q.value.w.trace == w.trace + [Calculated(0)] + [Calculated(1)] + [Calculated(1)]
  {
    hide Meaning, Turns, Rounds, AfterBody;
    var c := Example(Continue(1));
    ExampleBegins(env, Continue(1), d, w, fuel);
    var v := Evaluate(env, c.init, w);
    assert env.ok(0, World(w.trace, w.last));
    ExampleTurns(env, Continue(1), d, SUCCESS, v, fuel);
    var t := Evaluate(env, c.arith, v.w);
    ContinueMeans(env, 1, d + 1, t.w, fuel);
    var b := Result(SUCCESS, Resume(d), t.w.(last := SUCCESS));
    ExampleSteps(env, Continue(1), d, b, fuel);
    ExampleTurns(env, Continue(1), d, SUCCESS, Evaluate(env, c.step, b.w), fuel - 1);
    FormBeginsWith(env, Continue(1), d, w, fuel);
    var x := Finish(v.Outcome()).w;
    FormRound(env, c, d, SUCCESS, x, fuel);
    var u := Finish(Evaluate(env, c.arith, x).Outcome()).w;
    ContinueMeans(env, 1, d + 1, u, fuel);
    FormRound(env, c, d, SUCCESS, u.(last := SUCCESS), fuel - 1);
  }

  /** The variable of `for ((i=0; i<3; i++))`: set by the first expression, counted up by the third. */
  function Index(trace: seq<Event>): nat {
    if trace == [] then 0
    else
      var n := |trace| - 1;
      if trace[n] == Calculated(0) then 0
      else if trace[n] == Calculated(2) then Index(trace[..n]) + 1
      else Index(trace[..n])
  }

  ghost predicate CountsToThree(env: Env) {
    forall w: World, id: nat :: env.ok(id, w) && (env.nonzero(1, w) <==> Index(w.trace) < 3)
  }

  lemma IndexAfter(trace: seq<Event>, e: Event)
    ensures Index(trace + [e]) ==
            if e == Calculated(0) then 0 else if e == Calculated(2) then Index(trace) + 1 else Index(trace)
  {
    assert (trace + [e])[..|trace|] == trace;
  }

  /** A turn of `for ((i=0; i<3; i++)) do continue; done`. */
  lemma CountingTurn(env: Env, d: nat, status: int, v: Value, fuel: nat)
    requires CountsToThree(env) && v.ok && v.signal == Normal
    ensures var c := Example(Continue(1));
            var w1 := Saw(v.w, Calculated(1));
            Turns(env, c, d, status, v, fuel) ==
            if Index(v.w.trace) >= 3 then Some(Result(status, Normal, w1))
            else if fuel == 0 then None
            else Turns(env, c, d, SUCCESS, Evaluate(env, c.step, w1.(last := SUCCESS)), fuel - 1)
  {
    hide Meaning, Turns, Calculate;
    var c := Example(Continue(1));
    ExampleTurns(env, Continue(1), d, status, v, fuel);
    var t := Evaluate(env, c.arith, v.w);
    ContinueMeans(env, 1, d + 1, t.w, fuel);
    var b := Result(SUCCESS, Resume(d), t.w.(last := SUCCESS));
    PlainCalculate(env, c, c.step, d + 1, b.w, fuel);
  }

  /** From the test on the `while` loop comes back to its test with `i` unchanged. */
  lemma {:induction false} CountingNever(env: Env, d: nat, status: int, w: World, fuel: nat)
    requires CountsToThree(env) && Index(w.trace) < 3
    ensures Rounds(env, FormLoop(Example(Continue(1))), d, status, w, fuel) == None
    decreases fuel
  {
    hide Meaning, Rounds, CountsToThree;
    var c := Example(Continue(1));
    FormRound(env, c, d, status, w, fuel);
    assert env.ok(1, w) && env.nonzero(1, w) by {
      Counted(env, w);
    }
    var w1 := Saw(w, Calculated(1)).(last := SUCCESS);
    IndexAfter(w.trace, Calculated(1));
    ContinueMeans(env, 1, d + 1, w1, fuel);
    var b := Result(SUCCESS, Resume(d), w1);
    assert NextRound(env, FormLoop(c), d, b, fuel) ==
           if fuel == 0 then None else Rounds(env, FormLoop(c), d, SUCCESS, w1, fuel - 1);
    if fuel > 0 {
      CountingNever(env, d, SUCCESS, w1, fuel - 1);
    }
  }

  lemma Counted(env: Env, w: World)
    requires CountsToThree(env)
    ensures env.ok(1, w) && (env.nonzero(1, w) <==> Index(w.trace) < 3)
  {
  }

  /** `for ((i=0; i<3; i++)) do continue; done` ends after three rounds; the `while` loop never does. */
  lemma CountingExample(env: Env, d: nat, w: World, fuel: nat)
    requires CountsToThree(env)
    ensures var c := Example(Continue(1));
            var o := Meaning(env, c, d, w, fuel);
            var round := [Calculated(1), Calculated(2)];
            && (fuel >= 3 ==> o.Some? && o.value.signal == Normal)
            && (fuel >= 3 ==> o.value.w.trace == w.trace + [Calculated(0)] + round + round + round + [Calculated(1)])
            && Meaning(env, WhileForm(c), d, w, fuel) == None
  {
    hide Meaning, Turns, Rounds;
    var c := Example(Continue(1));
    ExampleBegins(env, Continue(1), d, w, fuel);
    FormBeginsWith(env, Continue(1), d, w, fuel);
    IndexAfter(w.trace, Calculated(0));
    CountingNever(env, d, SUCCESS, Finish(Evaluate(env, c.init, w).Outcome()).w, fuel);
    if fuel >= 3 {
      CountingRun(env, d, SUCCESS, Evaluate(env, c.init, w), fuel, 3);
      Unrolled(w.trace + [Calculated(0)]);
    }
  }

  /** `n` rounds of test and third expression, and the last test. */
  function RoundEvents(trace: seq<Event>, n: nat): seq<Event>
    decreases n
  {
    if n == 0 then trace + [Calculated(1)]
    else RoundEvents(trace + [Calculated(1)] + [Calculated(2)], n - 1)
  }

  lemma Unrolled(trace: seq<Event>)
    ensures RoundEvents(trace, 3) == trace + [Calculated(1), Calculated(2)] + [Calculated(1), Calculated(2)]
                                     + [Calculated(1), Calculated(2)] + [Calculated(1)]
  {
    var t1 := trace + [Calculated(1)] + [Calculated(2)];
    var t2 := t1 + [Calculated(1)] + [Calculated(2)];
    var t3 := t2 + [Calculated(1)] + [Calculated(2)];
    assert RoundEvents(trace, 3) == RoundEvents(t1, 2) == RoundEvents(t2, 1) == RoundEvents(t3, 0);
  }

  lemma {:induction false} CountingRun(env: Env, d: nat, status: int, v: Value, fuel: nat, n: nat)
    requires CountsToThree(env) && v.ok && v.signal == Normal && Index(v.w.trace) + n == 3 && fuel >= n
    ensures var o := Turns(env, Example(Continue(1)), d, status, v, fuel);
            o.Some? && o.value.signal == Normal && o.value.w.trace == RoundEvents(v.w.trace, n)
    decreases n
  {
    hide Turns;
    CountingTurn(env, d, status, v, fuel);
    if n > 0 {
      var w1 := Saw(v.w, Calculated(1));
      IndexAfter(v.w.trace, Calculated(1));
      IndexAfter(w1.trace, Calculated(2));
      CountingRun(env, d, SUCCESS, Evaluate(env, Example(Continue(1)).step, w1.(last := SUCCESS)), fuel - 1, n - 1);
    }
  }

  /** When a third expression fails, the `while` loop still tests. */
  lemma StepExample(env: Env, d: nat, w: World, fuel: nat)
    requires fuel > 0 && Says(env, 0, w.trace, true, false)
    requires var t := w.trace + [Calculated(0)];
             && Says(env, 1, t, true, true) && Says(env, 2, t + [Calculated(1)], false, false)
             && Says(env, 1, t + [Calculated(1)] + [Calculated(2)], true, false)
    ensures var c := Example(Null);
            var r, q := Meaning(env, c, d, w, fuel), Meaning(env, WhileForm(c), d, w, fuel);
            && r.Some? && r.value.status == FAILURE
            && r.value.w.trace == w.trace + [Calculated(0)] + [Calculated(1)] + [Calculated(2)]
            && q.Some? && q.value.w.trace
                 == w.trace + [Calculated(0)] + [Calculated(1)] + [Calculated(2)] + [Calculated(1)]
  {
    hide Meaning, Turns, Rounds, AfterBody;
    var c := Example(Null);
    ExampleBegins(env, Null, d, w, fuel);
    var v := Evaluate(env, c.init, w);
    assert env.ok(0, World(w.trace, w.last));
    ExampleTurns(env, Null, d, SUCCESS, v, fuel);
    var t := Evaluate(env, c.arith, v.w);
    NullMeans(env, d + 1, t.w, fuel);
    ExampleSteps(env, Null, d, Result(SUCCESS, Normal, t.w), fuel);
    TurnFails(env, c, d, SUCCESS, Evaluate(env, c.step, t.w), fuel - 1);
    FormBeginsWith(env, Null, d, w, fuel);
    var x := Finish(v.Outcome()).w;
    FormRound(env, c, d, SUCCESS, x, fuel);
    var u := Finish(Evaluate(env, c.arith, x).Outcome()).w;
    NullMeans(env, d + 1, u, fuel);
    var y := Finish(Evaluate(env, c.step, u).Outcome());
    assert NextRound(env, FormLoop(c), d, y, fuel) == Rounds(env, FormLoop(c), d, y.status, y.w, fuel - 1);
    FormRound(env, c, d, y.status, y.w, fuel - 1);
  }
}
