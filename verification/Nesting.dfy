/** Breaking and continuing from anywhere inside nested loops: along any run of places from a command into its parts,
    through any number of rounds of the loops on the way, to the `break` or `continue`. */
module Nesting {
  import opened Options
  import opened Commands
  import opened Slips
  import opened Places

  // ---------------------------------------------------------------- paths on which every loop looks at its counters

  /** The signal in this result of the part at `q` is looked at. It is not when a word list is empty or its first word
      cannot be assigned, and when a first or third expression fails. */
  predicate Looks(env: Env, p: Place, q: Place, r: Result) {
    q.At? ==>
      match p
      case At(For(_, id, _), _, _, _) => !NothingBound(env, id, Pending(r.signal, r.w))
      case At(ArithFor(init, _, _, _), _, _, _) => env.ok(init.id, r.w)
      case InStep(ArithFor(_, _, step, _), _, _, _) => env.ok(step.id, r.w)
      case _ => true
  }

  /** The step stays in the function it is in, and leads nowhere that a signal is not looked at. */
  predicate Heeds(env: Env, p: Place, q: Place)
    requires IsPlace(q)
  {
    !IsCall(p, q) && (Outcome(env, q).Some? ==> Looks(env, p, q, Outcome(env, q).value))
  }

  ghost predicate IsPath(env: Env, ps: seq<Place>) {
    IsRun(env, ps) && forall i :: 0 <= i < |ps| - 1 ==> Heeds(env, ps[i], ps[i + 1])
  }

  /** What still happens at `p` when the part at `q` has ended in a signal, tests of patterns aside: the expansion that
      the part stands in is completed, and what was expanded is used. */
  function Completion(env: Env, p: Place, q: Place): seq<Event> {
    if !q.At? then []
    else
      match p
      case At(Simple(_, id), _, _, _) => [Ran(id)]
      case At(Calc(a), _, _, _) => [Calculated(a.id)]
      case At(Call(_, f), _, _, _) => if f in env.funcs then [] else [Ran(f)]
      case At(Case(_, id, _), _, _, _) => [Expanded(id)]
      case At(For(_, id, _), _, _, _) => [Expanded(id), Bound(id, 0)]
      case At(ArithFor(init, arith, _, _), _, _, _) => [Calculated(init.id), Calculated(arith.id)]
      case InTurns(ArithFor(_, arith, _, _), _, _, v, _) => if q.w == v.w then [Calculated(arith.id)] else []
      case InStep(ArithFor(_, arith, step, _), _, _, _) => [Calculated(step.id), Calculated(arith.id)]
      case _ => []
  }

  /** The same for a path from its i-th place on, from the inside out. */
  function Completions(env: Env, ps: seq<Place>, i: nat): seq<Event>
    requires i < |ps|
    decreases |ps| - i
  {
    if i == |ps| - 1 then [] else Completions(env, ps, i + 1) + Completion(env, ps[i], ps[i + 1])
  }

  /** All but the tests of patterns. */
  function Essential(events: seq<Event>): seq<Event> {
    if events == [] then []
    else (if events[0].Tested? then [] else [events[0]]) + Essential(events[1..])
  }

  lemma {:induction false} EssentialAppend(a: seq<Event>, b: seq<Event>)
    ensures Essential(a + b) == Essential(a) + Essential(b)
  {
    if a == [] {
      assert a + b == b;
    } else {
      assert (a + b)[0] == a[0] && (a + b)[1..] == a[1..] + b;
      EssentialAppend(a[1..], b);
    }
  }

  /** From one world to the other happens exactly `more`, and tests of patterns. */
  predicate Settles(a: World, b: World, more: seq<Event>) {
    a.trace <= b.trace && Essential(b.trace[|a.trace|..]) == more
  }

  lemma SettlesAll(a: World, b: World)
    requires a.trace == b.trace
    ensures Settles(a, b, [])
  {
  }

  lemma SettlesSaw(a: World, e: Event)
    ensures Settles(a, Saw(a, e), if e.Tested? then [] else [e])
  {
    var t := Saw(a, e).trace[|a.trace|..];
    assert t == [e] && t[1..] == [];
  }

  lemma SettlesTransitive(a: World, b: World, c: World, more: seq<Event>, more': seq<Event>)
    requires Settles(a, b, more) && Settles(b, c, more')
    ensures Settles(a, c, more + more')
  {
    assert c.trace[|a.trace|..] == b.trace[|a.trace|..] + c.trace[|b.trace|..];
    EssentialAppend(b.trace[|a.trace|..], c.trace[|b.trace|..]);
  }

  /** Two events in a row. */
  lemma SettlesTwice(a: World, e: Event, f: Event)
    requires !e.Tested? && !f.Tested?
    ensures Settles(a, Saw(Saw(a, e), f), [e, f])
  {
    SettlesSaw(a, e);
    SettlesSaw(Saw(a, e), f);
    SettlesTransitive(a, Saw(a, e), Saw(Saw(a, e), f), [e], [f]);
  }

  /** One command after the other, and then pattern tests. */
  lemma SettlesThen(a: World, b: World, c: World, more: seq<Event>)
    requires Settles(a, b, more) && Settles(b, c, [])
    ensures Settles(a, c, more)
  {
    SettlesTransitive(a, b, c, more, []);
    assert more + [] == more;
  }

  // ---------------------------------------------------------------- a pending signal in a case

  /** While a signal is pending, the rest of a `case` tests patterns at most. */
  lemma {:induction false} PendingTry(env: Env, c: Command, d: nat, i: nat, j: nat, s: Signal, w: World, fuel: nat)
    requires c.Case? && i < |c.clauses| && j <= |c.clauses[i].patterns| && Within(s, d) && s != Normal
    ensures var o := Try(env, c, d, i, j, s, w, fuel); o.Some? && o.value.s == s && Settles(w, o.value.w, [])
    decreases |c.clauses[i].patterns| - j
  {
    hide Meaning, Settles;
    if j < |c.clauses[i].patterns| {
      var p := c.clauses[i].patterns[j];
      var w1 := Saw(w, Tested(p.id));
      SettlesSaw(w, Tested(p.id));
      PendingTry(env, c, d, i, j + 1, s, w1, fuel);
      SettlesThen(w, w1, Try(env, c, d, i, j + 1, s, w1, fuel).value.w, []);
    } else {
      SettlesAll(w, w);
    }
  }

  lemma PendingTried(env: Env, c: Command, d: nat, i: nat, j: nat, status: int, s: Signal, w: World, fuel: nat)
    requires c.Case? && i < |c.clauses| && j <= |c.clauses[i].patterns| && Within(s, d) && s != Normal
    ensures var o := Tried(env, c, d, i, status, Try(env, c, d, i, j, s, w, fuel), fuel);
            o.Some? && o.value.signal == s && Settles(w, o.value.w, [])
    decreases |c.clauses| - i, 1
  {
    hide Meaning, Act, Pick, Try, Settles;
    PendingTry(env, c, d, i, j, s, w, fuel);
    var t := Try(env, c, d, i, j, s, w, fuel).value;
    if t.hit {
      PendingAct(env, c, d, i, s, t.w, fuel);
      SettlesThen(w, t.w, Act(env, c, d, i, s, t.w, fuel).value.w, []);
    } else {
      PendingPick(env, c, d, i + 1, status, s, t.w, fuel);
      SettlesThen(w, t.w, Pick(env, c, d, i + 1, status, s, t.w, fuel).value.w, []);
    }
  }

  lemma {:induction false} PendingPick(env: Env, c: Command, d: nat, i: nat, status: int, s: Signal, w: World,
      fuel: nat)
    requires c.Case? && i <= |c.clauses| && Within(s, d) && s != Normal
    ensures var o := Pick(env, c, d, i, status, s, w, fuel); o.Some? && o.value.signal == s && Settles(w, o.value.w, [])
    decreases |c.clauses| - i, 2
  {
    hide Pick, Try, Act, Settles;
    if i < |c.clauses| {
      PickTries(env, c, d, i, status, s, w, fuel);
      PendingTried(env, c, d, i, 0, status, s, w, fuel);
    } else {
      PickNone(env, c, d, status, s, w, fuel);
      SettlesAll(w, w);
    }
  }

  lemma {:induction false} PendingAct(env: Env, c: Command, d: nat, i: nat, s: Signal, w: World, fuel: nat)
    requires c.Case? && i < |c.clauses| && Within(s, d) && s != Normal
    ensures var o := Act(env, c, d, i, s, w, fuel); o.Some? && o.value.signal == s && Settles(w, o.value.w, [])
    decreases |c.clauses| - i, 0
  {
    hide Meaning, Pick, Settles;
    match c.clauses[i].end
    case Stop => SettlesAll(w, w);
    case Fall =>
      if i + 1 < |c.clauses| {
        PendingAct(env, c, d, i + 1, s, w, fuel);
      } else {
        SettlesAll(w, w);
      }
    case Next => PendingPick(env, c, d, i + 1, w.last, s, w, fuel);
  }

  // ---------------------------------------------------------------- one step

  /** The step goes into a loop. */
  predicate Enters(p: Place, q: Place) {
    q.d == p.d + 1
  }

  /** What the signal is on the other side of a step: a loop takes its own. */
  function Across(p: Place, q: Place, s: Signal): Signal {
    if Enters(p, q) then Caught(s, p.d) else s
  }

  /** The signal of a part as it comes out of the whole, and what has happened by then. */
  predicate Passes(env: Env, p: Place, q: Place, r: Result)
    requires IsPlace(p)
  {
    var o := Outcome(env, p);
    o.Some? && o.value.signal == Across(p, q, r.signal) && Settles(r.w, o.value.w, Completion(env, p, q))
  }

  /** The part at `q` ends in a signal, other than one that resumes the loop it is in. */
  predicate Signals(env: Env, p: Place, q: Place, r: Result)
    requires IsPlace(q)
  {
    Outcome(env, q) == Some(r) && r.signal != Normal && (Enters(p, q) ==> r.signal != Resume(p.d))
  }

  /** A signal that ends a part ends the whole. */
  lemma StepPasses(env: Env, p: Place, q: Place, r: Result)
    requires IsPlace(p) && IsPlace(q) && Leads(env, p, q) && Heeds(env, p, q) && Signals(env, p, q, r)
    ensures Passes(env, p, q, r)
  {
    hide Leads, Heeds, Signals, Passes, Outcome;
    match p
    case At(_, _, _, _) => CommandPasses(env, p, q, r);
    case InRounds(_, _, _, _, _) => RoundsPass(env, p, q, r);
    case InList(_, _, _, _, _, _, _) => ListPasses(env, p, q, r);
    case InTurns(_, _, _, _, _) => TurnsPass(env, p, q, r);
    case InStep(_, _, _, _) => ThirdPasses(env, p, q, r);
    case InTests(_, _, _, _, _, _, _) => TestsPass(env, p, q, r);
    case InClause(_, _, _, _, _) => ClausePasses(env, p, q, r);
  }

  lemma CommandPasses(env: Env, p: Place, q: Place, r: Result)
    requires p.At? && IsPlace(q) && Leads(env, p, q) && Heeds(env, p, q) && Signals(env, p, q, r)
    ensures Passes(env, p, q, r)
  {
    hide Leads, Heeds, Signals, Passes, Outcome;
    match p.c
    case Simple(_, _) | Calc(_) | Call(_, _) => WordsPass(env, p, q, r);
    case Case(_, _, _) => CasePasses(env, p, q, r);
    case For(_, _, _) => ForPasses(env, p, q, r);
    case ArithFor(_, _, _, _) => ArithForPasses(env, p, q, r);
    case _ => PartPasses(env, p, q, r);
  }

  lemma WordsPass(env: Env, p: Place, q: Place, r: Result)
    requires p.At? && (p.c.Simple? || p.c.Calc? || p.c.Call?)
    requires IsPlace(q) && Leads(env, p, q) && Heeds(env, p, q) && Signals(env, p, q, r)
    ensures Passes(env, p, q, r)
  {
    hide Meaning, Settles;
    MeaningIsInner(env, p.c, p.d, p.w, p.fuel);
    match p.c
    case Simple(words, id) =>
      assert Substitute(env, p.c, words, p.d, Normal, p.w, p.fuel) == Some(Pending(r.signal, r.w));
      SettlesLast(r.w, Saw(r.w, Ran(id)), env.run(id, r.w), Ran(id));
    case Calc(a) =>
      assert Substitute(env, p.c, a.prelude, p.d, Normal, p.w, p.fuel) == Some(Pending(r.signal, r.w));
      var v := Calculation(env, a, Pending(r.signal, r.w));
      SettlesLast(r.w, v.w, v.Outcome().status, Calculated(a.id));
    case Call(words, f) =>
      assert Substitute(env, p.c, words, p.d, Normal, p.w, p.fuel) == Some(Pending(r.signal, r.w));
      if f in env.funcs {
        SettlesAll(r.w, r.w);
      } else {
        SettlesLast(r.w, Saw(r.w, Ran(f)), env.run(f, r.w), Ran(f));
      }
  }

  /** One event, and a status left behind. */
  lemma SettlesLast(a: World, b: World, last: int, e: Event)
    requires b == Saw(a, e) && !e.Tested?
    ensures Settles(a, b.(last := last), [e])
  {
    SettlesSaw(a, e);
  }

  lemma PartPasses(env: Env, p: Place, q: Place, r: Result)
    requires p.At? && !p.c.Simple? && !p.c.Calc? && !p.c.Call? && !p.c.Case? && !p.c.For? && !p.c.ArithFor?
    requires IsPlace(q) && Leads(env, p, q) && Heeds(env, p, q) && Signals(env, p, q, r)
    ensures Passes(env, p, q, r)
  {
    hide Meaning, Rounds, Settles;
    MeaningIsInner(env, p.c, p.d, p.w, p.fuel);
    SettlesAll(r.w, Outcome(env, p).value.w);
  }

  lemma CasePasses(env: Env, p: Place, q: Place, r: Result)
    requires p.At? && p.c.Case? && IsPlace(q) && Leads(env, p, q) && Heeds(env, p, q) && Signals(env, p, q, r)
    ensures Passes(env, p, q, r)
  {
    hide Meaning, Settles, Pick, Try;
    var c, d, w, fuel := p.c, p.d, p.w, p.fuel;
    MeaningIsInner(env, c, d, w, fuel);
    if q.At? {
      var y := Saw(r.w, Expanded(c.id));
      SettlesSaw(r.w, Expanded(c.id));
      PendingPick(env, c, d, 0, SUCCESS, r.signal, y, fuel);
      var o := Pick(env, c, d, 0, SUCCESS, r.signal, y, fuel).value;
      SettlesThen(r.w, y, o.w, [Expanded(c.id)]);
      Relabelled(r.w, o.w, Finish(o).w, [Expanded(c.id)]);
    } else {
      PickTries(env, c, d, 0, SUCCESS, Normal, q.w, fuel);
      SettlesAll(r.w, Finish(r).w);
    }
  }

  /** The last status does not matter. */
  lemma Relabelled(a: World, b: World, c: World, more: seq<Event>)
    requires Settles(a, b, more) && b.trace == c.trace
    ensures Settles(a, c, more)
  {
  }

  lemma ForPasses(env: Env, p: Place, q: Place, r: Result)
    requires p.At? && p.c.For? && IsPlace(q) && Leads(env, p, q) && Heeds(env, p, q) && Signals(env, p, q, r)
    ensures Passes(env, p, q, r)
  {
    hide Meaning, Settles, Each;
    var c, d, w, fuel := p.c, p.d, p.w, p.fuel;
    MeaningIsInner(env, c, d, w, fuel);
    var w1 := Saw(w, Named(c.id));
    if q.At? {
      assert Substitute(env, c, c.words, d + 1, Normal, w1, fuel) == Some(Pending(r.signal, r.w));
      var n, y := env.words(c.id, r.w), Saw(r.w, Expanded(c.id));
      EachOne(env, c, d, 0, n, SUCCESS, r.signal, y, fuel);
      SettlesTwice(r.w, Expanded(c.id), Bound(c.id, 0));
    } else {
      var x := Substitute(env, c, c.words, d + 1, Normal, w1, fuel).value;
      if x.s != Normal {
        EachOne(env, c, d, 0, env.words(c.id, x.w), SUCCESS, x.s, Saw(x.w, Expanded(c.id)), fuel);
      }
      SettlesAll(r.w, Finish(r).w);
    }
  }

  lemma ArithForPasses(env: Env, p: Place, q: Place, r: Result)
    requires p.At? && p.c.ArithFor? && IsPlace(q) && Leads(env, p, q) && Heeds(env, p, q) && Signals(env, p, q, r)
    ensures Passes(env, p, q, r)
  {
    hide Meaning, Settles, Turns;
    var c, d, w, fuel := p.c, p.d, p.w, p.fuel;
    MeaningIsInner(env, c, d, w, fuel);
    if q.At? {
      var v := Calculation(env, c.init, Pending(r.signal, r.w));
      assert Calculate(env, c, c.init, d + 1, Normal, w, fuel) == Some(v);
      PendingTurn(env, c, d, SUCCESS, v, fuel);
      SettlesTwice(r.w, Calculated(c.init.id), Calculated(c.arith.id));
      Relabelled(r.w, Saw(v.w, Calculated(c.arith.id)), Outcome(env, p).value.w, Completion(env, p, q));
    } else {
      SettlesAll(r.w, Finish(r).w);
    }
  }

  /** A turn with a signal pending that does not resume the loop: only the test is calculated. */
  lemma PendingTurn(env: Env, c: Command, d: nat, status: int, v: Value, fuel: nat)
    requires c.ArithFor? && Within(v.signal, d + 1) && v.ok && !GoesOn(v.signal, d)
    ensures var o := Turns(env, c, d, status, v, fuel);
            o.Some? && o.value.signal == Caught(v.signal, d) && o.value.w == Saw(v.w, Calculated(c.arith.id))
  {
    hide Meaning, Turns;
    var t := Calculation(env, c.arith, Pending(v.signal, v.w));
    assert Calculate(env, c, c.arith, d + 1, v.signal, v.w, fuel) == Some(t);
    TurnTested(env, c, d, status, v, fuel, t);
  }

  lemma RoundsPass(env: Env, p: Place, q: Place, r: Result)
    requires p.InRounds? && IsPlace(p) && IsPlace(q) && Leads(env, p, q) && Heeds(env, p, q) && Signals(env, p, q, r)
    ensures Passes(env, p, q, r)
  {
    hide Meaning, Settles;
    var c, d, w, fuel := p.c, p.d, p.w, p.fuel;
    SettlesAll(r.w, r.w);
    if q.InRounds? {
      assert Rounds(env, c, d, p.status, w, fuel) == Outcome(env, q);
    } else {
      assert GoesOn(r.signal, d) || NextRound(env, c, d, r, fuel) == Some(Result(r.status, Caught(r.signal, d), r.w));
    }
  }

  lemma ListPasses(env: Env, p: Place, q: Place, r: Result)
    requires p.InList? && IsPlace(p) && IsPlace(q) && Leads(env, p, q) && Heeds(env, p, q) && Signals(env, p, q, r)
    ensures Passes(env, p, q, r)
  {
    hide Meaning, Settles;
    SettlesAll(r.w, r.w);
  }

  lemma TurnsPass(env: Env, p: Place, q: Place, r: Result)
    requires p.InTurns? && IsPlace(p) && IsPlace(q) && Leads(env, p, q) && Heeds(env, p, q) && Signals(env, p, q, r)
    ensures Passes(env, p, q, r)
  {
    hide Meaning, Calculate, Turns, AfterBody, Settles;
    var c, d, v, fuel := p.c, p.d, p.v, p.fuel;
    if v.ok && v.signal == Normal && q == At(c.arith.prelude, d + 1, v.w, fuel) {
      TestPasses(env, p, q, r);
    } else {
      SettlesAll(r.w, r.w);
      var t :| TestRuns(env, c, d, v, fuel, t) &&
        (|| q == At(c.body, d + 1, t.w, fuel)
         || exists b :: Meaning(env, c.body, d + 1, t.w, fuel) == Some(b) && GoesOn(b.signal, d)
              && q == InStep(c, d, b, fuel));
      TurnTested(env, c, d, p.status, v, fuel, t);
      TestIsLater(env, c, d, v, fuel, t);
      if q.At? {
        BodyLeaves(env, c, d, r, fuel);
      }
    }
  }

  lemma TestIsLater(env: Env, c: Command, d: nat, v: Value, fuel: nat, t: Value)
    requires c.ArithFor? && Within(v.signal, d + 1) && TestRuns(env, c, d, v, fuel, t)
    ensures t.w != v.w
  {
    hide Substitute;
  }

  lemma TestPasses(env: Env, p: Place, q: Place, r: Result)
    requires p.InTurns? && IsPlace(p) && p.v.ok && p.v.signal == Normal
    requires q == At(p.c.arith.prelude, p.d + 1, p.v.w, p.fuel) && Signals(env, p, q, r)
    ensures Passes(env, p, q, r)
  {
    hide Meaning, Turns, Settles;
    var c, d, v, fuel := p.c, p.d, p.v, p.fuel;
    var t := Calculation(env, c.arith, Pending(r.signal, r.w));
    assert Calculate(env, c, c.arith, d + 1, v.signal, v.w, fuel) == Some(t);
    TurnTested(env, c, d, p.status, v, fuel, t);
    SettlesSaw(r.w, Calculated(c.arith.id));
  }

  lemma BodyLeaves(env: Env, c: Command, d: nat, b: Result, fuel: nat)
    requires c.ArithFor? && Within(b.signal, d + 1) && !GoesOn(b.signal, d)
    ensures AfterBody(env, c, d, b, fuel) == Some(Result(b.status, Caught(b.signal, d), b.w))
  {
    hide Calculate;
  }

  lemma ThirdPasses(env: Env, p: Place, q: Place, r: Result)
    requires p.InStep? && IsPlace(p) && IsPlace(q) && Leads(env, p, q) && Heeds(env, p, q) && Signals(env, p, q, r)
    ensures Passes(env, p, q, r)
  {
    hide Meaning, Turns, Settles;
    var c, d, b, fuel := p.c, p.d, p.b, p.fuel;
    if q.At? {
      var v := Calculation(env, c.step, Pending(r.signal, r.w));
      assert Calculate(env, c, c.step, d + 1, Normal, b.w, fuel) == Some(v);
      PendingTurn(env, c, d, b.status, v, fuel - 1);
      SettlesTwice(r.w, Calculated(c.step.id), Calculated(c.arith.id));
    } else {
      SettlesAll(r.w, r.w);
    }
  }

  lemma TestsPass(env: Env, p: Place, q: Place, r: Result)
    requires p.InTests? && IsPlace(p) && IsPlace(q) && Leads(env, p, q) && Heeds(env, p, q) && Signals(env, p, q, r)
    ensures Passes(env, p, q, r)
  {
    hide Meaning, Act, Try, Pick, Settles;
    var c, d, i, j, w, fuel := p.c, p.d, p.i, p.j, p.w, p.fuel;
    if j == |c.clauses[i].patterns| {
      TryNone(env, c, d, i, Normal, w, fuel);
      PickTries(env, c, d, i + 1, p.status, Normal, w, fuel);
      SettlesAll(r.w, r.w);
    } else {
      TryOne(env, c, d, i, j, Normal, w, fuel);
      if q.At? {
        PatternPasses(env, p, q, r);
      } else {
        SettlesAll(r.w, r.w);
      }
    }
  }

  lemma PatternPasses(env: Env, p: Place, q: Place, r: Result)
    requires p.InTests? && IsPlace(p) && p.j < |p.c.clauses[p.i].patterns|
    requires q == At(p.c.clauses[p.i].patterns[p.j].prelude, p.d, p.w, p.fuel) && Signals(env, p, q, r)
    ensures Passes(env, p, q, r)
  {
    hide Meaning, Act, Try, Pick, Settles;
    var c, d, i, j, w, fuel := p.c, p.d, p.i, p.j, p.w, p.fuel;
    var pattern := c.clauses[i].patterns[j];
    TryOne(env, c, d, i, j, Normal, w, fuel);
    var y := Saw(r.w, Tested(pattern.id));
    SettlesSaw(r.w, Tested(pattern.id));
    if env.matches(pattern.id, r.w) {
      PendingAct(env, c, d, i, r.signal, y, fuel);
    } else {
      PendingTried(env, c, d, i, j + 1, p.status, r.signal, y, fuel);
    }
    SettlesThen(r.w, y, Outcome(env, p).value.w, []);
  }

  lemma ClausePasses(env: Env, p: Place, q: Place, r: Result)
    requires p.InClause? && IsPlace(p) && IsPlace(q) && Leads(env, p, q) && Heeds(env, p, q) && Signals(env, p, q, r)
    ensures Passes(env, p, q, r)
  {
    hide Meaning, Pick, Try, Settles;
    var c, d, i, fuel := p.c, p.d, p.i, p.fuel;
    SettlesAll(r.w, r.w);
    if q == At(c.clauses[i].action, d, p.w, fuel) {
      match c.clauses[i].end
      case Stop =>
      case Fall =>
        if i + 1 < |c.clauses| {
          PendingAct(env, c, d, i + 1, r.signal, r.w, fuel);
        }
      case Next => PendingPick(env, c, d, i + 1, r.status, r.signal, r.w, fuel);
    } else if q.InTests? {
      PickTries(env, c, d, i + 1, q.status, Normal, q.w, fuel);
    }
  }

  // ---------------------------------------------------------------- whole paths

  lemma DepthsGrow(env: Env, ps: seq<Place>, i: nat)
    requires IsPath(env, ps) && i + 1 < |ps|
    ensures ps[i].d <= ps[i + 1].d <= ps[i].d + 1
    ensures Enters(ps[i], ps[i + 1]) ==> IsLoop(ps[i])
    ensures IsLoop(ps[i]) && !Enters(ps[i], ps[i + 1]) ==> IsLoop(ps[i + 1])
  {
    hide Meaning, Substitute, Calculate, Outcome;
    assert Leads(env, ps[i], ps[i + 1]) && Heeds(env, ps[i], ps[i + 1]);
  }

  /** A signal for a loop further out than a place passes through it. */
  lemma {:induction false} SignalPasses(env: Env, ps: seq<Place>, i: nat, r: Result)
    requires IsPath(env, ps) && i < |ps| && Outcome(env, ps[|ps| - 1]) == Some(r)
    requires r.signal != Normal && r.signal.loop < ps[i].d
    ensures var o := Outcome(env, ps[i]);
            o.Some? && o.value.signal == r.signal && Settles(r.w, o.value.w, Completions(env, ps, i))
    decreases |ps| - i
  {
    hide Meaning, Outcome, Leads, Heeds, Settles, Completion;
    if i < |ps| - 1 {
      DepthsGrow(env, ps, i);
      SignalPasses(env, ps, i + 1, r);
      SignalCrosses(env, ps, i, r);
    } else {
      SettlesAll(r.w, r.w);
    }
  }

  /** The step out of a place that the signal has passed. */
  lemma SignalCrosses(env: Env, ps: seq<Place>, i: nat, r: Result)
    requires IsPath(env, ps) && i + 1 < |ps| && r.signal != Normal
    requires var o := Outcome(env, ps[i + 1]);
             o.Some? && o.value.signal == r.signal && Settles(r.w, o.value.w, Completions(env, ps, i + 1))
    requires Enters(ps[i], ps[i + 1]) ==> r.signal != Resume(ps[i].d)
    ensures var o := Outcome(env, ps[i]);
            && o.Some? && o.value.signal == Across(ps[i], ps[i + 1], r.signal)
            && Settles(r.w, o.value.w, Completions(env, ps, i))
  {
    hide Meaning, Outcome, Leads, Heeds, Settles, Completion;
    var r1 := Outcome(env, ps[i + 1]).value;
    StepPasses(env, ps[i], ps[i + 1], r1);
    var w2 := Outcome(env, ps[i]).value.w;
    SettlesTransitive(r.w, r1.w, w2, Completions(env, ps, i + 1), Completion(env, ps[i], ps[i + 1]));
  }

  /** A loop that the path goes into ends when it is left from there. */
  lemma {:induction false} LoopEnds(env: Env, ps: seq<Place>, i: nat, r: Result)
    requires IsPath(env, ps) && i < |ps| && IsLoop(ps[i]) && ps[i].d < ps[|ps| - 1].d
    requires Outcome(env, ps[|ps| - 1]) == Some(r) && r.signal == Leave(ps[i].d)
    ensures var o := Outcome(env, ps[i]);
            o.Some? && o.value.signal == Normal && Settles(r.w, o.value.w, Completions(env, ps, i))
    decreases |ps| - i
  {
    hide Meaning, Outcome, Leads, Heeds, Settles, Completion;
    DepthsGrow(env, ps, i);
    if Enters(ps[i], ps[i + 1]) {
      SignalPasses(env, ps, i + 1, r);
      SignalCrosses(env, ps, i, r);
    } else {
      LoopEnds(env, ps, i + 1, r);
      LoopGoesOn(env, ps[i], ps[i + 1]);
      NoCompletion(env, ps[i], ps[i + 1]);
      assert Completions(env, ps, i) == Completions(env, ps, i + 1);
      Relabelled(r.w, Outcome(env, ps[i + 1]).value.w, Outcome(env, ps[i]).value.w, Completions(env, ps, i));
    }
  }

  lemma NoCompletion(env: Env, p: Place, q: Place)
    requires IsLoop(p) && IsPlace(q) && Leads(env, p, q) && q.d == p.d
    ensures Completion(env, p, q) == []
  {
    hide Meaning, Substitute, Calculate;
  }

  /** A loop from one of its rounds on is the loop. */
  lemma LoopGoesOn(env: Env, p: Place, q: Place)
    requires IsLoop(p) && IsPlace(q) && Leads(env, p, q) && q.d == p.d
    ensures Outcome(env, q).Some? ==> Outcome(env, p).Some?
    ensures Outcome(env, q).Some? ==>
      Outcome(env, p).value.signal == Outcome(env, q).value.signal
      && Outcome(env, p).value.w.trace == Outcome(env, q).value.w.trace
  {
    hide Leads, Outcome;
    match p
    case At(_, _, _, _) => LoopStarts(env, p, q);
    case _ => RoundFollows(env, p, q);
  }

  lemma LoopStarts(env: Env, p: Place, q: Place)
    requires IsLoop(p) && p.At? && IsPlace(q) && Leads(env, p, q) && q.d == p.d
    ensures Outcome(env, p) == Ended(Outcome(env, q))
  {
    hide Meaning, Substitute, Calculate, Rounds, Each, Turns;
    var c, d, w, fuel := p.c, p.d, p.w, p.fuel;
    MeaningIsInner(env, c, d, w, fuel);
    if c.For? {
      var x := Substitute(env, c, c.words, d + 1, Normal, Saw(w, Named(c.id)), fuel).value;
      if x.s != Normal {
        EachOne(env, c, d, 0, env.words(c.id, x.w), SUCCESS, x.s, Saw(x.w, Expanded(c.id)), fuel);
      }
    }
  }

  lemma RoundFollows(env: Env, p: Place, q: Place)
    requires IsLoop(p) && !p.At? && IsPlace(q) && Leads(env, p, q) && q.d == p.d
    ensures Outcome(env, p) == Outcome(env, q)
  {
    hide Meaning, Substitute, Calculate;
    match p
    case InRounds(c, d, status, w, fuel) => assert Rounds(env, c, d, status, w, fuel) == Outcome(env, q);
    case InList(_, _, _, _, _, _, _) =>
    case InTurns(c, d, status, v, fuel) =>
      var t :| TestRuns(env, c, d, v, fuel, t) && (exists b ::
        Meaning(env, c.body, d + 1, t.w, fuel) == Some(b) && GoesOn(b.signal, d) && q == InStep(c, d, b, fuel));
      TurnTested(env, c, d, status, v, fuel, t);
    case InStep(_, _, _, _) =>
  }

  /** `break n` anywhere inside nested loops of any kind, in any of their rounds, behind and within any other commands,
      their words, patterns and expressions: the n loops around it end, the outer ones as soon as the inner ones do, and
      nothing that follows in them happens, but that the expansions it stands in are completed and patterns tested. The
      n-th loop out ends without a signal, so what is around it goes on. */
  lemma BreakLeaves(env: Env, ps: seq<Place>, n: nat, i: nat)
    requires IsPath(env, ps) && i < |ps| && n >= 1
    requires var last := ps[|ps| - 1]; last.At? && last.c == Break(n) && last.d >= 1
    ensures var last := ps[|ps| - 1];
            var target := if n < last.d then last.d - n else 0;
            var o, more := Outcome(env, ps[i]), Completions(env, ps, i);
            && (ps[i].d > target ==> o.Some? && o.value.signal == Leave(target) && Settles(last.w, o.value.w, more))
            && (ps[i].d == target && IsLoop(ps[i]) ==>
                  o.Some? && o.value.signal == Normal && Settles(last.w, o.value.w, more))
  {
    hide Leads, Heeds, Meaning;
    var last := ps[|ps| - 1];
    BreakMeans(env, n, last.d, last.w, last.fuel);
    var r := Meaning(env, Break(n), last.d, last.w, last.fuel).value;
    if ps[i].d > r.signal.loop {
      SignalPasses(env, ps, i, r);
    } else if ps[i].d == r.signal.loop && IsLoop(ps[i]) {
      LoopEnds(env, ps, i, r);
    }
  }

  /** What a loop does after a round whose body ended in `b`. */
  function Resumed(env: Env, p: Place, b: Result): Option<Result>
    requires IsLoop(p) && !p.At? && !p.InStep? && Within(b.signal, p.d + 1)
    requires p.InList? ==> p.k < p.n
  {
    match p
    case InRounds(c, d, _, _, fuel) => if fuel == 0 then None else Rounds(env, c, d, b.status, b.w, fuel - 1)
    case InList(c, d, k, n, _, _, fuel) => Each(env, c, d, k + 1, n, b.status, Normal, b.w, fuel)
    case InTurns(c, d, _, v, fuel) =>
      match Calculate(env, c, c.step, d + 1, Normal, b.w, fuel)
      case None => None
      case Some(s) => if fuel == 0 then None else Turns(env, c, d, b.status, s, fuel - 1)
  }

  /** The step goes from a loop into its body. */
  ghost predicate EntersBody(env: Env, p: Place, q: Place)
    requires IsPlace(p)
  {
    match p
    case InRounds(c, d, _, w, fuel) =>
      exists t :: BodyStarts(env, c, d, w, fuel, t) && q == At(c.body, d + 1, t.w, fuel)
    case InList(c, d, k, n, _, w, fuel) =>
      k < n && env.bind(c.id, k, w) && q == At(c.body, d + 1, Saw(w, Bound(c.id, k)), fuel)
    case InTurns(c, d, _, v, fuel) => exists t :: TestRuns(env, c, d, v, fuel, t) && q == At(c.body, d + 1, t.w, fuel)
    case _ => false
  }

  /** `continue n` likewise: the n - 1 inner loops end, and the n-th, if its body holds the command, goes on with its
      next round, an arithmetic loop after its third expression. */
  lemma ContinueResumes(env: Env, ps: seq<Place>, n: nat, i: nat)
    requires IsPath(env, ps) && i < |ps| && n >= 1
    requires var last := ps[|ps| - 1]; last.At? && last.c == Continue(n) && last.d >= 1
    ensures var last := ps[|ps| - 1];
            var target := if n < last.d then last.d - n else 0;
            var o := Outcome(env, ps[i]);
            && (ps[i].d > target ==>
                  o.Some? && o.value.signal == Resume(target) && Settles(last.w, o.value.w, Completions(env, ps, i)))
            && (ps[i].d == target && i + 1 < |ps| && EntersBody(env, ps[i], ps[i + 1]) ==>
                  var b := Outcome(env, ps[i + 1]);
                  && b.Some? && Settles(last.w, b.value.w, Completions(env, ps, i + 1))
                  && o == Resumed(env, ps[i], b.value))
  {
    hide Leads, Heeds, Meaning, EntersBody;
    var last := ps[|ps| - 1];
    ContinueMeans(env, n, last.d, last.w, last.fuel);
    var r := Meaning(env, Continue(n), last.d, last.w, last.fuel).value;
    if ps[i].d > r.signal.loop {
      SignalPasses(env, ps, i, r);
    } else if ps[i].d == r.signal.loop && i + 1 < |ps| && EntersBody(env, ps[i], ps[i + 1]) {
      BodyIsInside(env, ps[i], ps[i + 1]);
      SignalPasses(env, ps, i + 1, r);
      RoundResumes(env, ps[i], ps[i + 1], Outcome(env, ps[i + 1]).value);
    }
  }

  lemma BodyIsInside(env: Env, p: Place, q: Place)
    requires IsPlace(p) && EntersBody(env, p, q)
    ensures q.At? && Enters(p, q) && IsLoop(p) && !p.At? && !p.InStep? && (p.InList? ==> p.k < p.n)
  {
    hide Meaning, Calculate;
  }

  lemma RoundResumes(env: Env, p: Place, q: Place, b: Result)
    requires IsPlace(p) && IsPlace(q) && EntersBody(env, p, q) && Outcome(env, q) == Some(b) && b.signal == Resume(p.d)
    ensures IsLoop(p) && !p.At? && !p.InStep? && (p.InList? ==> p.k < p.n) && Within(b.signal, p.d + 1)
    ensures Outcome(env, p) == Resumed(env, p, b)
  {
    hide Meaning, Calculate;
    BodyIsInside(env, p, q);
    match p
    case InRounds(c, d, status, w, fuel) =>
      assert NextRound(env, c, d, b, fuel) == Resumed(env, p, b);
    case InList(_, _, _, _, _, _, _) =>
    case InTurns(c, d, status, v, fuel) =>
      hide Turns;
      var t :| TestRuns(env, c, d, v, fuel, t) && q == At(c.body, d + 1, t.w, fuel);
      TurnTested(env, c, d, status, v, fuel, t);
      assert AfterBody(env, c, d, b, fuel) == Resumed(env, p, b);
  }

  /** `for ((a; ${ break; } b; c)) do ...; done`: the break in the test leaves the loop, once the test is calculated. */
  lemma BreakInTest(env: Env, body: Command, d: nat, w: World, fuel: nat)
    requires env.ok(0, w)
    ensures var o := Meaning(env, ArithFor(Arith(Null, 0), Arith(Break(1), 1), Arith(Null, 2), body), d, w, fuel);
            && o.Some? && o.value.signal == Normal
            && Settles(Saw(w, Calculated(0)), o.value.w, [Calculated(1)])
  {
    hide Meaning, Settles;
    var c := ArithFor(Arith(Null, 0), Arith(Break(1), 1), Arith(Null, 2), body);
    var v := Calculation(env, c.init, Pending(Normal, w));
    assert Meaning(env, Null, d + 1, w, fuel) == Some(Result(SUCCESS, Normal, w)) by {
      NullMeans(env, d + 1, w, fuel);
    }
    assert Calculate(env, c, c.init, d + 1, Normal, w, fuel) == Some(v);
    var p, q, last := At(c, d, w, fuel), InTurns(c, d, SUCCESS, v, fuel), At(Break(1), d + 1, v.w, fuel);
    var ps := [p, q, last];
    assert Leads(env, p, q) && Leads(env, q, last);
    BreakLeaves(env, ps, 1, 0);
    assert Completions(env, ps, 2) == [];
    assert Completions(env, ps, 1) == [Calculated(1)];
    assert Completions(env, ps, 0) == [Calculated(1)];
  }

  // ---------------------------------------------------------------- continue in a test

  /** A `continue` of this loop in its test: the loop goes on with its next round exactly when the status of the test
      would let the body run, and otherwise it ends. */
  lemma TestResumes(env: Env, c: Command, d: nat, status: int, w: World, fuel: nat, t: Result)
    requires c.Repeat? && Meaning(env, c.test, d + 1, w, fuel) == Some(t) && t.signal == Resume(d)
    ensures Rounds(env, c, d, status, w, fuel) ==
            if (t.status == SUCCESS) == c.until then Some(Result(status, Normal, t.w))
            else if fuel == 0 then None
            else Rounds(env, c, d, t.status, t.w, fuel - 1)
  {
    hide Meaning;
    assert NextRound(env, c, d, t, fuel) == if fuel == 0 then None else Rounds(env, c, d, t.status, t.w, fuel - 1);
  }

  /** `until continue; do ...; done` ends at once, with its body not run. */
  lemma UntilContinueEnds(env: Env, body: Command, d: nat, w: World, fuel: nat)
    ensures Meaning(env, Repeat(true, Continue(1), body), d, w, fuel)
         == Some(Result(SUCCESS, Normal, w.(last := SUCCESS)))
  {
    hide Meaning, Rounds;
    var c := Repeat(true, Continue(1), body);
    ContinueMeans(env, 1, d + 1, w, fuel);
    TestResumes(env, c, d, SUCCESS, w, fuel, Result(SUCCESS, Resume(d), w.(last := SUCCESS)));
    MeaningIsInner(env, c, d, w, fuel);
  }

  /** `while continue; do ...; done` goes on for ever; so does `until ! continue; do ...; done`. */
  lemma {:induction false} WhileContinueGoesOn(env: Env, until: bool, body: Command, d: nat, status: int, w: World,
      fuel: nat)
    ensures Rounds(env, Repeat(until, ContinueTest(until), body), d, status, w, fuel) == None
    decreases fuel
  {
    hide Meaning, Rounds;
    var c := Repeat(until, ContinueTest(until), body);
    var t := Result(if until then FAILURE else SUCCESS, Resume(d), w.(last := if until then FAILURE else SUCCESS));
    ContinueMeans(env, 1, d + 1, w, fuel);
    NotMeans(env, Continue(1), d + 1, w, fuel);
    TestResumes(env, c, d, status, w, fuel, t);
    if fuel > 0 {
      WhileContinueGoesOn(env, until, body, d, t.status, t.w, fuel - 1);
    }
  }

  function ContinueTest(until: bool): Command {
    if until then Not(Continue(1)) else Continue(1)
  }
}
