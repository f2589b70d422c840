/** The exit statuses of commands: what a command makes of the statuses of its parts. */
module Statuses {
  import opened Options
  import opened Commands
  import opened Blindness

  /** Two results differ at most in the status left behind. */
  predicate Alike(r: Result, q: Result) {
    r.status == q.status && r.signal == q.signal && r.w.trace == q.w.trace
  }

  /** One command comes to what the other comes to. */
  predicate AsMuch(o: Option<Result>, p: Option<Result>) {
    (o.Some? <==> p.Some?) && (o.Some? ==> Alike(o.value, p.value))
  }

  // ---------------------------------------------------------------- connectors

  /** `! a` ends with status 0 exactly when `a` does not, and otherwise with 1; nothing else is different. */
  lemma NotStatus(env: Env, a: Command, d: nat, w: World, fuel: nat)
    ensures var o, p := Meaning(env, a, d, w, fuel), Meaning(env, Not(a), d, w, fuel);
            && (o.Some? <==> p.Some?)
            && (o.Some? ==>
                  && p.value.status in {0, 1} && (p.value.status == 0 <==> o.value.status != 0)
                  && p.value.signal == o.value.signal && p.value.w.trace == o.value.w.trace)
  {
    hide Meaning;
    MeaningIsInner(env, Not(a), d, w, fuel);
  }

  /** `a ; b`: a pending signal keeps `b` from running; otherwise the status is that of `b`. */
  lemma ThenStatus(env: Env, a: Command, b: Command, d: nat, w: World, fuel: nat)
    ensures var o, p := Meaning(env, a, d, w, fuel), Meaning(env, Then(a, b), d, w, fuel);
            if o.Some? && o.value.signal == Normal then AsMuch(p, Meaning(env, b, d, o.value.w, fuel)) else AsMuch(p, o)
  {
    hide Meaning;
    MeaningIsInner(env, Then(a, b), d, w, fuel);
  }

  /** `a && b`: `b` runs exactly when `a` ends without a signal and with status 0; otherwise the status is that of
      `a`. */
  lemma AndStatus(env: Env, a: Command, b: Command, d: nat, w: World, fuel: nat)
    ensures var o, p := Meaning(env, a, d, w, fuel), Meaning(env, And(a, b), d, w, fuel);
            if o.Some? && o.value.signal == Normal && o.value.status == 0 then
              AsMuch(p, Meaning(env, b, d, o.value.w, fuel))
            else AsMuch(p, o)
  {
    hide Meaning;
    MeaningIsInner(env, And(a, b), d, w, fuel);
  }

  /** `a || b`: `b` runs exactly when `a` ends without a signal and with another status. */
  lemma OrStatus(env: Env, a: Command, b: Command, d: nat, w: World, fuel: nat)
    ensures var o, p := Meaning(env, a, d, w, fuel), Meaning(env, Or(a, b), d, w, fuel);
            if o.Some? && o.value.signal == Normal && o.value.status != 0 then
              AsMuch(p, Meaning(env, b, d, o.value.w, fuel))
            else AsMuch(p, o)
  {
    hide Meaning;
    MeaningIsInner(env, Or(a, b), d, w, fuel);
  }

  /** `if t; then y; else n; fi`: the first branch runs exactly when `t` ends with status 0. */
  lemma IfStatus(env: Env, t: Command, y: Command, n: Command, d: nat, w: World, fuel: nat)
    ensures var o, p := Meaning(env, t, d, w, fuel), Meaning(env, If(t, y, n), d, w, fuel);
            if o.Some? && o.value.signal == Normal then
              AsMuch(p, Meaning(env, if o.value.status == 0 then y else n, d, o.value.w, fuel))
            else AsMuch(p, o)
  {
    hide Meaning;
    MeaningIsInner(env, If(t, y, n), d, w, fuel);
  }

  /** Without an `else` branch, and in general for a command that is not there, the status is 0 and nothing happens. */
  lemma NullStatus(env: Env, d: nat, w: World, fuel: nat)
    ensures Meaning(env, Null, d, w, fuel) == Some(Result(0, Normal, w))
  {
  }

  /** Negating the test of an `if` exchanges its branches. */
  lemma IfNot(env: Env, t: Command, y: Command, n: Command, d: nat, w: World, fuel: nat)
    requires Blind(env)
    requires var o := Meaning(env, t, d, w, fuel); o.Some? ==> o.value.signal == Normal
    ensures AsMuch(Meaning(env, If(Not(t), y, n), d, w, fuel), Meaning(env, If(t, n, y), d, w, fuel))
  {
    hide Meaning, Blind;
    NotStatus(env, t, d, w, fuel);
    IfStatus(env, t, n, y, d, w, fuel);
    IfStatus(env, Not(t), y, n, d, w, fuel);
    var o := Meaning(env, t, d, w, fuel);
    if o.Some? {
      var q := Meaning(env, Not(t), d, w, fuel).value;
      SameMeaning(env, if o.value.status == 0 then n else y, d, o.value.w, q.w, fuel);
    }
  }

  // ---------------------------------------------------------------- single commands

  /** A simple command has the status it was run with, and happens. */
  lemma SimpleStatus(env: Env, id: nat, d: nat, w: World, fuel: nat)
    ensures Meaning(env, Simple(Null, id), d, w, fuel)
         == Some(Result(env.run(id, w), Normal, World(w.trace + [Ran(id)], env.run(id, w))))
  {
    hide Meaning;
    var c := Simple(Null, id);
    NullStatus(env, d, w, fuel);
    assert Substitute(env, c, Null, d, Normal, w, fuel) == Some(Pending(Normal, w));
    MeaningIsInner(env, c, d, w, fuel);
  }

  /** `((...))` has status 0 exactly for a value that could be calculated and is not 0, and otherwise 1. */
  lemma CalcStatus(env: Env, id: nat, d: nat, w: World, fuel: nat)
    ensures var o := Meaning(env, Calc(Arith(Null, id)), d, w, fuel);
            && o.Some? && o.value.signal == Normal && o.value.w.trace == w.trace + [Calculated(id)]
            && o.value.status in {0, 1} && (o.value.status == 0 <==> env.ok(id, w) && env.nonzero(id, w))
  {
    hide Meaning;
    var c := Calc(Arith(Null, id));
    NullStatus(env, d, w, fuel);
    assert Substitute(env, c, Null, d, Normal, w, fuel) == Some(Pending(Normal, w));
    MeaningIsInner(env, c, d, w, fuel);
  }

  /** `break n` and `continue n`: among loops, a count that is not positive is an error and leaves them all. */
  lemma CountStatuses(env: Env, n: int, d: nat, w: World, fuel: nat)
    requires d > 0
    ensures var b, c := Meaning(env, Break(n), d, w, fuel), Meaning(env, Continue(n), d, w, fuel);
            && b.Some? && c.Some? && b.value.w.trace == w.trace && c.value.w.trace == w.trace
            && b.value.status == c.value.status == (if n <= 0 then 1 else 0)
            && (n <= 0 ==> b.value.signal == Leave(0) && c.value.signal == Leave(0))
            && (0 < n <= d ==> b.value.signal == Leave(d - n) && c.value.signal == Resume(d - n))
            && (n > d ==> b.value.signal == Leave(0) && c.value.signal == Resume(0))
  {
    hide Meaning;
    BreakMeans(env, n, d, w, fuel);
    MeaningIsInner(env, Continue(n), d, w, fuel);
  }

  /** Outside of all loops they do nothing. */
  lemma NoLoopToLeave(env: Env, n: int, w: World, fuel: nat)
    ensures Meaning(env, Break(n), 0, w, fuel) == Some(Result(0, Normal, w.(last := 0)))
    ensures Meaning(env, Continue(n), 0, w, fuel) == Some(Result(0, Normal, w.(last := 0)))
  {
    hide Meaning;
    BreakMeans(env, n, 0, w, fuel);
    MeaningIsInner(env, Continue(n), 0, w, fuel);
  }

  /** A function has the status of its body and runs outside of the loops around the call. */
  lemma CallStatus(env: Env, f: nat, d: nat, w: World, fuel: nat)
    requires f in env.funcs && fuel > 0
    ensures var o, p := Meaning(env, env.funcs[f], 0, w, fuel - 1), Meaning(env, Call(Null, f), d, w, fuel);
            && (o.Some? <==> p.Some?)
            && (o.Some? ==> p.value.status == o.value.status && p.value.w.trace == o.value.w.trace)
            && (o.Some? && o.value.signal == Normal ==> p.value.signal == Normal)
  {
    hide Meaning;
    var c := Call(Null, f);
    NullStatus(env, d, w, fuel);
    assert Substitute(env, c, Null, d, Normal, w, fuel) == Some(Pending(Normal, w));
    MeaningIsInner(env, c, d, w, fuel);
  }

  // ---------------------------------------------------------------- loops

  /** The status of the last of these results, or 0 if there is none. */
  function LastStatus(bs: seq<Result>): int {
    if bs == [] then 0 else bs[|bs| - 1].status
  }

  /** What a loop with number `d` hands on of the signal of its last body: one for a loop further out, if that is
      the one. */
  function HandedOn(bs: seq<Result>, d: nat): Signal {
    if bs == [] || bs[|bs| - 1].signal in {Normal, Leave(d), Resume(d)} then Normal else bs[|bs| - 1].signal
  }

  /** The loop runs its body with exactly these results; then its test ends it in `end`, or the last body left it. */
  predicate RunsThrough(env: Env, c: Command, d: nat, w: World, fuel: nat, bs: seq<Result>, end: World)
    requires c.Repeat?
    decreases |bs|
  {
    var t := Meaning(env, c.test, d + 1, w, fuel);
    && t.Some? && t.value.signal == Normal
    && if bs == [] then (t.value.status == 0) == c.until && t.value.w == end
       else
         && (t.value.status == 0) != c.until
         && Meaning(env, c.body, d + 1, t.value.w, fuel) == Some(bs[0])
         && if bs[0].signal in {Normal, Resume(d)} then
              fuel > 0 && RunsThrough(env, c, d, bs[0].w, fuel - 1, bs[1..], end)
            else bs[1..] == [] && bs[0].w == end
  }

  lemma {:induction false} RoundsStatus(env: Env, c: Command, d: nat, status: int, w: World, fuel: nat, bs: seq<Result>,
      end: World)
    requires c.Repeat? && RunsThrough(env, c, d, w, fuel, bs, end)
    ensures Rounds(env, c, d, status, w, fuel)
         == Some(Result(if bs == [] then status else LastStatus(bs), HandedOn(bs, d), end))
    decreases |bs|
  {
    hide Meaning;
    if bs != [] {
      if bs[0].signal in {Normal, Resume(d)} {
        RoundsStatus(env, c, d, bs[0].status, bs[0].w, fuel - 1, bs[1..], end);
        assert NextRound(env, c, d, bs[0], fuel) == Rounds(env, c, d, bs[0].status, bs[0].w, fuel - 1);
      } else {
        assert |bs| == 1;
      }
    }
  }

  /** `while` and `until` have the status of the last body, and 0 if none ran. */
  lemma RepeatStatus(env: Env, c: Command, d: nat, w: World, fuel: nat, bs: seq<Result>, end: World)
    requires c.Repeat? && RunsThrough(env, c, d, w, fuel, bs, end)
    ensures Meaning(env, c, d, w, fuel) == Some(Result(LastStatus(bs), HandedOn(bs, d), end.(last := LastStatus(bs))))
  {
    hide Meaning, Rounds;
    RoundsStatus(env, c, d, 0, w, fuel, bs, end);
    MeaningIsInner(env, c, d, w, fuel);
  }

  /** From its k-th word on the loop runs its body once for each word, with exactly these results, until there are no
      more words, one cannot be assigned, or the last body left the loop. */
  predicate RunsEach(env: Env, c: Command, d: nat, k: nat, n: nat, w: World, fuel: nat, bs: seq<Result>, failed: bool,
      end: World)
    requires c.For?
    decreases |bs|
  {
    var x := Saw(w, Bound(c.id, k));
    if bs == [] then
      if k == n then !failed && w == end else k < n && !env.bind(c.id, k, w) && failed && x == end
    else
      && k < n && env.bind(c.id, k, w) && Meaning(env, c.body, d + 1, x, fuel) == Some(bs[0])
      && if bs[0].signal in {Normal, Resume(d)} then RunsEach(env, c, d, k + 1, n, bs[0].w, fuel, bs[1..], failed, end)
         else bs[1..] == [] && !failed && bs[0].w == end
  }

  lemma {:induction false} EachStatus(env: Env, c: Command, d: nat, k: nat, n: nat, status: int, w: World, fuel: nat,
      bs: seq<Result>, failed: bool, end: World)
    requires c.For? && k <= n && RunsEach(env, c, d, k, n, w, fuel, bs, failed, end)
    ensures Each(env, c, d, k, n, status, Normal, w, fuel) ==
            Some(Result(if failed then 1 else if bs == [] then status else LastStatus(bs),
                        if failed then Normal else HandedOn(bs, d), end))
    decreases |bs|
  {
    hide Meaning, Each;
    if k == n {
      EachNone(env, c, d, n, status, Normal, w, fuel);
    } else {
      EachOne(env, c, d, k, n, status, Normal, w, fuel);
      if bs != [] {
        if bs[0].signal in {Normal, Resume(d)} {
          EachStatus(env, c, d, k + 1, n, bs[0].status, bs[0].w, fuel, bs[1..], failed, end);
        } else {
          assert |bs| == 1;
        }
      }
    }
  }

  /** `for` has the status of its last body, and 0 for an empty list; a word that cannot be assigned is an error. */
  lemma ForStatus(env: Env, c: Command, d: nat, w: World, fuel: nat, bs: seq<Result>, failed: bool, end: World)
    requires c.For? && c.words == Null && env.named(c.id, w)
    requires var x := Saw(w, Named(c.id));
             RunsEach(env, c, d, 0, env.words(c.id, x), Saw(x, Expanded(c.id)), fuel, bs, failed, end)
    ensures var status := if failed then 1 else LastStatus(bs);
            Meaning(env, c, d, w, fuel) ==
            Some(Result(status, if failed then Normal else HandedOn(bs, d), end.(last := status)))
  {
    hide Meaning, Each, RunsEach;
    var x := Saw(w, Named(c.id));
    NullStatus(env, d + 1, x, fuel);
    assert Substitute(env, c, Null, d + 1, Normal, x, fuel) == Some(Pending(Normal, x));
    EachStatus(env, c, d, 0, env.words(c.id, x), 0, Saw(x, Expanded(c.id)), fuel, bs, failed, end);
    MeaningIsInner(env, c, d, w, fuel);
  }

  /** With its first or third expression `e` still to be calculated, an arithmetic loop runs its body with exactly these
      results, until an expression fails, the test is 0, or the last body left the loop. */
  predicate RunsTurns(env: Env, c: Command, d: nat, e: nat, w: World, fuel: nat, bs: seq<Result>, failed: bool,
      end: World)
    requires c.ArithFor?
    decreases |bs|
  {
    var x := Saw(w, Calculated(e));
    var y := Saw(x, Calculated(c.arith.id));
    if !env.ok(e, w) then bs == [] && failed && x == end
    else if !env.ok(c.arith.id, x) || !env.nonzero(c.arith.id, x) then
      bs == [] && (failed <==> !env.ok(c.arith.id, x)) && y == end
    else
      && bs != [] && Meaning(env, c.body, d + 1, y, fuel) == Some(bs[0])
      && if bs[0].signal in {Normal, Resume(d)} then
           fuel > 0 && RunsTurns(env, c, d, c.step.id, bs[0].w, fuel - 1, bs[1..], failed, end)
         else bs[1..] == [] && !failed && bs[0].w == end
  }

  /** None of the expressions holds commands. */
  predicate PlainExpressions(c: Command) {
    c.ArithFor? && c.init.prelude == Null && c.arith.prelude == Null && c.step.prelude == Null
  }

  lemma PlainValue(env: Env, c: Command, a: Arith, d: nat, w: World, fuel: nat)
    requires PlainExpressions(c) && (a == c.init || a == c.arith || a == c.step)
    ensures Calculate(env, c, a, d, Normal, w, fuel)
         == Some(Value(env.ok(a.id, w), env.nonzero(a.id, w), Normal, Saw(w, Calculated(a.id))))
  {
    hide Meaning;
    NullStatus(env, d, w, fuel);
  }

  lemma {:induction false} TurnsStatus(env: Env, c: Command, d: nat, e: nat, status: int, w: World, fuel: nat,
      bs: seq<Result>, failed: bool, end: World)
    requires PlainExpressions(c) && RunsTurns(env, c, d, e, w, fuel, bs, failed, end)
    ensures Turns(env, c, d, status, Value(env.ok(e, w), env.nonzero(e, w), Normal, Saw(w, Calculated(e))), fuel) ==
            Some(Result(if failed then 1 else if bs == [] then status else LastStatus(bs),
                        if failed then Normal else HandedOn(bs, d), end))
    decreases |bs|
  {
    hide Meaning, Turns, Calculate;
    var x := Saw(w, Calculated(e));
    var v := Value(env.ok(e, w), env.nonzero(e, w), Normal, x);
    if !v.ok {
      TurnFails(env, c, d, status, v, fuel);
    } else {
      PlainValue(env, c, c.arith, d + 1, x, fuel);
      var t := Calculate(env, c, c.arith, d + 1, Normal, x, fuel).value;
      TurnTested(env, c, d, status, v, fuel, t);
      if bs != [] {
        PlainValue(env, c, c.step, d + 1, bs[0].w, fuel);
        if bs[0].signal in {Normal, Resume(d)} {
          TurnsStatus(env, c, d, c.step.id, bs[0].status, bs[0].w, fuel - 1, bs[1..], failed, end);
        } else {
          assert |bs| == 1;
        }
      }
    }
  }

  /** So has an arithmetic `for`; an expression that cannot be calculated is an error. */
  lemma ArithForStatus(env: Env, c: Command, d: nat, w: World, fuel: nat, bs: seq<Result>, failed: bool, end: World)
    requires PlainExpressions(c) && RunsTurns(env, c, d, c.init.id, w, fuel, bs, failed, end)
    ensures var status := if failed then 1 else LastStatus(bs);
            Meaning(env, c, d, w, fuel) ==
            Some(Result(status, if failed then Normal else HandedOn(bs, d), end.(last := status)))
  {
    hide Meaning, Turns, RunsTurns, Calculate;
    PlainValue(env, c, c.init, d + 1, w, fuel);
    TurnsStatus(env, c, d, c.init.id, 0, w, fuel, bs, failed, end);
    MeaningIsInner(env, c, d, w, fuel);
  }

  lemma ForUnnamed(env: Env, c: Command, d: nat, w: World, fuel: nat)
    requires c.For? && !env.named(c.id, w)
    ensures var o := Meaning(env, c, d, w, fuel);
            o.Some? && o.value.status == 1 && o.value.signal == Normal && o.value.w.trace == w.trace + [Named(c.id)]
  {
    hide Meaning;
    MeaningIsInner(env, c, d, w, fuel);
  }

  // ---------------------------------------------------------------- case

  /** A `case` none of whose patterns matches has status 0. */
  lemma CaseStatus(env: Env, c: Command, d: nat, w: World, fuel: nat)
    requires c.Case? && c.words == Null
    requires forall k, j :: 0 <= k < |c.clauses| && 0 <= j < |c.clauses[k].patterns| ==>
               c.clauses[k].patterns[j].prelude == Null
               && forall v: World :: !env.matches(c.clauses[k].patterns[j].id, v)
    ensures var o := Meaning(env, c, d, w, fuel); o.Some? && o.value.status == 0 && o.value.signal == Normal
  {
    hide Meaning, Pick;
    NullStatus(env, d, w, fuel);
    assert Substitute(env, c, Null, d, Normal, w, fuel) == Some(Pending(Normal, w));
    NoneMatches(env, c, d, 0, 0, Saw(w, Expanded(c.id)), fuel);
    MeaningIsInner(env, c, d, w, fuel);
  }

  lemma {:induction false} NoneMatches(env: Env, c: Command, d: nat, i: nat, status: int, w: World, fuel: nat)
    requires c.Case? && i <= |c.clauses|
    requires forall k, j :: 0 <= k < |c.clauses| && 0 <= j < |c.clauses[k].patterns| ==>
               c.clauses[k].patterns[j].prelude == Null
               && forall v: World :: !env.matches(c.clauses[k].patterns[j].id, v)
    ensures var o := Pick(env, c, d, i, status, Normal, w, fuel);
            o.Some? && o.value.status == status && o.value.signal == Normal
    decreases |c.clauses| - i
  {
    hide Meaning, Pick, Act, Try;
    if i == |c.clauses| {
      PickNone(env, c, d, status, Normal, w, fuel);
    } else {
      PickTries(env, c, d, i, status, Normal, w, fuel);
      NoPatternMatches(env, c, d, i, 0, w, fuel);
      NoneMatches(env, c, d, i + 1, status, Try(env, c, d, i, 0, Normal, w, fuel).value.w, fuel);
    }
  }

  lemma {:induction false} NoPatternMatches(env: Env, c: Command, d: nat, i: nat, j: nat, w: World, fuel: nat)
    requires c.Case? && i < |c.clauses| && j <= |c.clauses[i].patterns|
    requires forall j :: 0 <= j < |c.clauses[i].patterns| ==>
               c.clauses[i].patterns[j].prelude == Null
               && forall v: World :: !env.matches(c.clauses[i].patterns[j].id, v)
    ensures var o := Try(env, c, d, i, j, Normal, w, fuel); o.Some? && !o.value.hit && o.value.s == Normal
    decreases |c.clauses[i].patterns| - j
  {
    hide Meaning, Try;
    if j == |c.clauses[i].patterns| {
      TryNone(env, c, d, i, Normal, w, fuel);
    } else {
      NullStatus(env, d, w, fuel);
      TryOne(env, c, d, i, j, Normal, w, fuel);
      NoPatternMatches(env, c, d, i, j + 1, Saw(w, Tested(c.clauses[i].patterns[j].id)), fuel);
    }
  }

  /** `case word in p) a end q) b ;; esac` with a pattern p that matches: `;;` ends it with `a`, `;&` goes on to `b`,
      and `;;&` goes on to `b` if q matches as well, and otherwise keeps the status of `a`. */
  lemma TerminatorStatus(env: Env, id: nat, p: nat, a: Command, end: Terminator, q: nat, b: Command, d: nat, w: World,
      fuel: nat)
    requires forall v: World :: env.matches(p, v)
    ensures var first, second := Clause([Pattern(Null, p)], a, end), Clause([Pattern(Null, q)], b, Stop);
            var o := Meaning(env, Case(Null, id, [first, second]), d, w, fuel);
            var r := Meaning(env, a, d, World(w.trace + [Expanded(id)] + [Tested(p)], w.last), fuel);
            if r.None? || r.value.signal != Normal then
              (r.None? ==> o.None?) && (r.Some? ==> o.Some? && o.value.signal == r.value.signal)
            else
              match end
              case Stop => AsMuch(o, r)
              case Fall => AsMuch(o, Meaning(env, b, d, r.value.w, fuel))
              case Next =>
                if env.matches(q, r.value.w) then AsMuch(o, Meaning(env, b, d, Saw(r.value.w, Tested(q)), fuel))
                else o.Some? && o.value.status == r.value.status && o.value.w.trace == r.value.w.trace + [Tested(q)]
  {
    hide Meaning, Pick, Try, Act;
    var c := Case(Null, id, [Clause([Pattern(Null, p)], a, end), Clause([Pattern(Null, q)], b, Stop)]);
    NullStatus(env, d, w, fuel);
    assert Substitute(env, c, Null, d, Normal, w, fuel) == Some(Pending(Normal, w));
    MeaningIsInner(env, c, d, w, fuel);
    var x := Saw(w, Expanded(id));
    PickTries(env, c, d, 0, 0, Normal, x, fuel);
    OnePattern(env, c, d, 0, Normal, x, fuel);
    var y := Saw(x, Tested(p));
    ActUnfold(env, c, d, 0, Normal, y, fuel);
    var r := Meaning(env, a, d, y, fuel);
    if r.Some? {
      ActUnfold(env, c, d, 1, r.value.signal, r.value.w, fuel);
      PickTries(env, c, d, 1, r.value.status, r.value.signal, r.value.w, fuel);
      OnePattern(env, c, d, 1, r.value.signal, r.value.w, fuel);
      var z := Saw(r.value.w, Tested(q));
      ActUnfold(env, c, d, 1, r.value.signal, z, fuel);
      PickNone(env, c, d, r.value.status, r.value.signal, z, fuel);
    }
  }

  lemma OnePattern(env: Env, c: Command, d: nat, i: nat, s: Signal, w: World, fuel: nat)
    requires c.Case? && i < |c.clauses| && |c.clauses[i].patterns| == 1 && c.clauses[i].patterns[0].prelude == Null
    requires Within(s, d)
    ensures var id := c.clauses[i].patterns[0].id;
            Try(env, c, d, i, 0, s, w, fuel) == Some(Trial(env.matches(id, w), s, Saw(w, Tested(id))))
  {
    hide Meaning, Try;
    NullStatus(env, d, w, fuel);
    assert Substitute(env, c, Null, d, s, w, fuel) == Some(Pending(s, w));
    TryOne(env, c, d, i, 0, s, w, fuel);
    TryNone(env, c, d, i, s, Saw(w, Tested(c.clauses[i].patterns[0].id)), fuel);
  }

  lemma ActUnfold(env: Env, c: Command, d: nat, i: nat, s: Signal, w: World, fuel: nat)
    requires c.Case? && i < |c.clauses| && Within(s, d)
    ensures Act(env, c, d, i, s, w, fuel) ==
            match if s != Normal then Some(Result(w.last, s, w)) else Meaning(env, c.clauses[i].action, d, w, fuel)
            case None => None
            case Some(r) =>
              match c.clauses[i].end
              case Stop => Some(r)
              case Fall => if i + 1 < |c.clauses| then Act(env, c, d, i + 1, r.signal, r.w, fuel) else Some(r)
              case Next => Pick(env, c, d, i + 1, r.status, r.signal, r.w, fuel)
  {
    hide Meaning, Pick;
  }
}
