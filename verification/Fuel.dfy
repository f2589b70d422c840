/** The bound on the length of a run does not matter once the run ends within it. */
module Fuel {
  import opened Options
  import opened Commands

  /** A run that ends within some number of rounds and nested calls is the same under any larger bound. */
  lemma {:induction false} MoreFuel(env: Env, c: Command, d: nat, w: World, fuel: nat)
    requires Meaning(env, c, d, w, fuel).Some?
    ensures Meaning(env, c, d, w, fuel + 1) == Meaning(env, c, d, w, fuel)
    decreases fuel, c
  {
    if c != Null {
      MoreInner(env, c, d, w, fuel);
    }
  }

  lemma {:induction false} MoreInner(env: Env, c: Command, d: nat, w: World, fuel: nat)
    requires c != Null && Inner(env, c, d, w, fuel).Some?
    ensures Inner(env, c, d, w, fuel + 1) == Inner(env, c, d, w, fuel)
    decreases fuel, c, true
  {
    match c
    case Simple(words, _) => MoreExpanded(env, c, words, d, w, fuel);
    case Calc(a) => MoreExpanded(env, c, a.prelude, d, w, fuel);
    case Call(words, _) => MoreExpanded(env, c, words, d, w, fuel);
    case Break(_) =>
    case Continue(_) =>
    case Not(a) =>
      hide Meaning;
      MoreFuel(env, a, d, w, fuel);
    case Then(a, b) =>
      hide Meaning;
      MorePair(env, c, a, b, d, w, fuel);
    case And(a, b) =>
      hide Meaning;
      MorePair(env, c, a, b, d, w, fuel);
    case Or(a, b) =>
      hide Meaning;
      MorePair(env, c, a, b, d, w, fuel);
    case If(t, y, n) =>
      hide Meaning;
      MorePair(env, c, t, y, d, w, fuel);
      MorePair(env, c, t, n, d, w, fuel);
    case Repeat(_, _, _) =>
      hide Rounds;
      MoreRounds(env, c, d, SUCCESS, w, fuel);
    case For(_, _, _) => MoreFor(env, c, d, w, fuel);
    case ArithFor(_, _, _, _) => MoreArithFor(env, c, d, w, fuel);
    case Case(_, _, _) => MoreCase(env, c, d, w, fuel);
  }

  lemma {:induction false} MoreExpanded(env: Env, c: Command, p: Command, d: nat, w: World, fuel: nat)
    requires (c.Simple? && p == c.words) || (c.Calc? && p == c.a.prelude) || (c.Call? && p == c.words)
    requires Inner(env, c, d, w, fuel).Some?
    ensures Inner(env, c, d, w, fuel + 1) == Inner(env, c, d, w, fuel)
    decreases fuel, c, false, 1
  {
    hide Meaning, Substitute;
    MoreWords(env, c, p, d, Normal, w, fuel);
    var x := Substitute(env, c, p, d, Normal, w, fuel).value;
    if c.Call? && c.f in env.funcs && fuel > 0 && x.s == Normal {
      MoreFuel(env, env.funcs[c.f], 0, x.w, fuel - 1);
    }
  }

  lemma {:induction false} MoreWords(env: Env, c: Command, p: Command, d: nat, s: Signal, w: World, fuel: nat)
    requires p < c && Within(s, d) && Substitute(env, c, p, d, s, w, fuel).Some?
    ensures Substitute(env, c, p, d, s, w, fuel + 1) == Substitute(env, c, p, d, s, w, fuel)
    decreases fuel, c, false, 0, 0
  {
    hide Meaning;
    if s == Normal {
      MoreFuel(env, p, d, w, fuel);
    }
  }

  /** Two parts of a command, one after the other, as far as they end. */
  lemma {:induction false} MorePair(env: Env, c: Command, a: Command, b: Command, d: nat, w: World, fuel: nat)
    requires a < c && b < c && Meaning(env, a, d, w, fuel).Some?
    ensures var o := Meaning(env, a, d, w, fuel);
            && Meaning(env, a, d, w, fuel + 1) == o
            && var p := Meaning(env, b, d, o.value.w, fuel);
               p.Some? ==> Meaning(env, b, d, o.value.w, fuel + 1) == p
    decreases fuel, c, false, 0
  {
    hide Meaning;
    MoreFuel(env, a, d, w, fuel);
    var o := Meaning(env, a, d, w, fuel);
    if Meaning(env, b, d, o.value.w, fuel).Some? {
      MoreFuel(env, b, d, o.value.w, fuel);
    }
  }

  lemma {:induction false} MoreRounds(env: Env, c: Command, d: nat, status: int, w: World, fuel: nat)
    requires c.Repeat? && Rounds(env, c, d, status, w, fuel).Some?
    ensures Rounds(env, c, d, status, w, fuel + 1) == Rounds(env, c, d, status, w, fuel)
    decreases fuel, c, false, 1
  {
    hide Meaning;
    MorePair(env, c, c.test, c.body, d + 1, w, fuel);
    var t := Meaning(env, c.test, d + 1, w, fuel).value;
    if (t.status == SUCCESS) != c.until {
      var b := if t.signal != Normal then t else Meaning(env, c.body, d + 1, t.w, fuel).value;
      if GoesOn(b.signal, d) {
        MoreRounds(env, c, d, b.status, b.w, fuel - 1);
      }
    }
  }

  lemma {:induction false} MoreFor(env: Env, c: Command, d: nat, w: World, fuel: nat)
    requires c.For? && Inner(env, c, d, w, fuel).Some?
    ensures Inner(env, c, d, w, fuel + 1) == Inner(env, c, d, w, fuel)
    decreases fuel, c, true, 0
  {
    hide Meaning, Substitute, Each;
    if env.named(c.id, w) {
      var w1 := Saw(w, Named(c.id));
      MoreWords(env, c, c.words, d + 1, Normal, w1, fuel);
      var p := Substitute(env, c, c.words, d + 1, Normal, w1, fuel).value;
      MoreEach(env, c, d, 0, env.words(c.id, p.w), SUCCESS, p.s, Saw(p.w, Expanded(c.id)), fuel);
    }
  }

  lemma {:induction false} MoreEach(env: Env, c: Command, d: nat, k: nat, n: nat, status: int, s: Signal, w: World,
      fuel: nat)
    requires c.For? && k <= n && Within(s, d + 1) && Each(env, c, d, k, n, status, s, w, fuel).Some?
    ensures Each(env, c, d, k, n, status, s, w, fuel + 1) == Each(env, c, d, k, n, status, s, w, fuel)
    decreases fuel, c, false, n - k
  {
    hide Meaning;
    if k < n && env.bind(c.id, k, w) {
      var w1 := Saw(w, Bound(c.id, k));
      if s == Normal {
        MoreFuel(env, c.body, d + 1, w1, fuel);
      }
      var b := if s != Normal then Result(w1.last, s, w1) else Meaning(env, c.body, d + 1, w1, fuel).value;
      if GoesOn(b.signal, d) {
        MoreEach(env, c, d, k + 1, n, b.status, Normal, b.w, fuel);
      }
    }
  }

  lemma {:induction false} MoreValue(env: Env, c: Command, a: Arith, d: nat, s: Signal, w: World, fuel: nat)
    requires c.ArithFor? && (a == c.init || a == c.arith || a == c.step) && Within(s, d)
    requires Calculate(env, c, a, d, s, w, fuel).Some?
    ensures Calculate(env, c, a, d, s, w, fuel + 1) == Calculate(env, c, a, d, s, w, fuel)
    decreases fuel, c, false, 0, 1
  {
    hide Substitute;
    MoreWords(env, c, a.prelude, d, s, w, fuel);
  }

  lemma {:induction false} MoreArithFor(env: Env, c: Command, d: nat, w: World, fuel: nat)
    requires c.ArithFor? && Inner(env, c, d, w, fuel).Some?
    ensures Inner(env, c, d, w, fuel + 1) == Inner(env, c, d, w, fuel)
    decreases fuel, c, true, 0
  {
    hide Meaning, Calculate, Turns;
    MoreValue(env, c, c.init, d + 1, Normal, w, fuel);
    MoreTurns(env, c, d, SUCCESS, Calculate(env, c, c.init, d + 1, Normal, w, fuel).value, fuel);
  }

  lemma {:induction false} MoreTurns(env: Env, c: Command, d: nat, status: int, v: Value, fuel: nat)
    requires c.ArithFor? && Within(v.signal, d + 1) && Turns(env, c, d, status, v, fuel).Some?
    ensures Turns(env, c, d, status, v, fuel + 1) == Turns(env, c, d, status, v, fuel)
    decreases fuel, c, false, 1
  {
    hide Meaning, Calculate;
    if v.ok {
      MoreValue(env, c, c.arith, d + 1, v.signal, v.w, fuel);
      var t := Calculate(env, c, c.arith, d + 1, v.signal, v.w, fuel).value;
      if RunsBody(t, d) {
        MoreFuel(env, c.body, d + 1, t.w, fuel);
        var b := Meaning(env, c.body, d + 1, t.w, fuel).value;
        if GoesOn(b.signal, d) {
          MoreValue(env, c, c.step, d + 1, Normal, b.w, fuel);
          MoreTurns(env, c, d, b.status, Calculate(env, c, c.step, d + 1, Normal, b.w, fuel).value, fuel - 1);
        }
      }
    }
  }

  lemma {:induction false} MoreCase(env: Env, c: Command, d: nat, w: World, fuel: nat)
    requires c.Case? && Inner(env, c, d, w, fuel).Some?
    ensures Inner(env, c, d, w, fuel + 1) == Inner(env, c, d, w, fuel)
    decreases fuel, c, true, 0
  {
    hide Meaning, Substitute, Pick;
    MoreWords(env, c, c.words, d, Normal, w, fuel);
    var p := Substitute(env, c, c.words, d, Normal, w, fuel).value;
    MorePick(env, c, d, 0, SUCCESS, p.s, Saw(p.w, Expanded(c.id)), fuel);
  }

  lemma {:induction false} MoreTry(env: Env, c: Command, d: nat, i: nat, j: nat, s: Signal, w: World, fuel: nat)
    requires c.Case? && i < |c.clauses| && j <= |c.clauses[i].patterns| && Within(s, d)
    requires Try(env, c, d, i, j, s, w, fuel).Some?
    ensures Try(env, c, d, i, j, s, w, fuel + 1) == Try(env, c, d, i, j, s, w, fuel)
    decreases fuel, c, false, |c.clauses| - i, 1, |c.clauses[i].patterns| - j
  {
    hide Substitute;
    if j < |c.clauses[i].patterns| {
      var p := c.clauses[i].patterns[j];
      MoreWords(env, c, p.prelude, d, s, w, fuel);
      var q := Substitute(env, c, p.prelude, d, s, w, fuel).value;
      if !env.matches(p.id, q.w) {
        MoreTry(env, c, d, i, j + 1, q.s, Saw(q.w, Tested(p.id)), fuel);
      }
    }
  }

  lemma {:induction false} MorePick(env: Env, c: Command, d: nat, i: nat, status: int, s: Signal, w: World, fuel: nat)
    requires c.Case? && i <= |c.clauses| && Within(s, d) && Pick(env, c, d, i, status, s, w, fuel).Some?
    ensures Pick(env, c, d, i, status, s, w, fuel + 1) == Pick(env, c, d, i, status, s, w, fuel)
    decreases fuel, c, false, |c.clauses| - i, 2
  {
    hide Meaning, Act, Try;
    if i < |c.clauses| {
      MoreTry(env, c, d, i, 0, s, w, fuel);
      var t := Try(env, c, d, i, 0, s, w, fuel).value;
      if t.hit {
        MoreAct(env, c, d, i, t.s, t.w, fuel);
      } else {
        MorePick(env, c, d, i + 1, status, t.s, t.w, fuel);
      }
    }
  }

  lemma {:induction false} MoreAct(env: Env, c: Command, d: nat, i: nat, s: Signal, w: World, fuel: nat)
    requires c.Case? && i < |c.clauses| && Within(s, d) && Act(env, c, d, i, s, w, fuel).Some?
    ensures Act(env, c, d, i, s, w, fuel + 1) == Act(env, c, d, i, s, w, fuel)
    decreases fuel, c, false, |c.clauses| - i, 0
  {
    hide Meaning, Pick;
    if s == Normal {
      MoreFuel(env, c.clauses[i].action, d, w, fuel);
    }
    var r := if s != Normal then Result(w.last, s, w) else Meaning(env, c.clauses[i].action, d, w, fuel).value;
    match c.clauses[i].end
    case Stop =>
    case Fall =>
      if i + 1 < |c.clauses| {
        MoreAct(env, c, d, i + 1, r.signal, r.w, fuel);
      }
    case Next => MorePick(env, c, d, i + 1, r.status, r.signal, r.w, fuel);
  }

  lemma {:induction false} EnoughFuel(env: Env, c: Command, d: nat, w: World, fuel: nat, more: nat)
    requires fuel <= more && Meaning(env, c, d, w, fuel).Some?
    ensures Meaning(env, c, d, w, more) == Meaning(env, c, d, w, fuel)
    decreases more - fuel
  {
    hide Meaning;
    if fuel < more {
      MoreFuel(env, c, d, w, fuel);
      EnoughFuel(env, c, d, w, fuel + 1, more);
    }
  }
}
