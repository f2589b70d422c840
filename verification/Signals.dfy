/** What the loop counters keep: where signals can point, when they are gone, and the ways they go astray. */
module Signals {
  import opened Options
  import opened Commands
  import opened Executor

  // ---------------------------------------------------------------- what a command can aim at

  /** Every `break` and `continue` in the command, functions aside, counts no more than the loops around it that belong
      to the command, and `m` more. */
  predicate Contained(c: Command, m: nat)
    decreases c
  {
    match c
    case Null => true
    case Simple(words, _) => Contained(words, m)
    case Calc(a) => Contained(a.prelude, m)
    case Break(n) => 0 < n <= m
    case Continue(n) => 0 < n <= m
    case Not(a) => Contained(a, m)
    case Then(a, b) => Contained(a, m) && Contained(b, m)
    case And(a, b) => Contained(a, m) && Contained(b, m)
    case Or(a, b) => Contained(a, m) && Contained(b, m)
    case If(t, y, n) => Contained(t, m) && Contained(y, m) && Contained(n, m)
    case Repeat(_, t, b) => Contained(t, m + 1) && Contained(b, m + 1)
    case For(words, _, b) => Contained(words, m + 1) && Contained(b, m + 1)
    case ArithFor(i, t, s, b) =>
      && Contained(i.prelude, m + 1) && Contained(t.prelude, m + 1) && Contained(s.prelude, m + 1)
      && Contained(b, m + 1)
    case Case(words, _, clauses) =>
      && Contained(words, m)
      && forall k :: 0 <= k < |clauses| ==>
           && Contained(clauses[k].action, m)
           && forall j :: 0 <= j < |clauses[k].patterns| ==> Contained(clauses[k].patterns[j].prelude, m)
    case Call(words, _) => Contained(words, m)
  }

  /** No break or continue escapes from the word list of a `for` loop or from the first or third expression of an
      arithmetic one. */
  predicate Tame(c: Command)
    decreases c
  {
    match c
    case Null => true
    case Simple(words, _) => Tame(words)
    case Calc(a) => Tame(a.prelude)
    case Break(_) => true
    case Continue(_) => true
    case Not(a) => Tame(a)
    case Then(a, b) => Tame(a) && Tame(b)
    case And(a, b) => Tame(a) && Tame(b)
    case Or(a, b) => Tame(a) && Tame(b)
    case If(t, y, n) => Tame(t) && Tame(y) && Tame(n)
    case Repeat(_, t, b) => Tame(t) && Tame(b)
    case For(words, _, b) => Contained(words, 0) && Tame(words) && Tame(b)
    case ArithFor(i, t, s, b) =>
      && Contained(i.prelude, 0) && Contained(s.prelude, 0)
      && Tame(i.prelude) && Tame(t.prelude) && Tame(s.prelude) && Tame(b)
    case Case(words, _, clauses) =>
      && Tame(words)
      && forall k :: 0 <= k < |clauses| ==>
           && Tame(clauses[k].action)
           && forall j :: 0 <= j < |clauses[k].patterns| ==> Tame(clauses[k].patterns[j].prelude)
    case Call(words, _) => Tame(words)
  }

  predicate TameFunctions(env: Env) {
    forall f :: f in env.funcs ==> Tame(env.funcs[f])
  }

  /** The signal, if any, is for loop number `low` or one further in. */
  predicate AtLeast(s: Signal, low: int) {
    s != Normal ==> s.loop >= low
  }

  /** A bound on what a command can aim at from among `d` loops: `m` loops out, which every one satisfies for all of
      them. */
  predicate Bounded(c: Command, d: nat, m: nat) {
    m <= d && (m == d || Contained(c, m))
  }

  /** A tame command aims at an existing loop, and no further out than its own breaks and continues count. */
  lemma {:induction false} SaneMeaning(env: Env, c: Command, d: nat, m: nat, w: World, fuel: nat)
    requires Tame(c) && TameFunctions(env) && Bounded(c, d, m)
    ensures var o := Meaning(env, c, d, w, fuel); o.Some? ==> AtLeast(o.value.signal, d - m)
    decreases fuel, c
  {
    if c != Null {
      SaneInner(env, c, d, m, w, fuel);
    }
  }

  lemma {:induction false} SaneInner(env: Env, c: Command, d: nat, m: nat, w: World, fuel: nat)
    requires Tame(c) && TameFunctions(env) && Bounded(c, d, m) && c != Null
    ensures var o := Inner(env, c, d, w, fuel); o.Some? ==> AtLeast(o.value.signal, d - m)
    decreases fuel, c, true
  {
    hide Inner, Tame, TameFunctions, Bounded;
    match c
    case Simple(_, _) | Calc(_) | Call(_, _) => SaneExpanded(env, c, d, m, w, fuel);
    case Break(_) | Continue(_) | Not(_) | Then(_, _) | And(_, _) | Or(_, _) | If(_, _, _) =>
      SaneBranching(env, c, d, m, w, fuel);
    case Repeat(_, _, _) | For(_, _, _) | ArithFor(_, _, _, _) => SaneLoop(env, c, d, m, w, fuel);
    case Case(_, _, _) => SaneCase(env, c, d, m, w, fuel);
  }

  lemma {:induction false} SaneExpanded(env: Env, c: Command, d: nat, m: nat, w: World, fuel: nat)
    requires Tame(c) && TameFunctions(env) && Bounded(c, d, m) && (c.Simple? || c.Calc? || c.Call?)
    ensures var o := Inner(env, c, d, w, fuel); o.Some? ==> AtLeast(o.value.signal, d - m)
    decreases fuel, c, true, 0
  {
    hide Meaning, Substitute;
    var p := if c.Calc? then c.a.prelude else c.words;
    SaneWords(env, c, p, d, m, Normal, w, fuel);
    var o := Substitute(env, c, p, d, Normal, w, fuel);
    if o.Some? && c.Call? && c.f in env.funcs && fuel > 0 {
      SaneMeaning(env, env.funcs[c.f], 0, 0, o.value.w, fuel - 1);
    }
  }

  lemma {:induction false} SaneBranching(env: Env, c: Command, d: nat, m: nat, w: World, fuel: nat)
    requires Tame(c) && TameFunctions(env) && Bounded(c, d, m)
    requires (c.Break? || c.Continue? || c.Not? || c.Then? || c.And? || c.Or? || c.If?)
    ensures var o := Inner(env, c, d, w, fuel); o.Some? ==> AtLeast(o.value.signal, d - m)
    decreases fuel, c, true, 0
  {
    hide Meaning;
    match c
    case Break(_) =>
    case Continue(_) =>
    case Not(a) => SaneMeaning(env, a, d, m, w, fuel);
    case Then(a, b) => SanePair(env, c, a, b, d, m, w, fuel);
    case And(a, b) => SanePair(env, c, a, b, d, m, w, fuel);
    case Or(a, b) => SanePair(env, c, a, b, d, m, w, fuel);
    case If(t, y, n) =>
      SanePair(env, c, t, y, d, m, w, fuel);
      SanePair(env, c, t, n, d, m, w, fuel);
  }

  lemma {:induction false} SaneLoop(env: Env, c: Command, d: nat, m: nat, w: World, fuel: nat)
    requires Tame(c) && TameFunctions(env) && Bounded(c, d, m) && (c.Repeat? || c.For? || c.ArithFor?)
    ensures var o := Inner(env, c, d, w, fuel); o.Some? ==> AtLeast(o.value.signal, d - m)
    decreases fuel, c, true, 0
  {
    hide Meaning, Substitute, Rounds, Each, Calculate, Turns;
    match c
    case Repeat(_, _, _) => SaneRounds(env, c, d, m, SUCCESS, w, fuel);
    case For(words, id, _) =>
      var w1 := Saw(w, Named(id));
      SaneWords(env, c, words, d + 1, 0, Normal, w1, fuel);
      var p := Substitute(env, c, words, d + 1, Normal, w1, fuel);
      if p.Some? {
        SaneEach(env, c, d, m, 0, env.words(id, p.value.w), SUCCESS, Saw(p.value.w, Expanded(id)), fuel);
      }
    case ArithFor(init, _, _, _) =>
      SaneValue(env, c, init, d + 1, 0, Normal, w, fuel);
      var v := Calculate(env, c, init, d + 1, Normal, w, fuel);
      if v.Some? {
        SaneTurns(env, c, d, m, SUCCESS, v.value, fuel);
      }
  }

  lemma {:induction false} SaneCase(env: Env, c: Command, d: nat, m: nat, w: World, fuel: nat)
    requires Tame(c) && TameFunctions(env) && Bounded(c, d, m) && c.Case?
    ensures var o := Inner(env, c, d, w, fuel); o.Some? ==> AtLeast(o.value.signal, d - m)
    decreases fuel, c, true, 0
  {
    hide Meaning, Substitute, Pick;
    SaneWords(env, c, c.words, d, m, Normal, w, fuel);
    var p := Substitute(env, c, c.words, d, Normal, w, fuel);
    if p.Some? {
      SanePick(env, c, d, m, 0, SUCCESS, p.value.s, Saw(p.value.w, Expanded(c.id)), fuel);
    }
  }

  lemma {:induction false} SaneWords(env: Env, c: Command, p: Command, d: nat, m: nat, s: Signal, w: World, fuel: nat)
    requires p < c && Tame(p) && TameFunctions(env) && Bounded(p, d, m) && Within(s, d) && AtLeast(s, d - m)
    ensures var o := Substitute(env, c, p, d, s, w, fuel); o.Some? ==> AtLeast(o.value.s, d - m)
    decreases fuel, c, false, 0, 0
  {
    hide Meaning;
    SaneMeaning(env, p, d, m, w, fuel);
  }

  /** Two parts of a command, one after the other. */
  lemma {:induction false} SanePair(env: Env, c: Command, a: Command, b: Command, d: nat, m: nat, w: World, fuel: nat)
    requires a < c && b < c && Tame(a) && Tame(b) && TameFunctions(env) && Bounded(a, d, m) && Bounded(b, d, m)
    ensures var o := Meaning(env, a, d, w, fuel);
            o.Some? ==>
              && AtLeast(o.value.signal, d - m)
              && var p := Meaning(env, b, d, o.value.w, fuel); p.Some? ==> AtLeast(p.value.signal, d - m)
    decreases fuel, c, false, 0
  {
    hide Meaning;
    SaneMeaning(env, a, d, m, w, fuel);
    var o := Meaning(env, a, d, w, fuel);
    if o.Some? {
      SaneMeaning(env, b, d, m, o.value.w, fuel);
    }
  }

  lemma {:induction false} SaneRounds(env: Env, c: Command, d: nat, m: nat, status: int, w: World, fuel: nat)
    requires Tame(c) && TameFunctions(env) && Bounded(c, d, m) && c.Repeat?
    ensures var o := Rounds(env, c, d, status, w, fuel); o.Some? ==> AtLeast(o.value.signal, d - m)
    decreases fuel, c, false, 1
  {
    hide Meaning;
    SanePair(env, c, c.test, c.body, d + 1, m + 1, w, fuel);
    var t := Meaning(env, c.test, d + 1, w, fuel);
    if t.Some? && (t.value.status == SUCCESS) != c.until {
      var b := if t.value.signal != Normal then t else Meaning(env, c.body, d + 1, t.value.w, fuel);
      if b.Some? && GoesOn(b.value.signal, d) && fuel > 0 {
        SaneRounds(env, c, d, m, b.value.status, b.value.w, fuel - 1);
      }
    }
  }

  lemma {:induction false} SaneEach(env: Env, c: Command, d: nat, m: nat, k: nat, n: nat, status: int, w: World,
      fuel: nat)
    requires Tame(c) && TameFunctions(env) && Bounded(c, d, m) && c.For? && k <= n
    ensures var o := Each(env, c, d, k, n, status, Normal, w, fuel); o.Some? ==> AtLeast(o.value.signal, d - m)
    decreases fuel, c, false, n - k
  {
    hide Meaning;
    if k < n {
      var w1 := Saw(w, Bound(c.id, k));
      SaneMeaning(env, c.body, d + 1, m + 1, w1, fuel);
      var b := Meaning(env, c.body, d + 1, w1, fuel);
      if b.Some? {
        SaneEach(env, c, d, m, k + 1, n, b.value.status, b.value.w, fuel);
      }
    }
  }

  lemma {:induction false} SaneValue(env: Env, c: Command, a: Arith, d: nat, m: nat, s: Signal, w: World, fuel: nat)
    requires TameFunctions(env) && c.ArithFor? && (a == c.init || a == c.arith || a == c.step) && Tame(a.prelude)
    requires Bounded(a.prelude, d, m) && Within(s, d) && AtLeast(s, d - m)
    ensures var o := Calculate(env, c, a, d, s, w, fuel); o.Some? ==> AtLeast(o.value.signal, d - m)
    decreases fuel, c, false, 0, 1
  {
    hide Substitute;
    SaneWords(env, c, a.prelude, d, m, s, w, fuel);
  }

  /** As long as nothing escapes from the first and third expressions, no signal is pending when one of them fails. */
  lemma {:induction false} SaneTurns(env: Env, c: Command, d: nat, m: nat, status: int, v: Value, fuel: nat)
    requires Tame(c) && TameFunctions(env) && Bounded(c, d, m) && c.ArithFor? && v.signal == Normal
    ensures var o := Turns(env, c, d, status, v, fuel); o.Some? ==> AtLeast(o.value.signal, d - m)
    decreases fuel, c, false, 1
  {
    hide Meaning, Calculate;
    if v.ok {
      SaneValue(env, c, c.arith, d + 1, m + 1, Normal, v.w, fuel);
      var t := Calculate(env, c, c.arith, d + 1, Normal, v.w, fuel);
      if t.Some? {
        SaneMeaning(env, c.body, d + 1, m + 1, t.value.w, fuel);
        var b := Meaning(env, c.body, d + 1, t.value.w, fuel);
        if b.Some? {
          SaneValue(env, c, c.step, d + 1, 0, Normal, b.value.w, fuel);
          var s := Calculate(env, c, c.step, d + 1, Normal, b.value.w, fuel);
          if s.Some? && fuel > 0 {
            SaneTurns(env, c, d, m, b.value.status, s.value, fuel - 1);
          }
        }
      }
    }
  }

  lemma {:induction false} SaneTry(env: Env, c: Command, d: nat, m: nat, i: nat, j: nat, s: Signal, w: World, fuel: nat)
    requires Tame(c) && TameFunctions(env) && Bounded(c, d, m) && Within(s, d) && AtLeast(s, d - m)
    requires c.Case? && i < |c.clauses| && j <= |c.clauses[i].patterns|
    ensures var o := Try(env, c, d, i, j, s, w, fuel); o.Some? ==> AtLeast(o.value.s, d - m)
    decreases fuel, c, false, |c.clauses| - i, 1, |c.clauses[i].patterns| - j
  {
    hide Substitute;
    if j < |c.clauses[i].patterns| {
      var p := c.clauses[i].patterns[j];
      SaneWords(env, c, p.prelude, d, m, s, w, fuel);
      var q := Substitute(env, c, p.prelude, d, s, w, fuel);
      if q.Some? {
        SaneTry(env, c, d, m, i, j + 1, q.value.s, Saw(q.value.w, Tested(p.id)), fuel);
      }
    }
  }

  lemma {:induction false} SanePick(env: Env, c: Command, d: nat, m: nat, i: nat, status: int, s: Signal, w: World,
      fuel: nat)
    requires Tame(c) && TameFunctions(env) && Bounded(c, d, m) && Within(s, d) && AtLeast(s, d - m)
    requires c.Case? && i <= |c.clauses|
    ensures var o := Pick(env, c, d, i, status, s, w, fuel); o.Some? ==> AtLeast(o.value.signal, d - m)
    decreases fuel, c, false, |c.clauses| - i, 2
  {
    hide Try, Act;
    if i < |c.clauses| {
      SaneTry(env, c, d, m, i, 0, s, w, fuel);
      var t := Try(env, c, d, i, 0, s, w, fuel);
      if t.Some? && t.value.hit {
        SaneAct(env, c, d, m, i, t.value.s, t.value.w, fuel);
      } else if t.Some? {
        SanePick(env, c, d, m, i + 1, status, t.value.s, t.value.w, fuel);
      }
    }
  }

  lemma {:induction false} SaneAct(env: Env, c: Command, d: nat, m: nat, i: nat, s: Signal, w: World, fuel: nat)
    requires Tame(c) && TameFunctions(env) && Bounded(c, d, m) && Within(s, d) && AtLeast(s, d - m)
    requires c.Case? && i < |c.clauses|
    ensures var o := Act(env, c, d, i, s, w, fuel); o.Some? ==> AtLeast(o.value.signal, d - m)
    decreases fuel, c, false, |c.clauses| - i, 0
  {
    hide Meaning, Pick;
    SaneMeaning(env, c.clauses[i].action, d, m, w, fuel);
    var o := if s != Normal then Some(Result(w.last, s, w)) else Meaning(env, c.clauses[i].action, d, w, fuel);
    if o.Some? {
      match c.clauses[i].end
      case Stop =>
      case Fall =>
        if i + 1 < |c.clauses| {
          SaneAct(env, c, d, m, i + 1, o.value.signal, o.value.w, fuel);
        }
      case Next => SanePick(env, c, d, m, i + 1, o.value.status, o.value.signal, o.value.w, fuel);
    }
  }

  // ---------------------------------------------------------------- the counters

  /** The counters never exceed the depth of loops, are never both in use, and are zero outside of all loops. */
  lemma CountersStay(env: Env, c: Command, d: nat, w: World, fuel: nat)
    requires Tame(c) && TameFunctions(env) && Meaning(env, c, d, w, fuel).Some?
    ensures var s := Meaning(env, c, d, w, fuel).value.signal;
            && 0 <= Breaks(s, d) <= d && 0 <= Continues(s, d) <= d
            && (Breaks(s, d) == 0 || Continues(s, d) == 0)
            && (d == 0 ==> Breaks(s, d) == 0 && Continues(s, d) == 0)
  {
    hide Meaning;
    SaneMeaning(env, c, d, d, w, fuel);
  }

  /** A whole command line without such escapes: whatever it does, the executor is ready for the next one. */
  method ExecuteLine(shell: Shell, c: Command, fuel: nat) returns (status: int, done: bool)
    requires shell.breaking == 0 && shell.continuing == 0 && shell.loopLevel == 0
    requires Tame(c) && TameFunctions(shell.env)
    modifies shell
    ensures shell.loopLevel == 0 && (done ==> shell.breaking == 0 && shell.continuing == 0)
    ensures var o := Meaning(shell.env, c, 0, old(shell.w), fuel);
            (done <==> o.Some?) && (done ==> status == o.value.status && shell.w == o.value.w)
  {
    hide Meaning;
    if Meaning(shell.env, c, 0, shell.w, fuel).Some? {
      CountersStay(shell.env, c, 0, shell.w, fuel);
    }
    status, done := shell.Execute(c, fuel, Normal);
  }
}
