/** Commands that do not look at the last exit status do the same whatever it is. */
module Blindness {
  import opened Options
  import opened Commands

  /** Nothing outside the control structures depends on the last exit status. */
  ghost predicate Blind(env: Env) {
    && (forall id: nat, w :: env.run(id, w) == env.run(id, World(w.trace, 0)))
    && (forall id: nat, w :: env.named(id, w) == env.named(id, World(w.trace, 0)))
    && (forall id: nat, w :: env.words(id, w) == env.words(id, World(w.trace, 0)))
    && (forall id: nat, k: nat, w :: env.bind(id, k, w) == env.bind(id, k, World(w.trace, 0)))
    && (forall id: nat, w :: env.ok(id, w) == env.ok(id, World(w.trace, 0)))
    && (forall id: nat, w :: env.nonzero(id, w) == env.nonzero(id, World(w.trace, 0)))
    && (forall id: nat, w :: env.matches(id, w) == env.matches(id, World(w.trace, 0)))
  }

  /** The same has happened, and while a signal is pending the last exit status is the same as well. */
  predicate Alike(s: Signal, a: World, b: World) {
    a.trace == b.trace && (s != Normal ==> a.last == b.last)
  }

  lemma BlindTo(env: Env, a: World, b: World)
    requires Blind(env) && a.trace == b.trace
    ensures forall id: nat {:trigger env.run(id, a)} :: env.run(id, a) == env.run(id, b)
    ensures forall id: nat {:trigger env.named(id, a)} :: env.named(id, a) == env.named(id, b)
    ensures forall id: nat {:trigger env.words(id, a)} :: env.words(id, a) == env.words(id, b)
    ensures forall id: nat, k: nat {:trigger env.bind(id, k, a)} :: env.bind(id, k, a) == env.bind(id, k, b)
    ensures forall id: nat {:trigger env.ok(id, a)} :: env.ok(id, a) == env.ok(id, b)
    ensures forall id: nat {:trigger env.nonzero(id, a)} :: env.nonzero(id, a) == env.nonzero(id, b)
    ensures forall id: nat {:trigger env.matches(id, a)} :: env.matches(id, a) == env.matches(id, b)
  {
    forall id: nat
      ensures env.run(id, a) == env.run(id, b)
    {
      assert env.run(id, a) == env.run(id, World(a.trace, 0)) == env.run(id, b);
    }
    forall id: nat
      ensures env.named(id, a) == env.named(id, b)
    {
      assert env.named(id, a) == env.named(id, World(a.trace, 0)) == env.named(id, b);
    }
    forall id: nat
      ensures env.words(id, a) == env.words(id, b)
    {
      assert env.words(id, a) == env.words(id, World(a.trace, 0)) == env.words(id, b);
    }
    forall id: nat
      ensures env.ok(id, a) == env.ok(id, b)
    {
      assert env.ok(id, a) == env.ok(id, World(a.trace, 0)) == env.ok(id, b);
    }
    forall id: nat
      ensures env.nonzero(id, a) == env.nonzero(id, b)
    {
      assert env.nonzero(id, a) == env.nonzero(id, World(a.trace, 0)) == env.nonzero(id, b);
    }
    forall id: nat
      ensures env.matches(id, a) == env.matches(id, b)
    {
      assert env.matches(id, a) == env.matches(id, World(a.trace, 0)) == env.matches(id, b);
    }
    forall id: nat, k: nat
      ensures env.bind(id, k, a) == env.bind(id, k, b)
    {
      assert env.bind(id, k, a) == env.bind(id, k, World(a.trace, 0)) == env.bind(id, k, b);
    }
  }

  /** Two runs come to the same: neither ends, or both do with the same status, signal and events. */
  predicate Same(o: Option<Result>, p: Option<Result>) {
    && (o.Some? <==> p.Some?)
    && (o.Some? ==>
          && o.value.status == p.value.status && o.value.signal == p.value.signal
          && Alike(o.value.signal, o.value.w, p.value.w))
  }

  predicate SamePending(o: Option<Pending>, p: Option<Pending>) {
    (o.Some? <==> p.Some?) && (o.Some? ==> o.value.s == p.value.s && Alike(o.value.s, o.value.w, p.value.w))
  }

  predicate SameValue(o: Option<Value>, p: Option<Value>) {
    && (o.Some? <==> p.Some?)
    && (o.Some? ==>
          && o.value.ok == p.value.ok && o.value.nonzero == p.value.nonzero && o.value.signal == p.value.signal
          && Alike(o.value.signal, o.value.w, p.value.w))
  }

  predicate SameTrial(o: Option<Trial>, p: Option<Trial>) {
    && (o.Some? <==> p.Some?)
    && (o.Some? ==> o.value.hit == p.value.hit && o.value.s == p.value.s && Alike(o.value.s, o.value.w, p.value.w))
  }

  lemma {:induction false} SameMeaning(env: Env, c: Command, d: nat, a: World, b: World, fuel: nat)
    requires Blind(env) && a.trace == b.trace
    ensures Same(Meaning(env, c, d, a, fuel), Meaning(env, c, d, b, fuel))
    decreases fuel, c
  {
    if c != Null {
      SameInner(env, c, d, a, b, fuel);
    }
  }

  /** Before the status is left behind, the last status may still differ. */
  predicate SameBut(o: Option<Result>, p: Option<Result>) {
    && (o.Some? <==> p.Some?)
    && (o.Some? ==>
          && o.value.status == p.value.status && o.value.signal == p.value.signal
          && o.value.w.trace == p.value.w.trace)
  }

  lemma {:induction false} SameInner(env: Env, c: Command, d: nat, a: World, b: World, fuel: nat)
    requires Blind(env) && a.trace == b.trace && c != Null
    ensures SameBut(Inner(env, c, d, a, fuel), Inner(env, c, d, b, fuel))
    decreases fuel, c, true
  {
    hide Inner, Blind;
    match c
    case Simple(_, _) | Calc(_) | Call(_, _) => SameExpanded(env, c, d, a, b, fuel);
    case Break(_) | Continue(_) | Not(_) | Then(_, _) | And(_, _) | Or(_, _) | If(_, _, _) =>
      SameBranching(env, c, d, a, b, fuel);
    case Repeat(_, _, _) => SameRepeat(env, c, d, a, b, fuel);
    case For(_, _, _) => SameFor(env, c, d, a, b, fuel);
    case ArithFor(_, _, _, _) => SameArithFor(env, c, d, a, b, fuel);
    case Case(_, _, _) => SameCase(env, c, d, a, b, fuel);
  }

  lemma {:induction false} SameBranching(env: Env, c: Command, d: nat, a: World, b: World, fuel: nat)
    requires Blind(env) && a.trace == b.trace
    requires c.Break? || c.Continue? || c.Not? || c.Then? || c.And? || c.Or? || c.If?
    ensures SameBut(Inner(env, c, d, a, fuel), Inner(env, c, d, b, fuel))
    decreases fuel, c, true, 0
  {
    hide Meaning, Blind;
    match c
    case Break(_) | Continue(_) =>
    case Not(x) => SameMeaning(env, x, d, a, b, fuel);
    case Then(_, _) | And(_, _) | Or(_, _) => SamePair(env, c, c.first, c.second, d, a, b, fuel);
    case If(t, y, n) =>
      SamePair(env, c, t, y, d, a, b, fuel);
      SamePair(env, c, t, n, d, a, b, fuel);
  }

  lemma {:induction false} SameRepeat(env: Env, c: Command, d: nat, a: World, b: World, fuel: nat)
    requires Blind(env) && a.trace == b.trace && c.Repeat?
    ensures SameBut(Inner(env, c, d, a, fuel), Inner(env, c, d, b, fuel))
    decreases fuel, c, true, 0
  {
    hide Rounds, Blind;
    SameRounds(env, c, d, SUCCESS, a, b, fuel);
  }

  lemma {:induction false} SameExpanded(env: Env, c: Command, d: nat, a: World, b: World, fuel: nat)
    requires Blind(env) && a.trace == b.trace && (c.Simple? || c.Calc? || c.Call?)
    ensures SameBut(Inner(env, c, d, a, fuel), Inner(env, c, d, b, fuel))
    decreases fuel, c, false, 1
  {
    hide Meaning, Substitute, Blind;
    var p := if c.Calc? then c.a.prelude else c.words;
    SameWords(env, c, p, d, Normal, a, b, fuel);
    var x, y := Substitute(env, c, p, d, Normal, a, fuel), Substitute(env, c, p, d, Normal, b, fuel);
    if x.Some? {
      BlindTo(env, x.value.w, y.value.w);
      if c.Call? && c.f in env.funcs && fuel > 0 {
        SameMeaning(env, env.funcs[c.f], 0, x.value.w, y.value.w, fuel - 1);
      }
    }
  }

  lemma {:induction false} SameWords(env: Env, c: Command, p: Command, d: nat, s: Signal, a: World, b: World, fuel: nat)
    requires Blind(env) && Alike(s, a, b) && p < c && Within(s, d)
    ensures SamePending(Substitute(env, c, p, d, s, a, fuel), Substitute(env, c, p, d, s, b, fuel))
    decreases fuel, c, false, 0, 0
  {
    hide Meaning, Blind;
    SameMeaning(env, p, d, a, b, fuel);
  }

  lemma {:induction false} SamePair(env: Env, c: Command, x: Command, y: Command, d: nat, a: World, b: World, fuel: nat)
    requires Blind(env) && a.trace == b.trace && x < c && y < c
    ensures var o, p := Meaning(env, x, d, a, fuel), Meaning(env, x, d, b, fuel);
            Same(o, p) && (o.Some? ==> Same(Meaning(env, y, d, o.value.w, fuel), Meaning(env, y, d, p.value.w, fuel)))
    decreases fuel, c, false, 0
  {
    hide Meaning, Blind;
    SameMeaning(env, x, d, a, b, fuel);
    var o, p := Meaning(env, x, d, a, fuel), Meaning(env, x, d, b, fuel);
    if o.Some? {
      SameMeaning(env, y, d, o.value.w, p.value.w, fuel);
    }
  }

  lemma {:induction false} SameRounds(env: Env, c: Command, d: nat, status: int, a: World, b: World, fuel: nat)
    requires Blind(env) && a.trace == b.trace && c.Repeat?
    ensures SameBut(Rounds(env, c, d, status, a, fuel), Rounds(env, c, d, status, b, fuel))
    decreases fuel, c, false, 1
  {
    hide Meaning, Blind;
    SamePair(env, c, c.test, c.body, d + 1, a, b, fuel);
    var t, u := Meaning(env, c.test, d + 1, a, fuel), Meaning(env, c.test, d + 1, b, fuel);
    if t.Some? && (t.value.status == SUCCESS) != c.until {
      var x := if t.value.signal != Normal then t else Meaning(env, c.body, d + 1, t.value.w, fuel);
      var y := if u.value.signal != Normal then u else Meaning(env, c.body, d + 1, u.value.w, fuel);
      if x.Some? {
        SameNext(env, c, d, x.value, y.value, fuel);
      }
    }
  }

  lemma {:induction false} SameNext(env: Env, c: Command, d: nat, x: Result, y: Result, fuel: nat)
    requires Blind(env) && c.Repeat? && Within(x.signal, d + 1) && Same(Some(x), Some(y))
    ensures SameBut(NextRound(env, c, d, x, fuel), NextRound(env, c, d, y, fuel))
    decreases fuel, c, false, 0
  {
    hide Rounds, Blind;
    if GoesOn(x.signal, d) && fuel > 0 {
      SameRounds(env, c, d, x.status, x.w, y.w, fuel - 1);
    }
  }

  lemma {:induction false} SameFor(env: Env, c: Command, d: nat, a: World, b: World, fuel: nat)
    requires Blind(env) && a.trace == b.trace && c.For?
    ensures SameBut(Inner(env, c, d, a, fuel), Inner(env, c, d, b, fuel))
    decreases fuel, c, true, 0
  {
    hide Meaning, Substitute, Blind, Each;
    BlindTo(env, a, b);
    var v, w := Saw(a, Named(c.id)), Saw(b, Named(c.id));
    SameWords(env, c, c.words, d + 1, Normal, v, w, fuel);
    var x := Substitute(env, c, c.words, d + 1, Normal, v, fuel);
    var y := Substitute(env, c, c.words, d + 1, Normal, w, fuel);
    if x.Some? {
      BlindTo(env, x.value.w, y.value.w);
      var n := env.words(c.id, x.value.w);
      var x1, y1 := Saw(x.value.w, Expanded(c.id)), Saw(y.value.w, Expanded(c.id));
      SameEach(env, c, d, 0, n, SUCCESS, x.value.s, x1, y1, fuel);
    }
  }

  lemma {:induction false} SameEach(env: Env, c: Command, d: nat, k: nat, n: nat, status: int, s: Signal, a: World,
      b: World, fuel: nat)
    requires Blind(env) && Alike(s, a, b) && c.For? && k <= n && Within(s, d + 1)
    ensures SameBut(Each(env, c, d, k, n, status, s, a, fuel), Each(env, c, d, k, n, status, s, b, fuel))
    decreases fuel, c, false, n - k
  {
    hide Meaning, Blind;
    if k < n {
      BlindTo(env, a, b);
      var v, w := Saw(a, Bound(c.id, k)), Saw(b, Bound(c.id, k));
      SameMeaning(env, c.body, d + 1, v, w, fuel);
      var x := if s != Normal then Some(Result(v.last, s, v)) else Meaning(env, c.body, d + 1, v, fuel);
      var y := if s != Normal then Some(Result(w.last, s, w)) else Meaning(env, c.body, d + 1, w, fuel);
      if x.Some? && GoesOn(x.value.signal, d) {
        SameEach(env, c, d, k + 1, n, x.value.status, Normal, x.value.w, y.value.w, fuel);
      }
    }
  }

  lemma {:induction false} SameCalculate(env: Env, c: Command, e: Arith, d: nat, s: Signal, a: World, b: World,
      fuel: nat)
    requires Blind(env) && Alike(s, a, b) && c.ArithFor? && (e == c.init || e == c.arith || e == c.step) && Within(s, d)
    ensures SameValue(Calculate(env, c, e, d, s, a, fuel), Calculate(env, c, e, d, s, b, fuel))
    decreases fuel, c, false, 0, 1
  {
    hide Substitute, Blind;
    SameWords(env, c, e.prelude, d, s, a, b, fuel);
    var x, y := Substitute(env, c, e.prelude, d, s, a, fuel), Substitute(env, c, e.prelude, d, s, b, fuel);
    if x.Some? {
      BlindTo(env, x.value.w, y.value.w);
    }
  }

  lemma {:induction false} SameArithFor(env: Env, c: Command, d: nat, a: World, b: World, fuel: nat)
    requires Blind(env) && a.trace == b.trace && c.ArithFor?
    ensures SameBut(Inner(env, c, d, a, fuel), Inner(env, c, d, b, fuel))
    decreases fuel, c, true, 0
  {
    hide Meaning, Calculate, Blind, Turns;
    SameCalculate(env, c, c.init, d + 1, Normal, a, b, fuel);
    var x, y := Calculate(env, c, c.init, d + 1, Normal, a, fuel), Calculate(env, c, c.init, d + 1, Normal, b, fuel);
    if x.Some? {
      SameTurns(env, c, d, SUCCESS, x.value, y.value, fuel);
    }
  }

  lemma {:induction false} SameTurns(env: Env, c: Command, d: nat, status: int, v: Value, u: Value, fuel: nat)
    requires Blind(env) && c.ArithFor? && Within(v.signal, d + 1) && SameValue(Some(v), Some(u))
    ensures SameBut(Turns(env, c, d, status, v, fuel), Turns(env, c, d, status, u, fuel))
    decreases fuel, c, false, 1
  {
    hide Meaning, Calculate, Blind, AfterBody;
    if v.ok {
      SameCalculate(env, c, c.arith, d + 1, v.signal, v.w, u.w, fuel);
      var t := Calculate(env, c, c.arith, d + 1, v.signal, v.w, fuel);
      var s := Calculate(env, c, c.arith, d + 1, u.signal, u.w, fuel);
      if t.Some? && RunsBody(t.value, d) {
        SameMeaning(env, c.body, d + 1, t.value.w, s.value.w, fuel);
        var x, y := Meaning(env, c.body, d + 1, t.value.w, fuel), Meaning(env, c.body, d + 1, s.value.w, fuel);
        if x.Some? {
          SameAfter(env, c, d, x.value, y.value, fuel);
        }
      }
    }
  }

  lemma {:induction false} SameAfter(env: Env, c: Command, d: nat, x: Result, y: Result, fuel: nat)
    requires Blind(env) && c.ArithFor? && Within(x.signal, d + 1) && Same(Some(x), Some(y))
    ensures SameBut(AfterBody(env, c, d, x, fuel), AfterBody(env, c, d, y, fuel))
    decreases fuel, c, false, 0, 2
  {
    hide Calculate, Blind, Turns;
    if GoesOn(x.signal, d) {
      SameCalculate(env, c, c.step, d + 1, Normal, x.w, y.w, fuel);
      var s := Calculate(env, c, c.step, d + 1, Normal, x.w, fuel);
      var t := Calculate(env, c, c.step, d + 1, Normal, y.w, fuel);
      if s.Some? && fuel > 0 {
        SameTurns(env, c, d, x.status, s.value, t.value, fuel - 1);
      }
    }
  }

  lemma {:induction false} SameCase(env: Env, c: Command, d: nat, a: World, b: World, fuel: nat)
    requires Blind(env) && a.trace == b.trace && c.Case?
    ensures SameBut(Inner(env, c, d, a, fuel), Inner(env, c, d, b, fuel))
    decreases fuel, c, true, 0
  {
    hide Meaning, Substitute, Blind, Pick;
    SameWords(env, c, c.words, d, Normal, a, b, fuel);
    var x, y := Substitute(env, c, c.words, d, Normal, a, fuel), Substitute(env, c, c.words, d, Normal, b, fuel);
    if x.Some? {
      SamePick(env, c, d, 0, SUCCESS, x.value.s, Saw(x.value.w, Expanded(c.id)), Saw(y.value.w, Expanded(c.id)), fuel);
    }
  }

  lemma {:induction false} SameTry(env: Env, c: Command, d: nat, i: nat, j: nat, s: Signal, a: World, b: World,
      fuel: nat)
    requires Blind(env) && Alike(s, a, b) && c.Case? && i < |c.clauses| && j <= |c.clauses[i].patterns| && Within(s, d)
    ensures SameTrial(Try(env, c, d, i, j, s, a, fuel), Try(env, c, d, i, j, s, b, fuel))
    decreases fuel, c, false, |c.clauses| - i, 1, |c.clauses[i].patterns| - j
  {
    hide Substitute, Blind;
    if j < |c.clauses[i].patterns| {
      var p := c.clauses[i].patterns[j];
      SameWords(env, c, p.prelude, d, s, a, b, fuel);
      var x, y := Substitute(env, c, p.prelude, d, s, a, fuel), Substitute(env, c, p.prelude, d, s, b, fuel);
      if x.Some? {
        BlindTo(env, x.value.w, y.value.w);
        SameTry(env, c, d, i, j + 1, x.value.s, Saw(x.value.w, Tested(p.id)), Saw(y.value.w, Tested(p.id)), fuel);
      }
    }
  }

  lemma {:induction false} SamePick(env: Env, c: Command, d: nat, i: nat, status: int, s: Signal, a: World, b: World,
      fuel: nat)
    requires Blind(env) && Alike(s, a, b) && c.Case? && i <= |c.clauses| && Within(s, d)
    ensures SameBut(Pick(env, c, d, i, status, s, a, fuel), Pick(env, c, d, i, status, s, b, fuel))
    decreases fuel, c, false, |c.clauses| - i, 2
  {
    hide Try, Act, Blind;
    if i < |c.clauses| {
      SameTry(env, c, d, i, 0, s, a, b, fuel);
      var t, u := Try(env, c, d, i, 0, s, a, fuel), Try(env, c, d, i, 0, s, b, fuel);
      if t.Some? && t.value.hit {
        SameAct(env, c, d, i, t.value.s, t.value.w, u.value.w, fuel);
      } else if t.Some? {
        SamePick(env, c, d, i + 1, status, t.value.s, t.value.w, u.value.w, fuel);
      }
    }
  }

  lemma {:induction false} SameAct(env: Env, c: Command, d: nat, i: nat, s: Signal, a: World, b: World, fuel: nat)
    requires Blind(env) && Alike(s, a, b) && c.Case? && i < |c.clauses| && Within(s, d)
    ensures SameBut(Act(env, c, d, i, s, a, fuel), Act(env, c, d, i, s, b, fuel))
    decreases fuel, c, false, |c.clauses| - i, 0
  {
    hide Meaning, Pick, Blind;
    var k := c.clauses[i];
    SameMeaning(env, k.action, d, a, b, fuel);
    var x := if s != Normal then Some(Result(a.last, s, a)) else Meaning(env, k.action, d, a, fuel);
    var y := if s != Normal then Some(Result(b.last, s, b)) else Meaning(env, k.action, d, b, fuel);
    if x.Some? {
      match k.end
      case Stop =>
      case Fall =>
        if i + 1 < |c.clauses| {
          SameAct(env, c, d, i + 1, x.value.signal, x.value.w, y.value.w, fuel);
        }
      case Next => SamePick(env, c, d, i + 1, x.value.status, x.value.signal, x.value.w, y.value.w, fuel);
    }
  }
}
