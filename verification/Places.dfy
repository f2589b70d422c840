/** Where an execution can be: a command about to run with what has happened so far, or a loop or `case` on its way, and
    what comes next from there. */
module Places {
  import opened Options
  import opened Commands

  /** A command about to run, or a loop or `case` on its way: `d` loops are around it. */
  datatype Place =
    | At(c: Command, d: nat, w: World, fuel: nat)
    | InRounds(c: Command, d: nat, status: int, w: World, fuel: nat)
    | InList(c: Command, d: nat, k: nat, n: nat, status: int, w: World, fuel: nat)
    | InTurns(c: Command, d: nat, status: int, v: Value, fuel: nat)
    | InStep(c: Command, d: nat, b: Result, fuel: nat)
    | InTests(c: Command, d: nat, i: nat, j: nat, status: int, w: World, fuel: nat)
    | InClause(c: Command, d: nat, i: nat, w: World, fuel: nat)

  predicate IsPlace(p: Place) {
    match p
    case At(_, _, _, _) => true
    case InRounds(c, _, _, _, _) => c.Repeat?
    case InList(c, _, k, n, _, _, _) => c.For? && k <= n
    case InTurns(c, d, _, v, _) => c.ArithFor? && Within(v.signal, d + 1)
    case InStep(c, d, b, _) => c.ArithFor? && GoesOn(b.signal, d)
    case InTests(c, _, i, j, _, _, _) => c.Case? && i < |c.clauses| && j <= |c.clauses[i].patterns|
    case InClause(c, _, i, _, _) => c.Case? && i < |c.clauses|
  }

  /** A loop, before or during its rounds. */
  predicate IsLoop(p: Place) {
    IsPlace(p) && (p.c.Repeat? || p.c.For? || p.c.ArithFor?)
  }

  /** What comes of the execution from a place on. */
  function Outcome(env: Env, p: Place): (o: Option<Result>)
    requires IsPlace(p)
    ensures o.Some? ==> Within(o.value.signal, p.d)
  {
    match p
    case At(c, d, w, fuel) => Meaning(env, c, d, w, fuel)
    case InRounds(c, d, status, w, fuel) => Rounds(env, c, d, status, w, fuel)
    case InList(c, d, k, n, status, w, fuel) => Each(env, c, d, k, n, status, Normal, w, fuel)
    case InTurns(c, d, status, v, fuel) => Turns(env, c, d, status, v, fuel)
    case InStep(c, d, b, fuel) => AfterBody(env, c, d, b, fuel)
    case InTests(c, d, i, j, status, w, fuel) =>
      Tried(env, c, d, i, status, Try(env, c, d, i, j, Normal, w, fuel), fuel)
    case InClause(c, d, i, w, fuel) => Act(env, c, d, i, Normal, w, fuel)
  }

  // ---------------------------------------------------------------- what comes next

  /** A command ends without a signal, in this result. */
  predicate Ends(env: Env, c: Command, d: nat, w: World, fuel: nat, r: Result) {
    Meaning(env, c, d, w, fuel) == Some(r) && r.signal == Normal
  }

  /** The commands in an expansion end without a signal, in this world. */
  predicate Expands(env: Env, p: Command, d: nat, w: World, fuel: nat, x: World) {
    var o := Meaning(env, p, d, w, fuel);
    o.Some? && o.value.signal == Normal && o.value.w == x
  }

  /** The test of a loop has let its body run. */
  predicate BodyStarts(env: Env, c: Command, d: nat, w: World, fuel: nat, t: Result)
    requires c.Repeat?
  {
    Ends(env, c.test, d + 1, w, fuel, t) && (t.status == SUCCESS) != c.until
  }

  /** A round has ended in this result, of its body or of a test that keeps the body from running. */
  predicate RoundEnds(env: Env, c: Command, d: nat, w: World, fuel: nat, b: Result)
    requires c.Repeat?
  {
    var o := Meaning(env, c.test, d + 1, w, fuel);
    && o.Some? && (o.value.status == SUCCESS) != c.until
    && if o.value.signal != Normal then b == o.value else Meaning(env, c.body, d + 1, o.value.w, fuel) == Some(b)
  }

  /** The test of an arithmetic loop has let its body run. */
  predicate TestRuns(env: Env, c: Command, d: nat, v: Value, fuel: nat, t: Value)
    requires c.ArithFor? && Within(v.signal, d + 1)
  {
    v.ok && Calculate(env, c, c.arith, d + 1, v.signal, v.w, fuel) == Some(t) && RunsBody(t, d)
  }

  /** The execution comes from one place to the other next: into a first part, into a second part after the first has
      ended, into a round of a loop, or on to the next round. */
  ghost predicate Leads(env: Env, p: Place, q: Place)
    requires IsPlace(p)
  {
    match p
    case At(c, d, w, fuel) => CommandLeads(env, c, d, w, fuel, q)
    case InRounds(c, d, _, w, fuel) =>
      || q == At(c.test, d + 1, w, fuel)
      || (exists t :: BodyStarts(env, c, d, w, fuel, t) && q == At(c.body, d + 1, t.w, fuel))
      || (exists b :: RoundEnds(env, c, d, w, fuel, b) && GoesOn(b.signal, d) && fuel > 0
            && q == InRounds(c, d, b.status, b.w, fuel - 1))
    case InList(c, d, k, n, _, w, fuel) =>
      && k < n && env.bind(c.id, k, w)
      && (|| q == At(c.body, d + 1, Saw(w, Bound(c.id, k)), fuel)
          || exists b :: Meaning(env, c.body, d + 1, Saw(w, Bound(c.id, k)), fuel) == Some(b) && GoesOn(b.signal, d)
               && q == InList(c, d, k + 1, n, b.status, b.w, fuel))
    case InTurns(c, d, _, v, fuel) => TurnLeads(env, c, d, v, fuel, q)
    case InStep(c, d, b, fuel) =>
      && fuel > 0
      && (|| q == At(c.step.prelude, d + 1, b.w, fuel)
          || exists s :: Calculate(env, c, c.step, d + 1, Normal, b.w, fuel) == Some(s)
               && q == InTurns(c, d, b.status, s, fuel - 1))
    case InTests(c, d, i, j, status, w, fuel) => TestLeads(env, c, d, i, j, status, w, fuel, q)
    case InClause(c, d, i, w, fuel) =>
      || q == At(c.clauses[i].action, d, w, fuel)
      || exists r :: Ends(env, c.clauses[i].action, d, w, fuel, r) && i + 1 < |c.clauses| &&
           match c.clauses[i].end
           case Stop => false
           case Fall => q == InClause(c, d, i + 1, r.w, fuel)
           case Next => q == InTests(c, d, i + 1, 0, r.status, r.w, fuel)
  }

  /** An arithmetic loop runs its test, its body or its third expression next. */
  ghost predicate TurnLeads(env: Env, c: Command, d: nat, v: Value, fuel: nat, q: Place)
    requires c.ArithFor? && Within(v.signal, d + 1)
  {
    || (v.ok && v.signal == Normal && q == At(c.arith.prelude, d + 1, v.w, fuel))
    || exists t :: TestRuns(env, c, d, v, fuel, t) &&
         (|| q == At(c.body, d + 1, t.w, fuel)
          || exists b :: Meaning(env, c.body, d + 1, t.w, fuel) == Some(b) && GoesOn(b.signal, d)
               && q == InStep(c, d, b, fuel))
  }

  /** A `case` comes to its next pattern or clause. */
  ghost predicate TestLeads(env: Env, c: Command, d: nat, i: nat, j: nat, status: int, w: World, fuel: nat, q: Place)
    requires c.Case? && i < |c.clauses| && j <= |c.clauses[i].patterns|
  {
    if j == |c.clauses[i].patterns| then i + 1 < |c.clauses| && q == InTests(c, d, i + 1, 0, status, w, fuel)
    else
      var p := c.clauses[i].patterns[j];
      || q == At(p.prelude, d, w, fuel)
      || exists x :: Expands(env, p.prelude, d, w, fuel, x) &&
           var y := Saw(x, Tested(p.id));
           q == if env.matches(p.id, x) then InClause(c, d, i, y, fuel) else InTests(c, d, i, j + 1, status, y, fuel)
  }

  ghost predicate CommandLeads(env: Env, c: Command, d: nat, w: World, fuel: nat, q: Place) {
    match c
    case Simple(words, _) => q == At(words, d, w, fuel)
    case Calc(a) => q == At(a.prelude, d, w, fuel)
    case Call(words, f) =>
      || q == At(words, d, w, fuel)
      || exists x :: Expands(env, words, d, w, fuel, x) && f in env.funcs && fuel > 0
           && q == At(env.funcs[f], 0, x, fuel - 1)
    case Not(a) => q == At(a, d, w, fuel)
    case Then(a, b) => q == At(a, d, w, fuel) || exists r :: Ends(env, a, d, w, fuel, r) && q == At(b, d, r.w, fuel)
    case And(a, b) =>
      || q == At(a, d, w, fuel)
      || exists r :: Ends(env, a, d, w, fuel, r) && r.status == SUCCESS && q == At(b, d, r.w, fuel)
    case Or(a, b) =>
      || q == At(a, d, w, fuel)
      || exists r :: Ends(env, a, d, w, fuel, r) && r.status != SUCCESS && q == At(b, d, r.w, fuel)
    case If(t, y, n) =>
      || q == At(t, d, w, fuel)
      || exists r :: Ends(env, t, d, w, fuel, r) && q == At(if r.status == SUCCESS then y else n, d, r.w, fuel)
    case Repeat(_, _, _) => q == InRounds(c, d, SUCCESS, w, fuel)
    case For(_, _, _) => ListLeads(env, c, d, w, fuel, q)
    case ArithFor(init, _, _, _) =>
      || q == At(init.prelude, d + 1, w, fuel)
      || exists v :: Calculate(env, c, init, d + 1, Normal, w, fuel) == Some(v) && q == InTurns(c, d, SUCCESS, v, fuel)
    case Case(words, id, _) =>
      || q == At(words, d, w, fuel)
      || exists x :: Expands(env, words, d, w, fuel, x) && c.clauses != []
           && q == InTests(c, d, 0, 0, SUCCESS, Saw(x, Expanded(id)), fuel)
    case _ => false
  }

  /** A `for` loop expands its list, and comes to its first word, or to its second if the list has continued the
      loop. */
  ghost predicate ListLeads(env: Env, c: Command, d: nat, w: World, fuel: nat, q: Place)
    requires c.For?
  {
    && env.named(c.id, w)
    && (|| q == At(c.words, d + 1, Saw(w, Named(c.id)), fuel)
        || exists x :: Substitute(env, c, c.words, d + 1, Normal, Saw(w, Named(c.id)), fuel) == Some(x) &&
             var n, y := env.words(c.id, x.w), Saw(x.w, Expanded(c.id));
             var z := Saw(y, Bound(c.id, 0));
             || (x.s == Normal && q == InList(c, d, 0, n, SUCCESS, y, fuel))
             || (x.s == Resume(d) && n > 0 && env.bind(c.id, 0, y) && q == InList(c, d, 1, n, z.last, z, fuel)))
  }

  /** The step goes into the body of a function. */
  predicate IsCall(p: Place, q: Place) {
    p.At? && p.c.Call? && q.fuel < p.fuel
  }

  /** A run of places. */
  ghost predicate IsRun(env: Env, ps: seq<Place>) {
    && ps != []
    && (forall i :: 0 <= i < |ps| ==> IsPlace(ps[i]))
    && forall i :: 0 <= i < |ps| - 1 ==> Leads(env, ps[i], ps[i + 1])
  }
}
