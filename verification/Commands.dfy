/** The control structures of the shell and what they mean: commands end normally or with a signal that names the loop
    to leave or to resume. Loops are numbered from the outside of the function they are in. */
module Commands {
  import opened Options

  const SUCCESS := 0
  const FAILURE := 1

  datatype Terminator = Stop | Fall | Next

  /** The words of a command, an arithmetic text, and a pattern may hold commands that are run in the same shell while
      they are expanded. They come first in a command that has them, `Null` if there are none; the number stands for the
      rest. */
  datatype Command =
    | Null
    | Simple(words: Command, id: nat)
    | Calc(a: Arith)
    | Break(n: int)
    | Continue(n: int)
    | Not(c: Command)
    | Then(first: Command, second: Command)
    | And(first: Command, second: Command)
    | Or(first: Command, second: Command)
    | If(test: Command, yes: Command, no: Command)
    | Repeat(until: bool, test: Command, body: Command)
    | For(words: Command, id: nat, body: Command)
    | ArithFor(init: Arith, arith: Arith, step: Arith, body: Command)
    | Case(words: Command, id: nat, clauses: seq<Clause>)
    | Call(words: Command, f: nat)

  datatype Arith = Arith(prelude: Command, id: nat)

  datatype Pattern = Pattern(prelude: Command, id: nat)

  datatype Clause = Clause(patterns: seq<Pattern>, action: Command, end: Terminator)

  datatype Event =
    | Ran(id: nat)
    | Named(id: nat)
    | Expanded(id: nat)
    | Bound(id: nat, k: nat)
    | Calculated(id: nat)
    | Tested(id: nat)

  /** What has happened so far, and the last exit status. */
  datatype World = World(trace: seq<Event>, last: int)

  /** Everything outside the control structures; each answer may depend on all that has happened before. */
  datatype Env = Env(
    run: (nat, World) -> int,
    named: (nat, World) -> bool,
    words: (nat, World) -> nat,
    bind: (nat, nat, World) -> bool,
    ok: (nat, World) -> bool,
    nonzero: (nat, World) -> bool,
    matches: (nat, World) -> bool,
    funcs: map<nat, Command>)

  function Saw(w: World, e: Event): World {
    w.(trace := w.trace + [e])
  }

  datatype Signal = Normal | Leave(loop: int) | Resume(loop: int)

  /** The signal is for one of the loops around. */
  predicate Within(s: Signal, d: int) {
    s != Normal ==> s.loop < d
  }

  datatype Result = Result(status: int, signal: Signal, w: World)

  /** A command that is done leaves its status behind. */
  function Finish(r: Result): Result {
    r.(w := r.w.(last := r.status))
  }

  function Ended(o: Option<Result>): Option<Result> {
    match o
    case None => None
    case Some(r) => Some(Finish(r))
  }

  /** `break n` among `d` loops: the n-th enclosing loop, at most the outermost; all of them when n is out of range. */
  function Broken(n: int, d: nat): Signal {
    if d == 0 then Normal else if 0 < n < d then Leave(d - n) else Leave(0)
  }

  function Continued(n: int, d: nat): Signal {
    if d == 0 then Normal else if n <= 0 then Leave(0) else if n < d then Resume(d - n) else Resume(0)
  }

  function CountStatus(n: int, d: nat): int {
    if d > 0 && n <= 0 then FAILURE else SUCCESS
  }

  /** What a loop with number `d` makes of a signal: it takes its own. */
  function Caught(s: Signal, d: nat): Signal {
    if s != Normal && s.loop == d then Normal else s
  }

  predicate GoesOn(s: Signal, d: nat) {
    s == Normal || s == Resume(d)
  }

  /** A loop that ends without looking at a pending signal leaves the counters as they are; they then count from one
      loop further out. */
  function Slipped(s: Signal): Signal {
    match s
    case Normal => Normal
    case Leave(t) => Leave(t - 1)
    case Resume(t) => Resume(t - 1)
  }

  /** A signal that comes out of a function called among `d` loops. */
  function Outward(s: Signal, d: nat): Signal {
    match s
    case Normal => Normal
    case Leave(t) => Leave(t + d)
    case Resume(t) => Resume(t + d)
  }

  function Inverted(r: Result): Result {
    r.(status := if r.status == SUCCESS then FAILURE else SUCCESS)
  }

  /** What a command does among `d` loops. `None`: it takes more than `fuel` rounds of a loop or nested calls. */
  function Meaning(env: Env, c: Command, d: nat, w: World, fuel: nat): (o: Option<Result>)
    ensures o.Some? ==> Within(o.value.signal, d) && w.trace <= o.value.w.trace
    ensures o.Some? && o.value.signal != Normal ==> o.value.w.last == o.value.status
    decreases fuel, c
  {
    if c == Null then Some(Result(SUCCESS, Normal, w)) else Ended(Inner(env, c, d, w, fuel))
  }

  /** The signal that is pending after an expansion. */
  datatype Pending = Pending(s: Signal, w: World)

  /** The commands substituted in an expansion; they are skipped while a signal is pending. */
  function Substitute(env: Env, c: Command, p: Command, d: nat, s: Signal, w: World, fuel: nat): (o: Option<Pending>)
    requires p < c && Within(s, d)
    ensures o.Some? ==> Within(o.value.s, d) && w.trace <= o.value.w.trace
    decreases fuel, c, false, 0, 0
  {
    if s != Normal then Some(Pending(s, w))
    else
      match Meaning(env, p, d, w, fuel)
      case None => None
      case Some(r) => Some(Pending(r.signal, r.w))
  }

  /** The meaning before the status is left behind. What has its words expanded goes on even if that raised a signal;
      only the body of a function does not run then. */
  function Inner(env: Env, c: Command, d: nat, w: World, fuel: nat): (o: Option<Result>)
    requires c != Null
    ensures o.Some? ==> Within(o.value.signal, d) && w.trace <= o.value.w.trace
    decreases fuel, c, true
  {
    match c
    case Simple(words, id) =>
      (match Substitute(env, c, words, d, Normal, w, fuel)
       case None => None
       case Some(p) => Some(Result(env.run(id, p.w), p.s, Saw(p.w, Ran(id)))))
    case Calc(a) =>
      (match Substitute(env, c, a.prelude, d, Normal, w, fuel)
       case None => None
       case Some(p) => Some(Calculation(env, a, p).Outcome()))
    case Break(n) => Some(Result(CountStatus(n, d), Broken(n, d), w))
    case Continue(n) => Some(Result(CountStatus(n, d), Continued(n, d), w))
    case Not(a) =>
      (match Meaning(env, a, d, w, fuel)
       case None => None
       case Some(r) => Some(Inverted(r)))
    case Then(a, b) =>
      (match Meaning(env, a, d, w, fuel)
       case None => None
       case Some(r) => if r.signal != Normal then Some(r) else Meaning(env, b, d, r.w, fuel))
    case And(a, b) =>
      (match Meaning(env, a, d, w, fuel)
       case None => None
       case Some(r) =>
         if r.signal != Normal || r.status != SUCCESS then Some(r) else Meaning(env, b, d, r.w, fuel))
    case Or(a, b) =>
      (match Meaning(env, a, d, w, fuel)
       case None => None
       case Some(r) =>
         if r.signal != Normal || r.status == SUCCESS then Some(r) else Meaning(env, b, d, r.w, fuel))
    case If(t, y, n) =>
      (match Meaning(env, t, d, w, fuel)
       case None => None
       case Some(r) =>
         if r.signal != Normal then Some(r)
         else if r.status == SUCCESS then Meaning(env, y, d, r.w, fuel)
         else Meaning(env, n, d, r.w, fuel))
    case Repeat(_, _, _) => Rounds(env, c, d, SUCCESS, w, fuel)
    case For(words, id, _) =>
      var w1 := Saw(w, Named(id));
      if !env.named(id, w) then Some(Result(FAILURE, Normal, w1))
      else
        (match Substitute(env, c, words, d + 1, Normal, w1, fuel)
         case None => None
         case Some(p) => Each(env, c, d, 0, env.words(id, p.w), SUCCESS, p.s, Saw(p.w, Expanded(id)), fuel))
    case ArithFor(init, _, _, _) =>
      (match Calculate(env, c, init, d + 1, Normal, w, fuel)
       case None => None
       case Some(v) => Turns(env, c, d, SUCCESS, v, fuel))
    case Case(word, id, _) =>
      (match Substitute(env, c, word, d, Normal, w, fuel)
       case None => None
       case Some(p) => Pick(env, c, d, 0, SUCCESS, p.s, Saw(p.w, Expanded(id)), fuel))
    case Call(words, f) =>
      match Substitute(env, c, words, d, Normal, w, fuel)
      case None => None
      case Some(p) =>
        if f !in env.funcs then Some(Result(env.run(f, p.w), p.s, Saw(p.w, Ran(f))))
        else if p.s != Normal then Some(Result(p.w.last, p.s, p.w))
        else if fuel == 0 then None
        else
          match Meaning(env, env.funcs[f], 0, p.w, fuel - 1)
          case None => None
          case Some(r) => Some(r.(signal := Outward(r.signal, d)))
  }

  /** The rounds of a `while` or `until` loop with number `d`. A signal raised in the test keeps the body from running.
      When the test ends the loop, a signal for this loop is used up, whichever it is. */
  function Rounds(env: Env, c: Command, d: nat, status: int, w: World, fuel: nat): (o: Option<Result>)
    requires c.Repeat?
    ensures o.Some? ==> Within(o.value.signal, d) && w.trace <= o.value.w.trace
    decreases fuel, c, false, 1
  {
    match Meaning(env, c.test, d + 1, w, fuel)
    case None => None
    case Some(t) =>
      if (t.status == SUCCESS) == c.until then Some(Result(status, Caught(t.signal, d), t.w))
      else if t.signal != Normal then NextRound(env, c, d, t, fuel)
      else
        match Meaning(env, c.body, d + 1, t.w, fuel)
        case None => None
        case Some(b) => NextRound(env, c, d, b, fuel)
  }

  function NextRound(env: Env, c: Command, d: nat, b: Result, fuel: nat): (o: Option<Result>)
    requires c.Repeat? && Within(b.signal, d + 1)
    ensures o.Some? ==> Within(o.value.signal, d) && b.w.trace <= o.value.w.trace
    decreases fuel, c, false, 0
  {
    if !GoesOn(b.signal, d) then Some(Result(b.status, Caught(b.signal, d), b.w))
    else if fuel == 0 then None
    else Rounds(env, c, d, b.status, b.w, fuel - 1)
  }

  /** A `for` loop from its k-th word on. A word that cannot be assigned ends the loop; so does the end of the list. In
      both cases a signal raised by the expansion of the list has not been looked at. */
  function Each(env: Env, c: Command, d: nat, k: nat, n: nat, status: int, s: Signal, w: World, fuel: nat):
      (o: Option<Result>)
    requires c.For? && k <= n && Within(s, d + 1)
    ensures o.Some? ==> Within(o.value.signal, d) && w.trace <= o.value.w.trace
    decreases fuel, c, false, n - k
  {
    if k == n then Some(Result(status, Slipped(s), w))
    else
      var w1 := Saw(w, Bound(c.id, k));
      if !env.bind(c.id, k, w) then Some(Result(FAILURE, Slipped(s), w1))
      else
        match if s != Normal then Some(Result(w1.last, s, w1)) else Meaning(env, c.body, d + 1, w1, fuel)
        case None => None
        case Some(b) =>
          if GoesOn(b.signal, d) then Each(env, c, d, k + 1, n, b.status, Normal, b.w, fuel)
          else Some(Result(b.status, Caught(b.signal, d), b.w))
  }

  /** The value of an expression: whether it could be calculated, whether it is not zero, and what signal is pending. */
  datatype Value = Value(ok: bool, nonzero: bool, signal: Signal, w: World) {
    /** The same as the result of a command. */
    function Outcome(): Result {
      Result(if ok && nonzero then SUCCESS else FAILURE, signal, w)
    }
  }

  /** An expression is calculated even while a signal is pending; only its commands are skipped then. */
  function Calculate(env: Env, c: Command, a: Arith, d: nat, s: Signal, w: World, fuel: nat): (o: Option<Value>)
    requires c.ArithFor? && (a == c.init || a == c.arith || a == c.step) && Within(s, d)
    ensures o.Some? ==> Within(o.value.signal, d) && w.trace <= o.value.w.trace
    decreases fuel, c, false, 0, 1
  {
    match Substitute(env, c, a.prelude, d, s, w, fuel)
    case None => None
    case Some(p) => Some(Calculation(env, a, p))
  }

  function Calculation(env: Env, a: Arith, p: Pending): Value {
    Value(env.ok(a.id, p.w), env.nonzero(a.id, p.w), p.s, Saw(p.w, Calculated(a.id)))
  }

  /** The rounds of an arithmetic loop after its first or third expression was calculated. When that failed, a pending
      signal is not looked at. */
  function Turns(env: Env, c: Command, d: nat, status: int, v: Value, fuel: nat): (o: Option<Result>)
    requires c.ArithFor? && Within(v.signal, d + 1)
    ensures o.Some? ==> Within(o.value.signal, d) && v.w.trace <= o.value.w.trace
    decreases fuel, c, false, 1
  {
    if !v.ok then Some(Result(FAILURE, Slipped(v.signal), v.w))
    else
      match Calculate(env, c, c.arith, d + 1, v.signal, v.w, fuel)
      case None => None
      case Some(t) =>
        if !RunsBody(t, d) then Some(Result(if t.ok then status else FAILURE, Caught(t.signal, d), t.w))
        else
          match Meaning(env, c.body, d + 1, t.w, fuel)
          case None => None
          case Some(b) => AfterBody(env, c, d, b, fuel)
  }

  /** The test of an arithmetic loop lets the body run; a signal to resume this loop is used up. */
  predicate RunsBody(t: Value, d: nat) {
    GoesOn(t.signal, d) && t.ok && t.nonzero
  }

  /** A round of an arithmetic loop from the end of its body on. */
  function AfterBody(env: Env, c: Command, d: nat, b: Result, fuel: nat): (o: Option<Result>)
    requires c.ArithFor? && Within(b.signal, d + 1)
    ensures o.Some? ==> Within(o.value.signal, d) && b.w.trace <= o.value.w.trace
    decreases fuel, c, false, 0, 2
  {
    if !GoesOn(b.signal, d) then Some(Result(b.status, Caught(b.signal, d), b.w))
    else
      match Calculate(env, c, c.step, d + 1, Normal, b.w, fuel)
      case None => None
      case Some(s) => if fuel == 0 then None else Turns(env, c, d, b.status, s, fuel - 1)
  }

  lemma MeaningIsInner(env: Env, c: Command, d: nat, w: World, fuel: nat)
    requires c != Null
    ensures Meaning(env, c, d, w, fuel) == Ended(Inner(env, c, d, w, fuel))
  {
    hide Inner;
  }

  lemma NullMeans(env: Env, d: nat, w: World, fuel: nat)
    ensures Meaning(env, Null, d, w, fuel) == Some(Result(SUCCESS, Normal, w))
  {
  }

  lemma BreakMeans(env: Env, n: int, d: nat, w: World, fuel: nat)
    ensures Meaning(env, Break(n), d, w, fuel)
         == Some(Result(CountStatus(n, d), Broken(n, d), w.(last := CountStatus(n, d))))
  {
    assert Inner(env, Break(n), d, w, fuel) == Some(Result(CountStatus(n, d), Broken(n, d), w));
  }

  lemma ContinueMeans(env: Env, n: nat, d: nat, w: World, fuel: nat)
    requires n >= 1
    ensures Meaning(env, Continue(n), d, w, fuel) == Some(Result(SUCCESS, Continued(n, d), w.(last := SUCCESS)))
  {
    assert Inner(env, Continue(n), d, w, fuel) == Some(Result(SUCCESS, Continued(n, d), w));
  }

  lemma NotMeans(env: Env, a: Command, d: nat, w: World, fuel: nat)
    requires Meaning(env, a, d, w, fuel).Some?
    ensures Meaning(env, Not(a), d, w, fuel) == Some(Finish(Inverted(Meaning(env, a, d, w, fuel).value)))
  {
    assert Inner(env, Not(a), d, w, fuel) == Some(Inverted(Meaning(env, a, d, w, fuel).value));
  }

  lemma ThenMeans(env: Env, a: Command, b: Command, d: nat, w: World, fuel: nat)
    ensures Meaning(env, Then(a, b), d, w, fuel) ==
            match Meaning(env, a, d, w, fuel)
            case None => None
            case Some(r) =>
              if r.signal != Normal then Some(r) else Ended(Meaning(env, b, d, r.w, fuel))
  {
    var o := Meaning(env, a, d, w, fuel);
    if o.Some? && o.value.signal != Normal {
      assert Inner(env, Then(a, b), d, w, fuel) == o;
      assert Finish(o.value) == o.value;
    }
  }

  function NextTurn(env: Env, c: Command, d: nat, status: int, v: Value, fuel: nat): Option<Result>
    requires c.ArithFor? && Within(v.signal, d + 1)
  {
    if fuel == 0 then None else Turns(env, c, d, status, v, fuel - 1)
  }

  lemma TurnTested(env: Env, c: Command, d: nat, status: int, v: Value, fuel: nat, t: Value)
    requires c.ArithFor? && v.ok && Within(v.signal, d + 1)
    requires Calculate(env, c, c.arith, d + 1, v.signal, v.w, fuel) == Some(t)
    ensures Turns(env, c, d, status, v, fuel) ==
            if !RunsBody(t, d) then Some(Result(if t.ok then status else FAILURE, Caught(t.signal, d), t.w))
            else
              var b := Meaning(env, c.body, d + 1, t.w, fuel);
              if b.None? then None else AfterBody(env, c, d, b.value, fuel)
  {
    hide Meaning;
  }

  lemma TurnStuck(env: Env, c: Command, d: nat, status: int, v: Value, fuel: nat)
    requires c.ArithFor? && v.ok && Within(v.signal, d + 1)
    requires Calculate(env, c, c.arith, d + 1, v.signal, v.w, fuel) == None
    ensures Turns(env, c, d, status, v, fuel) == None
  {
  }

  lemma TurnFails(env: Env, c: Command, d: nat, status: int, v: Value, fuel: nat)
    requires c.ArithFor? && !v.ok && Within(v.signal, d + 1)
    ensures Turns(env, c, d, status, v, fuel) == Some(Result(FAILURE, Slipped(v.signal), v.w))
  {
  }

  /** Whether a pattern of a clause matched, and the signal pending. */
  datatype Trial = Trial(hit: bool, s: Signal, w: World)

  /** The patterns of the i-th clause from the j-th on, tried in order up to the first that matches. */
  function Try(env: Env, c: Command, d: nat, i: nat, j: nat, s: Signal, w: World, fuel: nat): (o: Option<Trial>)
    requires c.Case? && i < |c.clauses| && j <= |c.clauses[i].patterns| && Within(s, d)
    ensures o.Some? ==> Within(o.value.s, d) && w.trace <= o.value.w.trace
    decreases fuel, c, false, |c.clauses| - i, 1, |c.clauses[i].patterns| - j
  {
    if j == |c.clauses[i].patterns| then Some(Trial(false, s, w))
    else
      var p := c.clauses[i].patterns[j];
      match Substitute(env, c, p.prelude, d, s, w, fuel)
      case None => None
      case Some(q) =>
        var w1 := Saw(q.w, Tested(p.id));
        if env.matches(p.id, q.w) then Some(Trial(true, q.s, w1)) else Try(env, c, d, i, j + 1, q.s, w1, fuel)
  }

  /** The clauses of a `case` from the i-th on, while they are tested. */
  function Pick(env: Env, c: Command, d: nat, i: nat, status: int, s: Signal, w: World, fuel: nat): (o: Option<Result>)
    requires c.Case? && i <= |c.clauses| && Within(s, d)
    ensures o.Some? ==> Within(o.value.signal, d) && w.trace <= o.value.w.trace
    decreases fuel, c, false, |c.clauses| - i, 2
  {
    if i == |c.clauses| then Some(Result(status, s, w))
    else
      match Try(env, c, d, i, 0, s, w, fuel)
      case None => None
      case Some(t) =>
        if t.hit then Act(env, c, d, i, t.s, t.w, fuel) else Pick(env, c, d, i + 1, status, t.s, t.w, fuel)
  }

  /** The i-th clause runs, unless a signal is pending; then `;&` runs the next clause untested, `;;&` goes on testing,
      and `;;` ends the command. */
  function Act(env: Env, c: Command, d: nat, i: nat, s: Signal, w: World, fuel: nat): (o: Option<Result>)
    requires c.Case? && i < |c.clauses| && Within(s, d)
    ensures o.Some? ==> Within(o.value.signal, d) && w.trace <= o.value.w.trace
    decreases fuel, c, false, |c.clauses| - i, 0
  {
    match if s != Normal then Some(Result(w.last, s, w)) else Meaning(env, c.clauses[i].action, d, w, fuel)
    case None => None
    case Some(r) =>
      match c.clauses[i].end
      case Stop => Some(r)
      case Fall => if i + 1 < |c.clauses| then Act(env, c, d, i + 1, r.signal, r.w, fuel) else Some(r)
      case Next => Pick(env, c, d, i + 1, r.status, r.signal, r.w, fuel)
  }

  lemma EachOne(env: Env, c: Command, d: nat, k: nat, n: nat, status: int, s: Signal, w: World, fuel: nat)
    requires c.For? && k < n && Within(s, d + 1)
    ensures var w1 := Saw(w, Bound(c.id, k));
            Each(env, c, d, k, n, status, s, w, fuel) ==
            if !env.bind(c.id, k, w) then Some(Result(FAILURE, Slipped(s), w1))
            else
              match if s != Normal then Some(Result(w1.last, s, w1)) else Meaning(env, c.body, d + 1, w1, fuel)
              case None => None
              case Some(b) =>
                if GoesOn(b.signal, d) then Each(env, c, d, k + 1, n, b.status, Normal, b.w, fuel)
                else Some(Result(b.status, Caught(b.signal, d), b.w))
  {
    hide Meaning;
  }

  lemma EachNone(env: Env, c: Command, d: nat, n: nat, status: int, s: Signal, w: World, fuel: nat)
    requires c.For? && Within(s, d + 1)
    ensures Each(env, c, d, n, n, status, s, w, fuel) == Some(Result(status, Slipped(s), w))
  {
  }

  lemma CaseStarts(env: Env, c: Command, d: nat, w: World, fuel: nat)
    requires c.Case?
    ensures Inner(env, c, d, w, fuel) ==
            match Substitute(env, c, c.words, d, Normal, w, fuel)
            case None => None
            case Some(p) => Pick(env, c, d, 0, SUCCESS, p.s, Saw(p.w, Expanded(c.id)), fuel)
  {
    hide Substitute, Pick;
  }

  /** What follows the trial of a clause. */
  function Tried(env: Env, c: Command, d: nat, i: nat, status: int, o: Option<Trial>, fuel: nat): Option<Result>
    requires c.Case? && i < |c.clauses| && (o.Some? ==> Within(o.value.s, d))
  {
    match o
    case None => None
    case Some(t) =>
      if t.hit then Act(env, c, d, i, t.s, t.w, fuel) else Pick(env, c, d, i + 1, status, t.s, t.w, fuel)
  }

  lemma TryOne(env: Env, c: Command, d: nat, i: nat, j: nat, s: Signal, w: World, fuel: nat)
    requires c.Case? && i < |c.clauses| && j < |c.clauses[i].patterns| && Within(s, d)
    ensures var p := c.clauses[i].patterns[j];
            Try(env, c, d, i, j, s, w, fuel) ==
            match Substitute(env, c, p.prelude, d, s, w, fuel)
            case None => None
            case Some(q) =>
              var w1 := Saw(q.w, Tested(p.id));
              if env.matches(p.id, q.w) then Some(Trial(true, q.s, w1)) else Try(env, c, d, i, j + 1, q.s, w1, fuel)
  {
    hide Substitute;
  }

  lemma TryNone(env: Env, c: Command, d: nat, i: nat, s: Signal, w: World, fuel: nat)
    requires c.Case? && i < |c.clauses| && Within(s, d)
    ensures Try(env, c, d, i, |c.clauses[i].patterns|, s, w, fuel) == Some(Trial(false, s, w))
  {
  }

  lemma PickTries(env: Env, c: Command, d: nat, i: nat, status: int, s: Signal, w: World, fuel: nat)
    requires c.Case? && i < |c.clauses| && Within(s, d)
    ensures Pick(env, c, d, i, status, s, w, fuel) ==
            Tried(env, c, d, i, status, Try(env, c, d, i, 0, s, w, fuel), fuel)
  {
    hide Try, Act;
  }

  lemma PickNone(env: Env, c: Command, d: nat, status: int, s: Signal, w: World, fuel: nat)
    requires c.Case? && Within(s, d)
    ensures Pick(env, c, d, |c.clauses|, status, s, w, fuel) == Some(Result(status, s, w))
  {
  }
}
