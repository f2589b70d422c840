/** `case` said clause by clause from the first on: a clause runs when it is tested and matches, or when the one
    before it ran and ends in `;&`; it is tested unless a clause that ran before it ended the testing. */
module CaseClauses {
  import opened Options
  import opened Commands

  datatype Mode = Testing | Falling | Over

  /** Where a `case` stands before a clause. */
  datatype State = State(mode: Mode, status: int, s: Signal, w: World)

  function ModeAfter(end: Terminator): Mode {
    match end
    case Stop => Over
    case Fall => Falling
    case Next => Testing
  }

  /** The clause runs; while a signal is pending its action is skipped. */
  function RunClause(env: Env, c: Command, d: nat, k: nat, s: Signal, w: World, fuel: nat): (o: Option<State>)
    requires c.Case? && k < |c.clauses| && Within(s, d)
    ensures o.Some? ==> Within(o.value.s, d) && o.value.mode == ModeAfter(c.clauses[k].end)
  {
    match if s != Normal then Some(Result(w.last, s, w)) else Meaning(env, c.clauses[k].action, d, w, fuel)
    case None => None
    case Some(r) => Some(State(ModeAfter(c.clauses[k].end), r.status, r.signal, r.w))
  }

  /** One clause. */
  function Advance(env: Env, c: Command, d: nat, k: nat, st: State, fuel: nat): (o: Option<State>)
    requires c.Case? && k < |c.clauses| && Within(st.s, d)
    ensures o.Some? ==> Within(o.value.s, d)
  {
    match st.mode
    case Over => Some(st)
    case Falling => RunClause(env, c, d, k, st.s, st.w, fuel)
    case Testing =>
      match Try(env, c, d, k, 0, st.s, st.w, fuel)
      case None => None
      case Some(t) =>
        if t.hit then RunClause(env, c, d, k, t.s, t.w, fuel) else Some(State(Testing, st.status, t.s, t.w))
  }

  /** Where the `case` stands after its first k clauses. */
  function Before(env: Env, c: Command, d: nat, k: nat, st: State, fuel: nat): (o: Option<State>)
    requires c.Case? && k <= |c.clauses| && Within(st.s, d)
    ensures o.Some? ==> Within(o.value.s, d)
  {
    if k == 0 then Some(st)
    else
      match Before(env, c, d, k - 1, st, fuel)
      case None => None
      case Some(x) => Advance(env, c, d, k - 1, x, fuel)
  }

  /** The clause runs. */
  predicate Runs(env: Env, c: Command, d: nat, k: nat, st: State, fuel: nat)
    requires c.Case? && k < |c.clauses| && Within(st.s, d)
  {
    match Before(env, c, d, k, st, fuel)
    case None => false
    case Some(x) =>
      x.mode == Falling ||
      (x.mode == Testing && var t := Try(env, c, d, k, 0, x.s, x.w, fuel); t.Some? && t.value.hit)
  }

  /** What the recursive definition makes of the rest. */
  function Rest(env: Env, c: Command, d: nat, k: nat, st: State, fuel: nat): Option<Result>
    requires c.Case? && k <= |c.clauses| && Within(st.s, d)
  {
    if st.mode == Testing then Pick(env, c, d, k, st.status, st.s, st.w, fuel)
    else if st.mode == Falling && k < |c.clauses| then Act(env, c, d, k, st.s, st.w, fuel)
    else Some(Result(st.status, st.s, st.w))
  }

  lemma RestOfOne(env: Env, c: Command, d: nat, k: nat, st: State, fuel: nat)
    requires c.Case? && k < |c.clauses| && Within(st.s, d)
    ensures var o := Advance(env, c, d, k, st, fuel);
            Rest(env, c, d, k, st, fuel) == if o.None? then None else Rest(env, c, d, k + 1, o.value, fuel)
  {
    hide Meaning, Try;
    if st.mode == Testing {
      var t := Try(env, c, d, k, 0, st.s, st.w, fuel);
      if t.Some? && t.value.hit {
        ActIsRun(env, c, d, k, t.value.s, t.value.w, fuel);
      }
    } else if st.mode == Falling {
      ActIsRun(env, c, d, k, st.s, st.w, fuel);
    }
  }

  lemma ActIsRun(env: Env, c: Command, d: nat, k: nat, s: Signal, w: World, fuel: nat)
    requires c.Case? && k < |c.clauses| && Within(s, d)
    ensures var o := RunClause(env, c, d, k, s, w, fuel);
            Act(env, c, d, k, s, w, fuel) == if o.None? then None else Rest(env, c, d, k + 1, o.value, fuel)
  {
    hide Meaning, Pick;
  }

  lemma {:induction false} RestIsWhole(env: Env, c: Command, d: nat, k: nat, st: State, fuel: nat)
    requires c.Case? && k <= |c.clauses| && Within(st.s, d)
    ensures var o := Before(env, c, d, k, st, fuel);
            Rest(env, c, d, 0, st, fuel) == if o.None? then None else Rest(env, c, d, k, o.value, fuel)
    decreases k
  {
    hide Advance, Rest;
    if k > 0 {
      RestIsWhole(env, c, d, k - 1, st, fuel);
      var o := Before(env, c, d, k - 1, st, fuel);
      if o.Some? {
        RestOfOne(env, c, d, k - 1, o.value, fuel);
      }
    }
  }

  /** The whole command, whatever its actions and patterns do and whatever signals they raise: after its word is
      expanded, its clauses are gone through once, in order. */
  lemma CaseRuns(env: Env, c: Command, d: nat, w: World, fuel: nat)
    requires c.Case?
    ensures Meaning(env, c, d, w, fuel) ==
            match Substitute(env, c, c.words, d, Normal, w, fuel)
            case None => None
            case Some(p) =>
              match Before(env, c, d, |c.clauses|, State(Testing, SUCCESS, p.s, Saw(p.w, Expanded(c.id))), fuel)
              case None => None
              case Some(x) => Some(Finish(Result(x.status, x.s, x.w)))
  {
    hide Meaning, Substitute, Before, Act;
    MeaningIsInner(env, c, d, w, fuel);
    var o := Substitute(env, c, c.words, d, Normal, w, fuel);
    if o.Some? {
      var st := State(Testing, SUCCESS, o.value.s, Saw(o.value.w, Expanded(c.id)));
      RestIsWhole(env, c, d, |c.clauses|, st, fuel);
    }
  }

  /** With `;;` throughout, no clause runs after one that ran: it is the first that matches. */
  lemma {:induction false} FirstMatchOnly(env: Env, c: Command, d: nat, j: nat, k: nat, st: State, fuel: nat)
    requires c.Case? && j < k <= |c.clauses| && Within(st.s, d) && Runs(env, c, d, j, st, fuel)
    requires forall i :: 0 <= i < |c.clauses| ==> c.clauses[i].end == Stop
    ensures var o := Before(env, c, d, k, st, fuel); o.Some? ==> o.value.mode == Over
    ensures k < |c.clauses| ==> !Runs(env, c, d, k, st, fuel)
    decreases k
  {
    hide Meaning, Try, RunClause;
    if j < k - 1 {
      FirstMatchOnly(env, c, d, j, k - 1, st, fuel);
    }
  }
}
