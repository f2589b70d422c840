/** The executor of execute_cmd.c: one count of loops to break, one of loops to continue, the depth of loops, and the
    last exit status, updated in place. */
module Executor {
  import opened Options
  import opened Commands

  /** The counters that stand for a signal among `level` loops. */
  function Breaks(s: Signal, level: int): int {
    if s.Leave? then level - s.loop else 0
  }

  function Continues(s: Signal, level: int): int {
    if s.Resume? then level - s.loop else 0
  }

  class Shell {
    const env: Env
    var breaking: int
    var continuing: int
    var loopLevel: nat
    var w: World

    constructor (e: Env, start: World)
      ensures env == e && w == start && breaking == 0 && continuing == 0 && loopLevel == 0
    {
      env, w, breaking, continuing, loopLevel := e, start, 0, 0, 0;
    }

    ghost predicate Carries(s: Signal)
      reads this
    {
      Within(s, loopLevel) && breaking == Breaks(s, loopLevel) && continuing == Continues(s, loopLevel)
    }

    /** The state after a command, against what the command means. */
    ghost predicate Agrees(o: Option<Result>, status: int, done: bool)
      reads this
    {
      && (done <==> o.Some?)
      && (done ==> status == o.value.status && w == o.value.w && Carries(o.value.signal))
    }

    /** break. */
    method BreakBuiltin(n: int) returns (status: int)
      requires Carries(Normal)
      modifies this
      ensures loopLevel == old(loopLevel) && w == old(w)
      ensures status == CountStatus(n, loopLevel) && Carries(Broken(n, loopLevel))
    {
      if loopLevel == 0 {
        return SUCCESS;
      }
      if n <= 0 {
        breaking := loopLevel;
        return FAILURE;
      }
      var newbreak := n;
      if newbreak > loopLevel {
        newbreak := loopLevel;
      }
      breaking := newbreak;
      return SUCCESS;
    }

    /** continue. An operand that is not positive breaks all loops. */
    method ContinueBuiltin(n: int) returns (status: int)
      requires Carries(Normal)
      modifies this
      ensures loopLevel == old(loopLevel) && w == old(w)
      ensures status == CountStatus(n, loopLevel) && Carries(Continued(n, loopLevel))
    {
      if loopLevel == 0 {
        return SUCCESS;
      }
      if n <= 0 {
        breaking := loopLevel;
        return FAILURE;
      }
      var newcont := n;
      if newcont > loopLevel {
        newcont := loopLevel;
      }
      continuing := newcont;
      return SUCCESS;
    }

    /** execute_command_internal. While a signal `s` is pending it does nothing. */
    method Execute(c: Command, fuel: nat, ghost s: Signal) returns (status: int, done: bool)
      requires Carries(s)
      modifies this
      ensures loopLevel == old(loopLevel)
      ensures s != Normal ==> done && status == w.last && w == old(w) && Carries(s)
      ensures s == Normal ==> Agrees(Meaning(env, c, loopLevel, old(w), fuel), status, done)
      decreases fuel, c
    {
      if breaking != 0 || continuing != 0 {
        return w.last, true;
      }
      if c.Null? {
        return SUCCESS, true;
      }
      var execResult;
      execResult, done := ExecuteInner(c, fuel);
      w := w.(last := execResult);
      status := execResult;
    }

    /** The switch of execute_command_internal. */
    method ExecuteInner(c: Command, fuel: nat) returns (execResult: int, done: bool)
      requires Carries(Normal) && c != Null
      modifies this
      ensures loopLevel == old(loopLevel)
      ensures Agrees(Inner(env, c, loopLevel, old(w), fuel), execResult, done)
      decreases fuel, c, true
    {
      hide Meaning, Substitute, Rounds, Each, Calculate, Turns, Pick;
      match c
      case Simple(_, _) =>
        execResult, done := ExecuteSimple(c, fuel);
      case Calc(_) =>
        execResult, done := ExecuteArith(c, fuel);
      case Break(n) =>
        execResult := BreakBuiltin(n);
        done := true;
      case Continue(n) =>
        execResult := ContinueBuiltin(n);
        done := true;
      case Not(a) =>
        execResult, done := Execute(a, fuel, Normal);
        execResult := if execResult == SUCCESS then FAILURE else SUCCESS;
      case Then(_, _) =>
        execResult, done := ExecuteConnection(c, fuel);
      case And(_, _) =>
        execResult, done := ExecuteConnection(c, fuel);
      case Or(_, _) =>
        execResult, done := ExecuteConnection(c, fuel);
      case If(_, _, _) =>
        execResult, done := ExecuteIf(c, fuel);
      case Repeat(_, _, _) =>
        execResult, done := ExecuteWhileOrUntil(c, fuel);
      case For(_, _, _) =>
        execResult, done := ExecuteFor(c, fuel);
      case ArithFor(_, _, _, _) =>
        execResult, done := ExecuteArithFor(c, fuel);
      case Case(_, _, _) =>
        execResult, done := ExecuteCase(c, fuel);
      case Call(_, _) =>
        execResult, done := ExecuteFunction(c, fuel);
    }

    /** The commands that are substituted while words are expanded. */
    method ExpandWords(c: Command, p: Command, fuel: nat, ghost s: Signal) returns (done: bool, ghost after: Signal)
      requires p < c && Carries(s)
      modifies this
      ensures loopLevel == old(loopLevel)
      ensures var o := Substitute(env, c, p, loopLevel, s, old(w), fuel);
              (done <==> o.Some?) && (done ==> o.value == Pending(after, w) && Carries(after))
      decreases fuel, c, false, 0, 0
    {
      hide Meaning;
      ghost var r := Meaning(env, p, loopLevel, w, fuel);
      var _, ran := Execute(p, fuel, s);
      done := ran;
      after := if s != Normal || !done then s else r.value.signal;
    }

    /** execute_simple_command for anything but functions, `break` and `continue`. */
    method ExecuteSimple(c: Command, fuel: nat) returns (result: int, done: bool)
      requires Carries(Normal) && c.Simple?
      modifies this
      ensures loopLevel == old(loopLevel)
      ensures Agrees(Inner(env, c, loopLevel, old(w), fuel), result, done)
      decreases fuel, c, false
    {
      hide Meaning, Substitute;
      ghost var s;
      done, s := ExpandWords(c, c.words, fuel, Normal);
      if !done {
        return 0, false;
      }
      result := env.run(c.id, w);
      w := Saw(w, Ran(c.id));
    }

    /** execute_arith_command. */
    method ExecuteArith(c: Command, fuel: nat) returns (result: int, done: bool)
      requires Carries(Normal) && c.Calc?
      modifies this
      ensures loopLevel == old(loopLevel)
      ensures Agrees(Inner(env, c, loopLevel, old(w), fuel), result, done)
      decreases fuel, c, false
    {
      hide Meaning, Substitute;
      ghost var s;
      done, s := ExpandWords(c, c.a.prelude, fuel, Normal);
      if !done {
        return 0, false;
      }
      var expok, expresult := env.ok(c.a.id, w), env.nonzero(c.a.id, w);
      w := Saw(w, Calculated(c.a.id));
      if !expok {
        return FAILURE, done;
      }
      result := if expresult then SUCCESS else FAILURE;
    }

    /** execute_connection, for `;`, `&&` and `||`. */
    method ExecuteConnection(c: Command, fuel: nat) returns (execResult: int, done: bool)
      requires Carries(Normal) && (c.Then? || c.And? || c.Or?)
      modifies this
      ensures loopLevel == old(loopLevel)
      ensures Agrees(Inner(env, c, loopLevel, old(w), fuel), execResult, done)
      decreases fuel, c, false
    {
      hide Meaning;
      ghost var r := Meaning(env, c.first, loopLevel, w, fuel);
      execResult, done := Execute(c.first, fuel, Normal);
      if !done {
        return;
      }
      if c.Then? || (c.And? && execResult == SUCCESS) || (c.Or? && execResult != SUCCESS) {
        execResult, done := Execute(c.second, fuel, r.value.signal);
      }
    }

    /** execute_if_command. */
    method ExecuteIf(c: Command, fuel: nat) returns (returnValue: int, done: bool)
      requires Carries(Normal) && c.If?
      modifies this
      ensures loopLevel == old(loopLevel)
      ensures Agrees(Inner(env, c, loopLevel, old(w), fuel), returnValue, done)
      decreases fuel, c, false
    {
      hide Meaning;
      ghost var r := Meaning(env, c.test, loopLevel, w, fuel);
      returnValue, done := Execute(c.test, fuel, Normal);
      if !done {
        return;
      }
      if returnValue == SUCCESS {
        returnValue, done := Execute(c.yes, fuel, r.value.signal);
      } else {
        returnValue, done := Execute(c.no, fuel, r.value.signal);
      }
    }

    /** What each loop does after its body, and an arithmetic loop after its test: it leaves when there is something to
        break, and goes on when nothing but itself is to be continued. */
    method TakeSignal(ghost s: Signal) returns (leaves: bool)
      requires Carries(s) && loopLevel > 0
      modifies this`breaking, this`continuing
      ensures leaves <==> !GoesOn(s, loopLevel - 1)
      ensures leaves ==> breaking == Breaks(Caught(s, loopLevel - 1), loopLevel - 1)
      ensures leaves ==> continuing == Continues(Caught(s, loopLevel - 1), loopLevel - 1)
      ensures !leaves ==> Carries(Normal)
    {
      if breaking != 0 {
        breaking := breaking - 1;
        return true;
      }
      if continuing != 0 {
        continuing := continuing - 1;
        if continuing != 0 {
          return true;
        }
      }
      return false;
    }

    /** execute_while_or_until. */
    method ExecuteWhileOrUntil(c: Command, fuel: nat) returns (bodyStatus: int, done: bool)
      requires Carries(Normal) && c.Repeat?
      modifies this
      ensures loopLevel == old(loopLevel)
      ensures Agrees(Rounds(env, c, loopLevel, SUCCESS, old(w), fuel), bodyStatus, done)
      decreases fuel, c, false
    {
      hide Meaning;
      ghost var d, all := loopLevel, Rounds(env, c, loopLevel, SUCCESS, w, fuel);
      bodyStatus := SUCCESS;
      loopLevel := loopLevel + 1;
      var left, leaves := fuel, false;
      while true
        invariant loopLevel == d + 1 && Carries(Normal) && 0 <= left <= fuel
        invariant all == Rounds(env, c, d, bodyStatus, w, left)
        decreases left
      {
        ghost var t := Meaning(env, c.test, d + 1, w, left);
        var returnValue;
        returnValue, done := Execute(c.test, left, Normal);
        if !done {
          loopLevel := loopLevel - 1;
          return;
        }
        if (!c.until && returnValue != SUCCESS) || (c.until && returnValue == SUCCESS) {
          if breaking != 0 {
            breaking := breaking - 1;
          }
          if continuing != 0 {
            continuing := continuing - 1;
          }
          break;
        }
        ghost var b := if t.value.signal != Normal then t else Meaning(env, c.body, d + 1, w, left);
        bodyStatus, done := Execute(c.body, left, t.value.signal);
        if !done {
          loopLevel := loopLevel - 1;
          return;
        }
        leaves := TakeSignal(b.value.signal);
        if leaves {
          break;
        }
        if left == 0 {
          loopLevel := loopLevel - 1;
          return 0, false;
        }
        left := left - 1;
      }
      loopLevel := loopLevel - 1;
      done := true;
    }

    /** execute_for_command. */
    method ExecuteFor(c: Command, fuel: nat) returns (retval: int, done: bool)
      requires Carries(Normal) && c.For?
      modifies this
      ensures loopLevel == old(loopLevel)
      ensures Agrees(Inner(env, c, loopLevel, old(w), fuel), retval, done)
      decreases fuel, c, false, 1
    {
      hide Meaning, Substitute, Each;
      ghost var d, s := loopLevel, Normal;
      var valid := env.named(c.id, w);
      w := Saw(w, Named(c.id));
      if !valid {
        return FAILURE, true;
      }
      loopLevel := loopLevel + 1;
      done, s := ExpandWords(c, c.words, fuel, Normal);
      if !done {
        loopLevel := loopLevel - 1;
        return 0, false;
      }
      var n := env.words(c.id, w);
      w := Saw(w, Expanded(c.id));
      ghost var all := Each(env, c, d, 0, n, SUCCESS, s, w, fuel);
      retval := SUCCESS;
      var k, leaves := 0, false;
      while k < n
        invariant loopLevel == d + 1 && Carries(s) && 0 <= k <= n && done && !leaves
        invariant all == Each(env, c, d, k, n, retval, s, w, fuel)
      {
        EachOne(env, c, d, k, n, retval, s, w, fuel);
        var bound := env.bind(c.id, k, w);
        w := Saw(w, Bound(c.id, k));
        if !bound {
          loopLevel := loopLevel - 1;
          return FAILURE, true;
        }
        ghost var b := if s != Normal then Some(Result(w.last, s, w)) else Meaning(env, c.body, d + 1, w, fuel);
        retval, done := Execute(c.body, fuel, s);
        if !done {
          loopLevel := loopLevel - 1;
          return;
        }
        leaves := TakeSignal(b.value.signal);
        if leaves {
          break;
        }
        s := Normal;
        k := k + 1;
      }
      if !leaves {
        EachNone(env, c, d, n, retval, s, w, fuel);
      }
      loopLevel := loopLevel - 1;
    }

    /** eval_arith_for_expr: the expression is calculated even while a signal is pending. */
    method EvalArithForExpr(a: Arith, c: Command, fuel: nat, ghost s: Signal)
        returns (expok: bool, nonzero: bool, done: bool, ghost after: Signal)
      requires c.ArithFor? && (a == c.init || a == c.arith || a == c.step) && Carries(s)
      modifies this
      ensures loopLevel == old(loopLevel)
      ensures var o := Calculate(env, c, a, loopLevel, s, old(w), fuel);
              && (done <==> o.Some?)
              && (done ==> o.value == Value(expok, nonzero, after, w) && Carries(after))
      decreases fuel, c, false, 0, 1
    {
      hide Meaning, Substitute;
      done, after := ExpandWords(c, a.prelude, fuel, s);
      expok, nonzero := env.ok(a.id, w), env.nonzero(a.id, w);
      w := Saw(w, Calculated(a.id));
    }

    /** The second half of a round of execute_arith_for_command: the body and the third expression. */
    method ArithBody(c: Command, ghost d: nat, fuel: nat)
        returns (bodyStatus: int, leaves: bool, expok: bool, nonzero: bool, done: bool, ghost s: Signal)
      requires Carries(Normal) && c.ArithFor? && loopLevel == d + 1
      modifies this
      ensures loopLevel == d + 1
      ensures var o := Meaning(env, c.body, d + 1, old(w), fuel);
              && (o.None? ==> !done)
              && (o.Some? && !done ==> AfterBody(env, c, d, o.value, fuel) == None)
              && (done ==> o.Some? && var r := AfterBody(env, c, d, o.value, fuel);
                if leaves then expok && r.Some? && Left(r.value, bodyStatus, d)
                else Carries(s) && r == NextTurn(env, c, d, bodyStatus, Value(expok, nonzero, s, w), fuel))
      decreases fuel, c, false, 1
    {
      hide Meaning, Calculate, Turns;
      ghost var b := Meaning(env, c.body, d + 1, w, fuel);
      expok, nonzero, leaves, s := true, true, false, Normal;
      bodyStatus, done := Execute(c.body, fuel, Normal);
      if !done {
        return;
      }
      leaves := TakeSignal(b.value.signal);
      if leaves {
        return;
      }
      expok, nonzero, done, s := EvalArithForExpr(c.step, c, fuel, Normal);
    }

    /** The state of a loop that is being left, before the depth is restored. */
    ghost predicate Left(r: Result, status: int, d: nat)
      reads this
    {
      && r.status == status && r.w == w
      && breaking == Breaks(r.signal, d) && continuing == Continues(r.signal, d)
    }

    /** execute_arith_for_command. */
    method ExecuteArithFor(c: Command, fuel: nat) returns (status: int, done: bool)
      requires Carries(Normal) && c.ArithFor?
      modifies this
      ensures loopLevel == old(loopLevel)
      ensures Agrees(Inner(env, c, loopLevel, old(w), fuel), status, done)
      decreases fuel, c, false, 2
    {
      hide Meaning, Calculate, Turns, AfterBody;
      ghost var d, all := loopLevel, Inner(env, c, loopLevel, w, fuel);
      var bodyStatus := SUCCESS;
      loopLevel := loopLevel + 1;
      var expok, nonzero;
      ghost var s;
      expok, nonzero, done, s := EvalArithForExpr(c.init, c, fuel, Normal);
      if !done {
        loopLevel := loopLevel - 1;
        return 0, false;
      }
      var left, leaves := fuel, false;
      while expok
        invariant loopLevel == d + 1 && Carries(s) && 0 <= left <= fuel && done && !leaves
        invariant all == Turns(env, c, d, bodyStatus, Value(expok, nonzero, s, w), left)
        decreases left, expok
      {
        ghost var v := Value(expok, nonzero, s, w);
        expok, nonzero, done, s := EvalArithForExpr(c.arith, c, left, s);
        ghost var t := Value(expok, nonzero, s, w);
        if !done {
          TurnStuck(env, c, d, bodyStatus, v, left);
          loopLevel := loopLevel - 1;
          return 0, false;
        }
        TurnTested(env, c, d, bodyStatus, v, left, t);
        leaves := TakeSignal(s);
        if leaves {
          break;
        }
        if !expok {
          leaves := true;
          break;
        }
        if !nonzero {
          leaves := true;
          break;
        }
        bodyStatus, leaves, expok, nonzero, done, s := ArithBody(c, d, left);
        if done && leaves {
          break;
        }
        if !done || left == 0 {
          loopLevel := loopLevel - 1;
          return 0, false;
        }
        left := left - 1;
      }
      if !leaves {
        TurnFails(env, c, d, bodyStatus, Value(expok, nonzero, s, w), left);
      }
      loopLevel := loopLevel - 1;
      status := if expok then bodyStatus else FAILURE;
    }

    /** The innermost loop of execute_case_command: the actions from the clause that matched on, as long as they end
        in `;&`. The last clause run, or the number of clauses for none. */
    method RunActions(c: Command, first: nat, fuel: nat, ghost s: Signal)
        returns (retval: int, clauses: nat, done: bool, ghost after: Signal)
      requires c.Case? && first < |c.clauses| && Carries(s)
      modifies this
      ensures loopLevel == old(loopLevel) && first <= clauses <= |c.clauses|
      ensures var o := Act(env, c, loopLevel, first, s, old(w), fuel);
              && (!done ==> o == None)
              && (done ==> Carries(after))
              && (done && (clauses == |c.clauses| || c.clauses[clauses].end != Next) ==>
                    o == Some(Result(retval, after, w)))
              && (done && clauses < |c.clauses| && c.clauses[clauses].end == Next ==>
                    o == Pick(env, c, loopLevel, clauses + 1, retval, after, w, fuel))
      decreases fuel, c, false, 0
    {
      hide Meaning, Pick;
      ghost var all := Act(env, c, loopLevel, first, s, w, fuel);
      clauses, after := first, s;
      while true
        invariant first <= clauses < |c.clauses| && Carries(after) && loopLevel == old(loopLevel)
        invariant all == Act(env, c, loopLevel, clauses, after, w, fuel)
        decreases |c.clauses| - clauses
      {
        ghost var r := Meaning(env, c.clauses[clauses].action, loopLevel, w, fuel);
        retval, done := Execute(c.clauses[clauses].action, fuel, after);
        if !done {
          return;
        }
        after := if after != Normal then after else r.value.signal;
        if c.clauses[clauses].end != Fall {
          return;
        }
        clauses := clauses + 1;
        if clauses == |c.clauses| {
          return;
        }
      }
    }

    /** execute_case_command. The number of clauses stands for the null pointer at the end of the list. */
    method ExecuteCase(c: Command, fuel: nat) returns (retval: int, done: bool)
      requires Carries(Normal) && c.Case?
      modifies this
      ensures loopLevel == old(loopLevel)
      ensures Agrees(Inner(env, c, loopLevel, old(w), fuel), retval, done)
      decreases fuel, c, false, 1
    {
      hide Meaning, Inner, Act, Substitute, Try, Pick;
      CaseStarts(env, c, loopLevel, w, fuel);
      ghost var d, all, s := loopLevel, Inner(env, c, loopLevel, w, fuel), Normal;
      done, s := ExpandWords(c, c.words, fuel, Normal);
      if !done {
        return 0, false;
      }
      w := Saw(w, Expanded(c.id));
      retval := SUCCESS;
      var leaveCase := false;
      var clauses := 0;
      while clauses != |c.clauses|
        invariant 0 <= clauses <= |c.clauses| && Carries(s) && loopLevel == d && done && !leaveCase
        invariant all == Pick(env, c, d, clauses, retval, s, w, fuel)
        decreases |c.clauses| - clauses
      {
        ghost var here := clauses;
        PickTries(env, c, d, clauses, retval, s, w, fuel);
        var j := 0;
        while j < |c.clauses[clauses].patterns|
          invariant clauses == here && 0 <= j <= |c.clauses[clauses].patterns|
          invariant Carries(s) && loopLevel == d && done && !leaveCase
          invariant all == Tried(env, c, d, clauses, retval, Try(env, c, d, clauses, j, s, w, fuel), fuel)
          decreases |c.clauses[here].patterns| - j
        {
          TryOne(env, c, d, clauses, j, s, w, fuel);
          var p := c.clauses[clauses].patterns[j];
          done, s := ExpandWords(c, p.prelude, fuel, s);
          if !done {
            return 0, false;
          }
          var match_ := env.matches(p.id, w);
          w := Saw(w, Tested(p.id));
          if match_ {
            retval, clauses, done, s := RunActions(c, clauses, fuel, s);
            if !done {
              return;
            }
            if clauses == |c.clauses| || c.clauses[clauses].end != Next {
              leaveCase := true;
            } else {
              break;
            }
          }
          if leaveCase {
            break;
          }
          j := j + 1;
        }
        if leaveCase {
          break;
        }
        TryNone(env, c, d, here, s, w, fuel);
        assert clauses < |c.clauses|;
        clauses := clauses + 1;
      }
      PickNone(env, c, d, retval, s, w, fuel);
    }

    /** execute_function: the body is outside of the caller's loops. */
    method ExecuteFunction(c: Command, fuel: nat) returns (result: int, done: bool)
      requires Carries(Normal) && c.Call?
      modifies this
      ensures loopLevel == old(loopLevel)
      ensures Agrees(Inner(env, c, loopLevel, old(w), fuel), result, done)
      decreases fuel, c, false
    {
      hide Meaning, Substitute;
      ghost var s;
      done, s := ExpandWords(c, c.words, fuel, Normal);
      if !done {
        return 0, false;
      }
      if c.f !in env.funcs {
        result := env.run(c.f, w);
        w := Saw(w, Ran(c.f));
        return result, true;
      }
      if breaking != 0 || continuing != 0 {
        // the body is skipped like any other command
        return w.last, true;
      }
      if fuel == 0 {
        return 0, false;
      }
      var saved := loopLevel;
      loopLevel := 0;
      result, done := Execute(env.funcs[c.f], fuel - 1, Normal);
      loopLevel := saved;
    }
  }
}
