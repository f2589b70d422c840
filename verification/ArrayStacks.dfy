/** An indexed array as a stack: shifting right by one pushes a value at index 0, shifting left by one pops it. */
module ArrayStacks {
  import opened Integers
  import opened Options
  import opened Entries
  import opened SparseArrays
  import opened ArrayRuns

  /** Balanced runs of pushes and pops: nothing, or a pushed value, a balanced run, its pop, and another run. */
  datatype Balanced = Done | Nest(v: string, inner: Balanced, next: Balanced)

  function Operations(b: Balanced): seq<Op> {
    match b
    case Done => []
    case Nest(v, inner, next) => [RShift(1, Some(v))] + Operations(inner) + [Op.Shift(1)] + Operations(next)
  }

  /** How many values are on the stack at once. */
  function Height(b: Balanced): nat {
    match b
    case Done => 0
    case Nest(_, inner, next) => if 1 + Height(inner) > Height(next) then 1 + Height(inner) else Height(next)
  }

  /** What the run answers on an array of `count` elements: a push the new count, a pop the value pushed last. */
  function Popped(b: Balanced, count: nat): seq<Answer> {
    match b
    case Done => []
    case Nest(v, inner, next) =>
      [Count(count + 1)] + Popped(inner, count + 1) + [Taken([Entry(0, Some(v))])] + Popped(next, count)
  }

  lemma {:induction false} RunsJoin(es: seq<Entry>, a: seq<Op>, b: seq<Op>)
    requires Ordered(es) && AllLegal(es, a)
    ensures Ordered(AfterAll(es, a)) && AfterAll(es, a + b) == AfterAll(AfterAll(es, a), b)
    ensures AllLegal(es, a + b) <==> AllLegal(AfterAll(es, a), b)
    ensures AllLegal(es, a + b) ==> Answers(es, a + b) == Answers(es, a) + Answers(AfterAll(es, a), b)
    decreases |a|
  {
    hide After, Legal, Answered, Ordered;
    if a == [] {
      assert a + b == b;
    } else {
      assert (a + b)[0] == a[0] && (a + b)[1..] == a[1..] + b;
      AfterOrdered(es, a[0]);
      RunsJoin(After(es, a[0]), a[1..], b);
    }
  }

  lemma {:induction false} PrefixLegal(es: seq<Entry>, a: seq<Op>, b: seq<Op>)
    requires Ordered(es) && AllLegal(es, a + b)
    ensures AllLegal(es, a)
    decreases |a|
  {
    hide After, Legal, Ordered;
    if a != [] {
      assert (a + b)[0] == a[0] && (a + b)[1..] == a[1..] + b;
      AfterOrdered(es, a[0]);
      PrefixLegal(After(es, a[0]), a[1..], b);
    }
  }

  lemma OneRun(es: seq<Entry>, op: Op)
    requires Ordered(es)
    ensures AllLegal(es, [op]) <==> Legal(es, op)
    ensures AfterAll(es, [op]) == After(es, op)
    ensures AllLegal(es, [op]) ==> Answers(es, [op]) == [Answered(es, op)]
  {
    hide After, Legal, Answered, Ordered;
    var rest := [op][1..];
    assert rest == [];
    assert AllLegal(After(es, op), rest) && AfterAll(After(es, op), rest) == After(es, op);
    if Legal(es, op) {
      AfterOrdered(es, op);
      assert Answers(After(es, op), rest) == [];
    }
  }

  /** A push, the answers around it, and the pop behind it. */
  lemma Push(es: seq<Entry>, v: string)
    requires Ordered(es)
    ensures var up := After(es, RShift(1, Some(v)));
            && Ordered(up) && LastIndex(up) == LastIndex(es) + 1 && |up| == |es| + 1
            && Answered(es, RShift(1, Some(v))) == Count(|es| + 1)
            && After(up, Op.Shift(1)) == es && Answered(up, Op.Shift(1)) == Taken([Entry(0, Some(v))])
  {
    hide Ordered;
    var up := ShiftedRight(es, 1, Some(v));
    ShiftedRightOrdered(es, 1, Some(v));
    PushPop(es, v);
    assert up[..1] == [up[0]];
  }

  /** Any balanced run of pushes and pops leaves the array as it was, and every pop hands back the value pushed last;
      the run is possible exactly when the largest index has room for the height of the stack. */
  lemma {:induction false} BalancedRun(es: seq<Entry>, b: Balanced)
    requires Ordered(es) && LastIndex(es) <= INTMAX_MAX
    ensures AllLegal(es, Operations(b)) <==> LastIndex(es) + Height(b) <= INTMAX_MAX
    ensures AllLegal(es, Operations(b)) ==>
              AfterAll(es, Operations(b)) == es && Answers(es, Operations(b)) == Popped(b, |es|)
    decreases b
  {
    hide After, Legal, Answered, Ordered, AllLegal, AfterAll, LastIndex;
    match b
    case Done => NoRun(es);
    case Nest(v, inner, next) =>
      var push, up := RShift(1, Some(v)), After(es, RShift(1, Some(v)));
      PushLegal(es, v);
      if Legal(es, push) {
        Push(es, v);
        BalancedRun(up, inner);
        BalancedRun(es, next);
        Nested(es, v, inner, next);
      } else {
        var rest := Operations(inner) + [Op.Shift(1)] + Operations(next);
        assert Operations(b) == [push] + rest;
        FirstLegal(es, push, rest);
      }
  }

  lemma PushLegal(es: seq<Entry>, v: string)
    ensures Legal(es, RShift(1, Some(v))) <==> LastIndex(es) + 1 <= INTMAX_MAX
  {
  }

  lemma FirstLegal(es: seq<Entry>, op: Op, rest: seq<Op>)
    requires !Legal(es, op)
    ensures !AllLegal(es, [op] + rest)
  {
    hide Legal;
    assert ([op] + rest)[0] == op;
  }

  /** Push, inner run, pop and next run in a row, when the push is possible. */
  lemma Nested(es: seq<Entry>, v: string, inner: Balanced, next: Balanced)
    requires Ordered(es) && Legal(es, RShift(1, Some(v)))
    requires var up := After(es, RShift(1, Some(v)));
             && Ordered(up) && |up| == |es| + 1 && Answered(es, RShift(1, Some(v))) == Count(|es| + 1)
             && After(up, Op.Shift(1)) == es && Answered(up, Op.Shift(1)) == Taken([Entry(0, Some(v))])
             && (AllLegal(up, Operations(inner)) ==> AfterAll(up, Operations(inner)) == up
                                                     && Answers(up, Operations(inner)) == Popped(inner, |up|))
    requires AllLegal(es, Operations(next)) ==> AfterAll(es, Operations(next)) == es
                                                && Answers(es, Operations(next)) == Popped(next, |es|)
    ensures var up, all := After(es, RShift(1, Some(v))), Operations(Nest(v, inner, next));
            && (AllLegal(es, all) <==> AllLegal(up, Operations(inner)) && AllLegal(es, Operations(next)))
            && (AllLegal(es, all) ==> AfterAll(es, all) == es && Answers(es, all) == Popped(Nest(v, inner, next), |es|))
  {
    hide After, Legal, Answered, Ordered, AllLegal, AfterAll;
    var up, push, pop := After(es, RShift(1, Some(v))), [RShift(1, Some(v))], [Op.Shift(1)];
    var a, b := Operations(inner), Operations(next);
    assert Operations(Nest(v, inner, next)) == push + (a + (pop + b));
    OneRun(es, RShift(1, Some(v)));
    RunsJoin(es, push, a + (pop + b));
    PopLegal(up);
    OneRun(up, Op.Shift(1));
    RunsJoin(up, pop, b);
    if AllLegal(up, a) {
      RunsJoin(up, a, pop + b);
    } else if AllLegal(up, a + (pop + b)) {
      PrefixLegal(up, a, pop + b);
    }
  }

  lemma PopLegal(es: seq<Entry>)
    ensures Legal(es, Op.Shift(1))
  {
  }

  lemma NoRun(es: seq<Entry>)
    requires Ordered(es)
    ensures AllLegal(es, []) && AfterAll(es, []) == es && Answers(es, []) == []
  {
  }
}
