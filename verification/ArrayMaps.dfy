/** Runs of array operations as runs on a plain map from index to value. */
module ArrayMaps {
  import opened Options
  import opened Entries
  import opened SparseArrays
  import opened ArrayRuns

  type IndexMap = map<int, Option<string>>

  /** How many keys lie below an index. */
  ghost function Rank(m: IndexMap, x: int): nat {
    |set y | y in m && y < x|
  }

  /** The keys from the n-th on, lowered by n. */
  ghost function LoweredKeys(m: IndexMap, n: int): set<int> {
    set x | x in m && Rank(m, x) >= n :: x - n
  }

  lemma LoweredKey(m: IndexMap, n: int, x: int)
    ensures x in LoweredKeys(m, n) <==> x + n in m && Rank(m, x + n) >= n
  {
    hide Rank;
    if x + n in m && Rank(m, x + n) >= n {
      var y := x + n;
      assert y in m && x == y - n;
    }
  }

  /** The n least keys go and the others come down by n. */
  ghost function Lowered(m: IndexMap, n: int): IndexMap {
    map x | x in LoweredKeys(m, n) :: LoweredKey(m, n, x); m[x + n]
  }

  /** All keys, raised by n, and 0 if there is a value for it. */
  ghost function RaisedKeys(m: IndexMap, n: int, s: Option<string>): set<int> {
    (set x | x in m :: x + n) + if s.Some? then {0} else {}
  }

  lemma RaisedKey(m: IndexMap, n: int, s: Option<string>, x: int)
    ensures x in RaisedKeys(m, n, s) <==> x - n in m || (s.Some? && x == 0)
  {
    if x - n in m {
      var y := x - n;
      assert y in m && x == y + n;
    }
  }

  /** All keys go up by n, and a value, if there is one, goes to 0. */
  ghost function Raised(m: IndexMap, n: int, s: Option<string>): IndexMap {
    map x | x in RaisedKeys(m, n, s) :: RaisedKey(m, n, s, x); if s.Some? && x == 0 then s else m[x - n]
  }

  /** The n least keys. */
  ghost function Least(m: IndexMap, n: int): IndexMap {
    map x | x in m && Rank(m, x) < n :: m[x]
  }

  lemma LoweredHas(m: IndexMap, n: int, x: int)
    ensures x in Lowered(m, n) <==> x + n in m && Rank(m, x + n) >= n
    ensures x in Lowered(m, n) ==> Lowered(m, n)[x] == m[x + n]
  {
    hide Rank, LoweredKeys;
    LoweredKey(m, n, x);
  }

  lemma RaisedHas(m: IndexMap, n: int, s: Option<string>, x: int)
    ensures x in Raised(m, n, s) <==> x - n in m || (s.Some? && x == 0)
    ensures x in Raised(m, n, s) ==> Raised(m, n, s)[x] == if s.Some? && x == 0 then s else m[x - n]
  {
    hide RaisedKeys;
    RaisedKey(m, n, s, x);
  }

  lemma PrefixOrdered(es: seq<Entry>, k: nat)
    requires Ordered(es) && k <= |es|
    ensures Ordered(es[..k])
  {
  }

  lemma LeastHas(m: IndexMap, n: int, x: int)
    ensures x in Least(m, n) <==> x in m && Rank(m, x) < n
    ensures x in Least(m, n) ==> Least(m, n)[x] == m[x]
  {
    hide Rank;
  }

  /** The operations as a map sees them: shifting drops the n least keys and lowers the others. */
  ghost function MapAfter(m: IndexMap, op: Op): IndexMap {
    match op
    case Insert(i, v) => m[i := v]
    case Remove(i) => m - {i}
    case Look(_) => m
    case Shift(n) => if n <= 0 then m else Lowered(m, n)
    case RShift(n, s) => if n <= 0 then m else Raised(m, n, s)
    case Flush => map[]
  }

  /** The answers as a map gives them. The elements shifted out are the n least keys in order. */
  ghost predicate MapAnswers(m: IndexMap, op: Op, answer: Answer) {
    match op
    case Insert(_, _) => answer == Status(0)
    case Remove(i) => answer == Gone(if i in m then Some(Entry(i, m[i])) else None)
    case Look(i) => answer == Value(if i in m then m[i] else None)
    case Shift(n) =>
      && answer.Taken? && Ordered(answer.entries)
      && Contents(answer.entries) == Least(m, n)
    case RShift(_, _) => answer == Count(|MapAfter(m, op)|)
    case Flush => answer == Emptied
  }

  ghost function MapAfterAll(m: IndexMap, ops: seq<Op>): IndexMap
    decreases |ops|
  {
    if ops == [] then m else MapAfterAll(MapAfter(m, ops[0]), ops[1..])
  }

  ghost predicate MapAnswersAll(m: IndexMap, ops: seq<Op>, answers: seq<Answer>)
    decreases |ops|
  {
    && |answers| == |ops|
    && (ops != [] ==> MapAnswers(m, ops[0], answers[0]) && MapAnswersAll(MapAfter(m, ops[0]), ops[1..], answers[1..]))
  }

  /** The keys of the first entries. */
  ghost function FirstKeys(es: seq<Entry>, k: nat): (s: set<int>)
    requires k <= |es|
  {
    set j | 0 <= j < k :: es[j].ind
  }

  lemma {:induction false} FirstKeysCount(es: seq<Entry>, k: nat)
    requires Ordered(es) && k <= |es|
    ensures |FirstKeys(es, k)| == k
  {
    if k == 0 {
      assert FirstKeys(es, k) == {};
    } else {
      FirstKeysCount(es, k - 1);
      assert FirstKeys(es, k) == FirstKeys(es, k - 1) + {es[k - 1].ind};
    }
  }

  /** The map has as many keys as there are entries. */
  lemma ContentsCount(es: seq<Entry>)
    requires Ordered(es)
    ensures |Contents(es)| == |es|
  {
    FirstKeysCount(es, |es|);
    assert Contents(es).Keys == FirstKeys(es, |es|);
  }

  /** The rank of a key is its place among the entries. */
  lemma RankIs(es: seq<Entry>, k: nat)
    requires Ordered(es) && k < |es|
    ensures Rank(Contents(es), es[k].ind) == k
  {
    var m, x := Contents(es), es[k].ind;
    FirstKeysCount(es, k);
    assert (set y | y in m && y < x) == FirstKeys(es, k);
  }

  /** Every operation does to the map what it does to the list. */
  lemma AfterContents(es: seq<Entry>, op: Op)
    requires Ordered(es) && Legal(es, op)
    ensures Ordered(After(es, op)) && Contents(After(es, op)) == MapAfter(Contents(es), op)
  {
    AfterOrdered(es, op);
    match op
    case Insert(i, v) => InsertedContents(es, i, v);
    case Remove(i) => RemovedContents(es, i);
    case Look(_) =>
    case Shift(n) => ShiftContents(es, n);
    case RShift(n, s) => RShiftContents(es, n, s);
    case Flush => NoneOrdered();
  }

  lemma ShiftContents(es: seq<Entry>, n: int)
    requires Ordered(es)
    ensures Ordered(ShiftedLeft(es, n)) && Contents(ShiftedLeft(es, n)) == MapAfter(Contents(es), Shift(n))
  {
    hide Contents, Rank, Ordered, Lowered, Raised, Least;
    ShiftedLeftOrdered(es, n);
    if n > 0 {
      var r, m := ShiftedLeft(es, n), Lowered(Contents(es), n);
      forall j | 0 <= j < |r|
        ensures r[j].ind in m && m[r[j].ind] == r[j].value
      {
        Listed(es, j + n);
        RankIs(es, j + n);
        LoweredHas(Contents(es), n, r[j].ind);
      }
      forall x | x in m.Keys
        ensures x in Contents(r).Keys
      {
        LoweredHas(Contents(es), n, x);
        var k := Found(es, x + n);
        RankIs(es, k);
        Listed(r, k - n);
      }
      SameMap(r, m);
    }
  }

  lemma RShiftContents(es: seq<Entry>, n: int, s: Option<string>)
    requires Ordered(es)
    ensures Ordered(ShiftedRight(es, n, s))
    ensures Contents(ShiftedRight(es, n, s)) == MapAfter(Contents(es), RShift(n, s))
  {
    hide Contents, Rank, Ordered, Lowered, Raised, Least;
    ShiftedRightOrdered(es, n, s);
    if n > 0 {
      var r, m := ShiftedRight(es, n, s), Raised(Contents(es), n, s);
      var d := if s.Some? then 1 else 0;
      assert forall j :: d <= j < |r| ==> r[j] == Entry(es[j - d].ind + n, es[j - d].value);
      hide ShiftedRight, Moved;
      forall j | 0 <= j < |r|
        ensures r[j].ind in m && m[r[j].ind] == r[j].value
      {
        RaisedHas(Contents(es), n, s, r[j].ind);
        if j >= d {
          Listed(es, j - d);
          Positive(es, j - d);
        }
      }
      forall x | x in m.Keys
        ensures x in Contents(r).Keys
      {
        RaisedHas(Contents(es), n, s, x);
        if s.Some? && x == 0 {
          Listed(r, 0);
        } else {
          var k := Found(es, x - n);
          Listed(r, k + d);
        }
      }
      SameMap(r, m);
    }
  }

  lemma Positive(es: seq<Entry>, j: nat)
    requires Ordered(es) && j < |es|
    ensures es[j].ind >= 0
  {
  }

  /** Every operation answers what the map answers. */
  lemma AnswerContents(es: seq<Entry>, op: Op)
    requires Ordered(es) && Legal(es, op)
    ensures MapAnswers(Contents(es), op, Answered(es, op))
  {
    match op
    case Insert(_, _) =>
    case Remove(i) => ReferenceIs(es, i);
    case Look(i) =>
    case Shift(n) => TakenContents(es, n);
    case RShift(n, s) =>
      RShiftContents(es, n, s);
      ContentsCount(ShiftedRight(es, n, s));
    case Flush =>
  }

  lemma TakenContents(es: seq<Entry>, n: int)
    requires Ordered(es)
    ensures MapAnswers(Contents(es), Shift(n), Taken(es[..Dropped(|es|, n)]))
  {
    var r := es[..Dropped(|es|, n)];
    PrefixOrdered(es, Dropped(|es|, n));
    hide Contents, Rank, Ordered, Lowered, Raised, Least;
    var m := Least(Contents(es), n);
    forall j | 0 <= j < |r|
      ensures r[j].ind in m && m[r[j].ind] == r[j].value
    {
      Listed(es, j);
      RankIs(es, j);
      LeastHas(Contents(es), n, es[j].ind);
    }
    forall x | x in m.Keys
      ensures x in Contents(r).Keys
    {
      LeastHas(Contents(es), n, x);
      var k := Found(es, x);
      RankIs(es, k);
      Listed(r, k);
    }
    SameMap(r, m);
  }

  /** A whole run on the array is the same run on the map, answer by answer. */
  lemma {:induction false} RunsAgree(es: seq<Entry>, ops: seq<Op>)
    requires Ordered(es) && AllLegal(es, ops)
    ensures Ordered(AfterAll(es, ops)) && Contents(AfterAll(es, ops)) == MapAfterAll(Contents(es), ops)
    ensures MapAnswersAll(Contents(es), ops, Answers(es, ops))
    decreases |ops|
  {
    hide Contents, After, MapAfter, Ordered, Answered, MapAnswers;
    if ops != [] {
      AfterContents(es, ops[0]);
      AnswerContents(es, ops[0]);
      RunsAgree(After(es, ops[0]), ops[1..]);
      var rest := Answers(After(es, ops[0]), ops[1..]);
      assert Answers(es, ops)[1..] == rest;
    }
  }
}
