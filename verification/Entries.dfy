/** What a sparse indexed array holds: its entries in increasing order of index, and the map they stand for. */
module Entries {
  import opened Integers
  import opened Options

  datatype Entry = Entry(ind: int, value: Option<string>)

  /** Indices are non-negative and strictly increasing. */
  predicate Ordered(es: seq<Entry>) {
    && (forall i :: 0 <= i < |es| ==> es[i].ind >= 0)
    && (forall i, j :: 0 <= i < j < |es| ==> es[i].ind < es[j].ind)
  }

  /** The array as a map from index to value. */
  ghost function Contents(es: seq<Entry>): (m: map<int, Option<string>>)
    requires Ordered(es)
  {
    map k | 0 <= k < |es| :: es[k].ind := es[k].value
  }

  function LastIndex(es: seq<Entry>): int {
    if es == [] then -1 else es[|es| - 1].ind
  }

  /** The value at an index; an unset element has none. */
  ghost function Reference(es: seq<Entry>, i: int): Option<string>
    requires Ordered(es)
  {
    var m := Contents(es);
    if i in m then m[i] else None
  }

  /** The number of entries below an index. */
  function Below(es: seq<Entry>, i: int): (k: nat)
    ensures k <= |es|
    ensures forall j :: 0 <= j < k ==> es[j].ind < i
    ensures k < |es| ==> es[k].ind >= i
  {
    if es != [] && es[0].ind < i then 1 + Below(es[1..], i) else 0
  }

  predicate Has(es: seq<Entry>, i: int) {
    var k := Below(es, i);
    k < |es| && es[k].ind == i
  }

  /** The entry goes to its place by index, replacing the one that is there. */
  function Inserted(es: seq<Entry>, i: int, v: Option<string>): seq<Entry> {
    var k := Below(es, i);
    es[..k] + [Entry(i, v)] + (if Has(es, i) then es[k + 1..] else es[k..])
  }

  function Removed(es: seq<Entry>, i: int): seq<Entry> {
    var k := Below(es, i);
    if Has(es, i) then es[..k] + es[k + 1..] else es
  }

  /** All indices moved by `d`. */
  function Moved(es: seq<Entry>, d: int): (r: seq<Entry>)
    ensures |r| == |es|
    ensures forall k :: 0 <= k < |es| ==> r[k] == Entry(es[k].ind + d, es[k].value)
  {
    seq(|es|, k requires 0 <= k < |es| => Entry(es[k].ind + d, es[k].value))
  }

  /** The indices from the k-th entry on moved by `d`. */
  function MovedFrom(es: seq<Entry>, k: nat, d: int): (r: seq<Entry>)
    requires k <= |es|
    ensures |r| == |es|
    ensures forall j :: 0 <= j < |es| ==> r[j] == if j < k then es[j] else Entry(es[j].ind + d, es[j].value)
  {
    es[..k] + Moved(es[k..], d)
  }

  /** array_shift: the first n entries go, the others move down by n. */
  function ShiftedLeft(es: seq<Entry>, n: int): seq<Entry> {
    if n <= 0 then es else if n >= |es| then [] else Moved(es[n..], -n)
  }

  /** array_rshift: every index moves up by n and a value, if there is one, becomes element 0. */
  function ShiftedRight(es: seq<Entry>, n: int, s: Option<string>): seq<Entry> {
    if n <= 0 then es else (if s.Some? then [Entry(0, s)] else []) + Moved(es, n)
  }

  // ---------------------------------------------------------------- positions

  /** In ordered entries the place of an index is found by looking at the neighbours. */
  lemma {:induction false} BelowIs(es: seq<Entry>, i: int, k: nat)
    requires Ordered(es) && k <= |es|
    requires (k > 0 ==> es[k - 1].ind < i) && (k < |es| ==> es[k].ind >= i)
    ensures Below(es, i) == k
  {
    if k > 0 {
      assert es[0].ind <= es[k - 1].ind;
      BelowIs(es[1..], i, k - 1);
    }
  }

  /** Looking an index up by position. */
  lemma ReferenceIs(es: seq<Entry>, i: int)
    requires Ordered(es)
    ensures Has(es, i) <==> i in Contents(es)
    ensures Has(es, i) ==> Contents(es)[i] == es[Below(es, i)].value
    ensures Reference(es, i) == if Has(es, i) then es[Below(es, i)].value else None
  {
    if i in Contents(es) {
      var j :| 0 <= j < |es| && es[j].ind == i;
      BelowIs(es, i, j);
    }
  }

  /** Every entry is in the map. */
  lemma Listed(es: seq<Entry>, j: nat)
    requires Ordered(es) && j < |es|
    ensures es[j].ind in Contents(es) && Contents(es)[es[j].ind] == es[j].value
  {
  }

  /** Every key of the map has an entry. */
  lemma Found(es: seq<Entry>, x: int) returns (j: nat)
    requires Ordered(es) && x in Contents(es)
    ensures j < |es| && es[j].ind == x && Contents(es)[x] == es[j].value
  {
    j :| 0 <= j < |es| && es[j].ind == x;
  }

  /** The map of ordered entries is the one that lists each of them and nothing else. */
  lemma SameMap(es: seq<Entry>, m: map<int, Option<string>>)
    requires Ordered(es)
    requires forall j :: 0 <= j < |es| ==> es[j].ind in m && m[es[j].ind] == es[j].value
    requires m.Keys <= Contents(es).Keys
    ensures Contents(es) == m
  {
    assert Contents(es).Keys <= m.Keys;
  }

  /** Ordered entries stand for exactly one map: each map has one list of entries. */
  lemma {:induction false} ContentsDetermineEntries(es: seq<Entry>, fs: seq<Entry>)
    requires Ordered(es) && Ordered(fs) && Contents(es) == Contents(fs)
    ensures es == fs
    decreases |es|
  {
    hide Contents;
    if |es| > 0 && |fs| > 0 {
      Listed(es, 0);
      Listed(fs, 0);
      var j := Found(fs, es[0].ind);
      var i := Found(es, fs[0].ind);
      TailContents(es);
      TailContents(fs);
      ContentsDetermineEntries(es[1..], fs[1..]);
    } else if |es| > 0 {
      Listed(es, 0);
      var _ := Found(fs, es[0].ind);
    } else if |fs| > 0 {
      Listed(fs, 0);
      var _ := Found(es, fs[0].ind);
    }
  }

  lemma TailContents(es: seq<Entry>)
    requires Ordered(es) && es != []
    ensures Ordered(es[1..]) && Contents(es[1..]) == Contents(es) - {es[0].ind}
  {
    hide Contents;
    var t := es[1..];
    var m := Contents(es) - {es[0].ind};
    forall j | 0 <= j < |t|
      ensures t[j].ind in m && m[t[j].ind] == t[j].value
    {
      Listed(es, j + 1);
    }
    forall x | x in m.Keys
      ensures x in Contents(t).Keys
    {
      var k := Found(es, x);
      Listed(t, k - 1);
    }
    SameMap(t, m);
  }

  // ---------------------------------------------------------------- the map and the operations

  /** Where the entries of an insertion come from. */
  lemma InsertedAt(es: seq<Entry>, i: int, v: Option<string>, j: nat)
    requires j < |Inserted(es, i, v)|
    ensures var k := Below(es, i);
            var d := if Has(es, i) then 0 else 1;
            && |Inserted(es, i, v)| == |es| + d
            && Inserted(es, i, v)[j] == if j < k then es[j] else if j == k then Entry(i, v) else es[j - d]
  {
  }

  lemma InsertedOrdered(es: seq<Entry>, i: int, v: Option<string>)
    requires Ordered(es) && i >= 0
    ensures Ordered(Inserted(es, i, v))
    ensures LastIndex(Inserted(es, i, v)) == if i > LastIndex(es) then i else LastIndex(es)
  {
    hide Below, Inserted;
    var r := Inserted(es, i, v);
    InsertedLength(es, i, v);
    forall j | 0 <= j < |r|
      ensures r[j].ind >= 0 && (j > 0 ==> r[j - 1].ind < r[j].ind)
    {
      InsertedAt(es, i, v, j);
      if j > 0 {
        InsertedAt(es, i, v, j - 1);
      }
    }
    StepwiseOrdered(r);
    InsertedAt(es, i, v, |r| - 1);
  }

  lemma InsertedLength(es: seq<Entry>, i: int, v: Option<string>)
    ensures |Inserted(es, i, v)| > 0
  {
  }

  /** Neighbours in order are enough. */
  lemma StepwiseOrdered(es: seq<Entry>)
    requires forall j :: 0 <= j < |es| ==> es[j].ind >= 0
    requires forall j :: 0 < j < |es| ==> es[j - 1].ind < es[j].ind
    ensures Ordered(es)
  {
    forall i, j | 0 <= i < j < |es|
      ensures es[i].ind < es[j].ind
    {
      StepwiseLess(es, i, j);
    }
  }

  lemma {:induction false} StepwiseLess(es: seq<Entry>, i: nat, j: nat)
    requires forall j :: 0 < j < |es| ==> es[j - 1].ind < es[j].ind
    requires i < j < |es|
    ensures es[i].ind < es[j].ind
    decreases j
  {
    if i < j - 1 {
      StepwiseLess(es, i, j - 1);
    }
  }

  /** Insertion is the update of the map. */
  lemma {:induction false} InsertedContents(es: seq<Entry>, i: int, v: Option<string>)
    requires Ordered(es) && i >= 0
    ensures Ordered(Inserted(es, i, v)) && Contents(Inserted(es, i, v)) == Contents(es)[i := v]
  {
    hide Contents, Inserted, Below;
    InsertedOrdered(es, i, v);
    InsertedLength(es, i, v);
    var r, k := Inserted(es, i, v), Below(es, i);
    var d := if Has(es, i) then 0 else 1;
    var m := Contents(es)[i := v];
    InsertedAt(es, i, v, 0);
    forall j | 0 <= j < |r|
      ensures r[j].ind in m && m[r[j].ind] == r[j].value
    {
      InsertedAt(es, i, v, j);
      if j != k {
        Listed(es, if j < k then j else j - d);
      }
    }
    forall x | x in m.Keys
      ensures x in Contents(r).Keys
    {
      if x == i {
        InsertedAt(es, i, v, k);
        Listed(r, k);
      } else {
        var j := Found(es, x);
        var j' := if j < k then j else j + d;
        InsertedAt(es, i, v, j');
        Listed(r, j');
      }
    }
    SameMap(r, m);
  }

  /** Where the entries after a removal come from. */
  lemma RemovedAt(es: seq<Entry>, i: int, j: nat)
    requires Has(es, i) && j < |Removed(es, i)|
    ensures |Removed(es, i)| == |es| - 1
    ensures Removed(es, i)[j] == if j < Below(es, i) then es[j] else es[j + 1]
  {
  }

  lemma OtherIndex(es: seq<Entry>, j: nat, k: nat)
    requires Ordered(es) && j < |es| && k < |es| && j != k
    ensures es[j].ind != es[k].ind
  {
  }

  lemma RemovedNone(es: seq<Entry>, i: int)
    requires !Has(es, i)
    ensures Removed(es, i) == es
  {
  }

  /** Removal takes the key out of the map. */
  lemma {:induction false} RemovedContents(es: seq<Entry>, i: int)
    requires Ordered(es)
    ensures Ordered(Removed(es, i)) && Contents(Removed(es, i)) == Contents(es) - {i}
  {
    hide Contents, Removed, Below, Ordered;
    ReferenceIs(es, i);
    if Has(es, i) {
      RemovedOrdered(es, i);
      var r, k := Removed(es, i), Below(es, i);
      var m := Contents(es) - {i};
      forall j | 0 <= j < |r|
        ensures r[j].ind in m && m[r[j].ind] == r[j].value
      {
        RemovedAt(es, i, j);
        Listed(es, if j < k then j else j + 1);
        OtherIndex(es, if j < k then j else j + 1, k);
      }
      forall x | x in m.Keys
        ensures x in Contents(r).Keys
      {
        var j := Found(es, x);
        var j' := if j < k then j else j - 1;
        RemovedAt(es, i, j');
        Listed(r, j');
      }
      SameMap(r, m);
    } else {
      RemovedNone(es, i);
      assert Contents(es) - {i} == Contents(es);
    }
  }

  lemma RemovedOrdered(es: seq<Entry>, i: int)
    requires Ordered(es) && Has(es, i)
    ensures Ordered(Removed(es, i)) && |Removed(es, i)| == |es| - 1
    ensures LastIndex(Removed(es, i)) ==
            if i != LastIndex(es) then LastIndex(es) else if |es| > 1 then es[|es| - 2].ind else -1
  {
    hide Below, Removed;
    RemovedLength(es, i);
    var r, k := Removed(es, i), Below(es, i);
    forall j | 0 <= j < |r|
      ensures r[j].ind >= 0 && (j > 0 ==> r[j - 1].ind < r[j].ind)
    {
      RemovedAt(es, i, j);
      if j > 0 {
        RemovedAt(es, i, j - 1);
      }
    }
    StepwiseOrdered(r);
    if |r| > 0 {
      RemovedAt(es, i, |r| - 1);
    }
  }

  lemma RemovedLength(es: seq<Entry>, i: int)
    requires Has(es, i)
    ensures |Removed(es, i)| == |es| - 1
  {
  }

  /** The n-th entry has at least index n. */
  lemma {:induction false} IndexAtLeast(es: seq<Entry>, n: nat)
    requires Ordered(es) && n < |es|
    ensures es[n].ind >= n
  {
    if n > 0 {
      IndexAtLeast(es, n - 1);
    }
  }

  /** Shifting out n entries keeps the others in order, none of them below 0, each n lower. */
  lemma ShiftedLeftOrdered(es: seq<Entry>, n: int)
    requires Ordered(es)
    ensures Ordered(ShiftedLeft(es, n))
    ensures LastIndex(ShiftedLeft(es, n)) ==
            if n <= 0 then LastIndex(es) else if n >= |es| then -1 else LastIndex(es) - n
  {
    if 0 < n < |es| {
      IndexAtLeast(es, n);
    }
  }

  /** What is left after a shift, as a map: every index from the n-th entry on, lowered by n. */
  lemma {:induction false} ShiftedLeftContents(es: seq<Entry>, n: int, x: int)
    requires Ordered(es) && 0 < n < |es|
    ensures Ordered(ShiftedLeft(es, n))
    ensures x in Contents(ShiftedLeft(es, n)) <==> x + n in Contents(es) && x + n >= es[n].ind
    ensures x in Contents(ShiftedLeft(es, n)) ==> Reference(ShiftedLeft(es, n), x) == Reference(es, x + n)
  {
    hide Contents;
    ShiftedLeftOrdered(es, n);
    var r := ShiftedLeft(es, n);
    if x in Contents(r) {
      var k := Found(r, x);
      Listed(es, k + n);
    }
    if x + n in Contents(es) && x + n >= es[n].ind {
      var k := Found(es, x + n);
      assert r[k - n] == Entry(es[k].ind - n, es[k].value);
      Listed(r, k - n);
    }
  }

  lemma ShiftedRightOrdered(es: seq<Entry>, n: int, s: Option<string>)
    requires Ordered(es)
    ensures Ordered(ShiftedRight(es, n, s))
  {
  }

  /** Moving right stays within the index type exactly when the largest index does. */
  lemma ShiftedRightFits(es: seq<Entry>, n: int, s: Option<string>)
    requires Ordered(es) && n > 0
    ensures (forall k :: 0 <= k < |es| ==> es[k].ind + n <= INTMAX_MAX) <==> es == [] || LastIndex(es) + n <= INTMAX_MAX
  {
  }

  // ---------------------------------------------------------------- stacks

  /** A pushed value is what a pop takes, and the pop restores the array, from any array. */
  lemma {:induction false} PushPop(es: seq<Entry>, v: string)
    requires Ordered(es)
    ensures ShiftedLeft(ShiftedRight(es, 1, Some(v)), 1) == es
    ensures ShiftedRight(es, 1, Some(v))[0] == Entry(0, Some(v))
  {
    var up := ShiftedRight(es, 1, Some(v));
    assert up[1..] == Moved(es, 1);
    var down := ShiftedLeft(up, 1);
    if es != [] {
      assert down == Moved(Moved(es, 1), -1);
      forall k | 0 <= k < |es|
        ensures down[k] == es[k]
      {
      }
    }
  }
}
