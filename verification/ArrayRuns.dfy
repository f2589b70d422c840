/** Whole runs of array operations: what they answer depends on the map from index to value and on nothing else; in
    particular not on where the roving pointer is. */
module ArrayRuns {
  import opened Integers
  import opened Options
  import opened Entries
  import opened Rings
  import opened SparseArrays

  datatype Op =
    | Insert(i: int, v: Option<string>)
    | Remove(i: int)
    | Look(i: int)
    | Shift(n: int)
    | RShift(n: int, s: Option<string>)
    | Flush

  datatype Answer =
    | Status(code: int)
    | Gone(entry: Option<Entry>)
    | Value(value: Option<string>)
    | Taken(entries: seq<Entry>)
    | Count(count: int)
    | Emptied

  /** What the callers see to: indices are not negative and stay within the index type. */
  predicate Legal(es: seq<Entry>, op: Op) {
    match op
    case Insert(i, _) => i >= 0
    case RShift(n, _) => n > 0 && es != [] ==> LastIndex(es) + n <= INTMAX_MAX
    case _ => true
  }

  function After(es: seq<Entry>, op: Op): seq<Entry> {
    match op
    case Insert(i, v) => Inserted(es, i, v)
    case Remove(i) => Removed(es, i)
    case Look(_) => es
    case Shift(n) => ShiftedLeft(es, n)
    case RShift(n, s) => ShiftedRight(es, n, s)
    case Flush => []
  }

  ghost function Answered(es: seq<Entry>, op: Op): Answer
    requires Ordered(es)
  {
    match op
    case Insert(_, _) => Status(0)
    case Remove(i) => Gone(if Has(es, i) then Some(Entry(i, Reference(es, i))) else None)
    case Look(i) => Value(Reference(es, i))
    case Shift(n) => Taken(es[..Dropped(|es|, n)])
    case RShift(n, s) => Count(|ShiftedRight(es, n, s)|)
    case Flush => Emptied
  }

  lemma AfterOrdered(es: seq<Entry>, op: Op)
    requires Ordered(es) && Legal(es, op)
    ensures Ordered(After(es, op))
  {
    hide Inserted, Removed, ShiftedLeft, ShiftedRight, Ordered;
    match op
    case Insert(i, v) => InsertedContents(es, i, v);
    case Remove(i) => RemovedContents(es, i);
    case Look(_) =>
    case Shift(n) => ShiftedLeftOrdered(es, n);
    case RShift(n, s) => ShiftedRightOrdered(es, n, s);
    case Flush => NoneOrdered();
  }

  lemma NoneOrdered()
    ensures Ordered([]) && Contents([]) == map[]
  {
  }

  ghost predicate AllLegal(es: seq<Entry>, ops: seq<Op>)
    decreases |ops|
  {
    ops == [] || (Legal(es, ops[0]) && AllLegal(After(es, ops[0]), ops[1..]))
  }

  function AfterAll(es: seq<Entry>, ops: seq<Op>): seq<Entry>
    decreases |ops|
  {
    if ops == [] then es else AfterAll(After(es, ops[0]), ops[1..])
  }

  ghost function Answers(es: seq<Entry>, ops: seq<Op>): seq<Answer>
    requires Ordered(es) && AllLegal(es, ops)
    decreases |ops|
  {
    if ops == [] then [] else
      AfterOrdered(es, ops[0]);
      [Answered(es, ops[0])] + Answers(After(es, ops[0]), ops[1..])
  }

  /** One operation on the linked structure. */
  method Perform(a: SparseArray, op: Op) returns (answer: Answer)
    requires a.Valid() && Legal(a.Data(), op)
    modifies a, a.head, a.nodes
    ensures a.Valid() && a.Data() == After(old(a.Data()), op)
    ensures answer == Answered(old(a.Data()), op)
    ensures forall e :: e in a.nodes ==> e in old(a.nodes) || fresh(e)
  {
    hide Inserted, Removed, ShiftedLeft, ShiftedRight, Ordered, EntriesOf, Has, Reference;
    a.Ends();
    a.Nothing();
    match op
    case Insert(i, v) =>
      var code := a.Insert(i, v);
      answer := Status(code);
    case Remove(i) =>
      var r := a.Remove(i);
      answer := Gone(if r == null then None else Some(Entry(r.ind, r.value)));
    case Look(i) =>
      var r := a.Reference(i);
      answer := Value(r);
    case Shift(n) =>
      ghost var gone := a.nodes[..Dropped(|a.nodes|, n)];
      var r := a.Shift(n, false);
      var es := Collect(r, gone);
      answer := Taken(es);
    case RShift(n, s) =>
      var r := a.RShift(n, s);
      answer := Count(r);
    case Flush =>
      a.Flush();
      answer := Emptied;
  }

  /** A run of operations: the answers and the final contents follow from the initial contents alone, wherever the
      roving pointer was and whichever way each search went. */
  method Run(a: SparseArray, ops: seq<Op>) returns (answers: seq<Answer>)
    requires a.Valid() && AllLegal(a.Data(), ops)
    modifies a, a.head, a.nodes
    ensures a.Valid() && a.Data() == AfterAll(old(a.Data()), ops)
    ensures answers == Answers(old(a.Data()), ops)
    decreases |ops|
  {
    hide Answered, After;
    if ops == [] {
      return [];
    }
    AfterOrdered(a.Data(), ops[0]);
    var first := Perform(a, ops[0]);
    assert forall j :: 0 <= j < |a.nodes| ==> a.nodes[j] in old(a.nodes) || fresh(a.nodes[j]);
    var rest := Run(a, ops[1..]);
    answers := [first] + rest;
  }
}
