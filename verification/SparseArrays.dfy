/** Sparse indexed arrays (array.c): a ring of elements, counters, and a roving pointer at which a search may start,
    in either direction. */
module SparseArrays {
  import opened Integers
  import opened Options
  import opened Entries
  import opened Rings

  lemma InsertedNew(es: seq<Entry>, i: int, v: Option<string>, k: nat)
    requires Ordered(es) && k <= |es|
    requires (k > 0 ==> es[k - 1].ind < i) && (k < |es| ==> es[k].ind > i)
    ensures Inserted(es, i, v) == With(es, k, Entry(i, v))
  {
    BelowIs(es, i, k);
  }

  lemma InsertedOver(es: seq<Entry>, i: int, v: Option<string>, k: nat)
    requires Ordered(es) && k < |es| && es[k].ind == i
    ensures Inserted(es, i, v) == es[k := Entry(i, v)]
  {
    BelowIs(es, i, k);
  }

  lemma RemovedOne(es: seq<Entry>, i: int, k: nat)
    requires Ordered(es) && k < |es| && es[k].ind == i
    ensures Has(es, i) && Removed(es, i) == Without(es, k)
  {
    BelowIs(es, i, k);
  }

  /** An index that lies strictly between two neighbours, or beyond the ends, has no entry. */
  lemma Missing(es: seq<Entry>, i: int, k: nat)
    requires Ordered(es) && k <= |es|
    requires (k > 0 ==> es[k - 1].ind < i) && (k < |es| ==> es[k].ind > i)
    ensures !Has(es, i) && Entries.Reference(es, i) == None && Removed(es, i) == es
  {
    BelowIs(es, i, k);
    ReferenceIs(es, i);
  }

  lemma Present(es: seq<Entry>, i: int, k: nat)
    requires Ordered(es) && k < |es| && es[k].ind == i
    ensures Entries.Reference(es, i) == es[k].value
  {
    BelowIs(es, i, k);
    ReferenceIs(es, i);
  }

  /** A list does not hold an element twice. */
  lemma Apart(h: Element, ns: seq<Element>, n: nat)
    requires Linked(h, ns) && n <= |ns|
    ensures forall j :: 0 <= j < n ==> ns[..n][j] !in ns[n..]
    ensures h !in ns
  {
  }

  lemma Slices<T>(s: seq<T>)
    ensures s[0..] == s && s[..0] == [] && s[..|s|] == s && s[|s|..] == []
  {
  }

  lemma ShiftedEnds(es: seq<Entry>, n: int)
    ensures n <= 0 ==> ShiftedLeft(es, n) == es
    ensures n >= |es| ==> ShiftedLeft(es, n) == []
  {
  }

  /** What array_rshift makes of the entries, in its cases. */
  lemma RightShift(es: seq<Entry>, n: int, s: Option<string>)
    requires Ordered(es)
    ensures Ordered(ShiftedRight(es, n, s))
    ensures n <= 0 || (es == [] && s.None?) ==> ShiftedRight(es, n, s) == es
    ensures n > 0 && s.None? ==> ShiftedRight(es, n, s) == MovedFrom(es, 0, n)
    ensures n > 0 && s.Some? ==>
      ShiftedRight(es, n, s) == MovedFrom(With(es, 0, Entry(0, s)), 1, n)
    ensures n > 0 && es == [] && s.Some? ==> ShiftedRight(es, n, s) == With(es, 0, Entry(0, s)) == [Entry(0, s)]
  {
    ShiftedRightOrdered(es, n, s);
    hide Ordered;
    assert es[0..] == es;
    var ms := With(es, 0, Entry(0, s));
    assert ms[1..] == es && ms[..1] == [Entry(0, s)];
  }

  /** How many elements a shift takes. */
  function Dropped(len: nat, n: int): nat {
    if n <= 0 then 0 else if n < len then n else len
  }

  /** The element in front of the sentinel has the largest index. */
  lemma LastInRing(h: Element, ns: seq<Element>)
    requires Linked(h, ns) && h.ind == -1
    ensures h.prev != null && h.prev.ind == LastIndex(EntriesOf(ns))
  {
    LastLink(h, ns);
  }

  lemma Lowering(es: seq<Entry>, n: int, d: int)
    requires 0 < n < |es| && d == -n
    ensures MovedFrom(es[n..], 0, d) == ShiftedLeft(es, n)
  {
    assert es[n..][0..] == es[n..];
  }

  /** The list operations of the second case of array_shift. */
  method CutAndLower(ae: Element, n: int, h: Element, ghost ns: seq<Element>) returns (ret: Element)
    requires Linked(h, ns) && 0 < n < |ns| && ae == ns[n]
    modifies h, ns
    ensures Linked(h, ns[n..]) && h.ind == old(h.ind)
    ensures EntriesOf(ns[n..]) == ShiftedLeft(old(EntriesOf(ns)), n)
    ensures Chain(ret, ns[..n]) && EntriesOf(ns[..n]) == old(EntriesOf(ns))[..n]
  {
    Apart(h, ns, n);
    ghost var es := EntriesOf(ns);
    var down := -n;
    Lowering(es, n, down);
    hide Linked, Link, Distinct, MovedFrom, ShiftedLeft, Chain, EntriesOf;
    ret := Cut(ae, h, ns, n);
    Renumber(ae, down, h, ns[n..], 0, ret, ns[..n]);
  }

  class SparseArray {
    var maxIndex: int
    var numElements: int
    const head: Element
    var lastref: Element?
    ghost var nodes: seq<Element>

    /** What the array holds. */
    ghost function Data(): seq<Entry>
      reads this`nodes, nodes
    {
      EntriesOf(nodes)
    }

    /** The ring is intact and its elements are in order; the counters agree with it. */
    ghost predicate Sound()
      reads this`nodes, this`maxIndex, this`numElements, head, nodes
    {
      && Linked(head, nodes)
      && head.ind == -1
      && Ordered(Data())
      && numElements == |nodes|
      && maxIndex == LastIndex(Data())
    }

    /** The consistency of the whole structure: the roving pointer is null or an element of the list. */
    ghost predicate Valid()
      reads this, head, nodes
    {
      Sound() && (lastref != null ==> lastref in nodes)
    }

    /** array_create. */
    constructor ()
      ensures Valid() && fresh(head) && nodes == [] && Data() == []
      ensures Linked(head, nodes) && head.ind == -1 && lastref == null
    {
      var h := new Element(-1, None);
      head := h;
      maxIndex, numElements, lastref, nodes := -1, 0, null, [];
      new;
      head.next, head.prev := head, head;
    }

    /** array_flush. */
    method Flush()
      requires Valid()
      modifies this, head
      ensures Valid() && Data() == [] && nodes == []
    {
      nodes := [];
      head.next, head.prev := head, head;
      maxIndex, numElements, lastref := -1, 0, null;
    }

    /** Where a search starts and which way it goes: from the roving pointer, or from the first element when the index
        is less than half of the pointer's. */
    method SearchStart(i: int) returns (start: Element, direction: int, ghost k: nat)
      requires Valid() && nodes != [] && i >= nodes[0].ind
      ensures k < |nodes| && start == nodes[k] && direction in {1, -1}
      ensures if direction == 1 then nodes[k].ind <= i else nodes[k].ind > i
    {
      assert Link(head, nodes, 0);
      if lastref != null {
        start := lastref;
        k :| 0 <= k < |nodes| && nodes[k] == lastref;
      } else {
        start, k := head.next, 0;
      }
      OrderedAround(k);
      var startind := start.ind;
      if i < startind / 2 {
        start, k := head.next, 0;
        direction := 1;
      } else if i >= startind {
        direction := 1;
      } else {
        direction := -1;
      }
    }

    lemma OrderedAround(k: nat)
      requires Sound() && k < |nodes|
      ensures nodes[k].ind >= 0
      ensures forall j :: 0 <= j < k ==> nodes[j].ind < nodes[k].ind
      ensures forall j :: k < j < |nodes| ==> nodes[j].ind > nodes[k].ind
    {
      assert forall j :: 0 <= j < |nodes| ==> Data()[j].ind == nodes[j].ind;
    }

    /** The neighbours of an element. */
    lemma Neighbours(k: nat)
      requires Sound() && k < |nodes|
      ensures nodes[k] != head
      ensures nodes[k].next == (if k + 1 < |nodes| then nodes[k + 1] else head)
      ensures nodes[k].prev == (if k > 0 then nodes[k - 1] else head)
    {
      assert Link(head, nodes, k) && Link(head, nodes, k + 1);
    }

    /** The ends of the list, as the sentinel sees them. */
    lemma Ends()
      requires Sound()
      ensures head.next == (if nodes == [] then head else nodes[0])
      ensures head.prev == (if nodes == [] then head else nodes[|nodes| - 1])
      ensures maxIndex == (if nodes == [] then -1 else nodes[|nodes| - 1].ind)
      ensures head.ind == -1 && numElements == |nodes|
      ensures Linked(head, nodes) && Ordered(Data()) && maxIndex == LastIndex(Data())
    {
      assert Link(head, nodes, 0) && Link(head, nodes, |nodes|);
    }

    /** No element has an index that falls between two neighbours or beyond the ends. */
    lemma Gap(i: int, k: nat)
      requires Sound() && k <= |nodes|
      requires (k > 0 ==> nodes[k - 1].ind < i) && (k < |nodes| ==> nodes[k].ind > i)
      ensures !Has(Data(), i) && Entries.Reference(Data(), i) == None && Removed(Data(), i) == Data()
    {
      Missing(Data(), i, k);
    }

    lemma Hit(i: int, k: nat)
      requires Sound() && k < |nodes| && nodes[k].ind == i
      ensures Entries.Reference(Data(), i) == nodes[k].value
    {
      Present(Data(), i, k);
    }

    /** array_reference's loop: the element with the index, or null, and where the roving pointer goes when there is
        none: to the first element past the place. */
    method Closest(i: int, first: Element, direction: int, ghost k: nat)
        returns (found: Element?, start: Element, ghost j: int)
      requires Sound() && k < |nodes| && first == nodes[k] && nodes[0].ind <= i <= maxIndex
      requires direction in {1, -1} && if direction == 1 then nodes[k].ind <= i else nodes[k].ind > i
      ensures found != null ==> 0 <= j < |nodes| && found == nodes[j] && found.ind == i
      ensures found == null ==> Entries.Reference(Data(), i) == None
      ensures start in nodes
    {
      hide Sound, Linked, Ordered, EntriesOf, Has, Removed, Below, Entries.Reference;
      Ends();
      Neighbours(k);
      start := first;
      var ae := first;
      j := k;
      while ae != head
        invariant 0 <= j < |nodes| && ae == nodes[j] != head && start in nodes
        invariant if direction == 1 then ae.ind <= i else ae.ind >= i
        decreases if direction == 1 then |nodes| - j else j
      {
        Neighbours(j);
        if ae.ind == i {
          return ae, start, j;
        }
        ae := if direction == 1 then ae.next else ae.prev;
        j := j + direction;
        if direction == 1 && ae.ind > i {
          start := ae;
          Gap(i, j);
          break;
        } else if direction == -1 && ae.ind < i {
          start := ae;
          Gap(i, j + 1);
          break;
        }
        Neighbours(j);
      }
      found := null;
    }

    /** array_reference: the map's value, whatever the roving pointer was; the array stays as it is. */
    method Reference(i: int) returns (r: Option<string>)
      requires Valid()
      modifies this`lastref
      ensures Valid() && nodes == old(nodes) && Data() == old(Data())
      ensures r == Entries.Reference(Data(), i)
    {
      hide Sound, Linked, Ordered, EntriesOf, Has, Removed, Below, Entries.Reference;
      Ends();
      if numElements == 0 {
        Gap(i, 0);
        return None;
      }
      if i > maxIndex || i < head.next.ind {
        Gap(i, if i > maxIndex then |nodes| else 0);
        return None;
      }
      var first, direction, k := SearchStart(i);
      var ae, start, j := Closest(i, first, direction, k);
      if ae != null {
        Hit(i, j);
        lastref := ae;
        return ae.value;
      }
      lastref := start;
      return None;
    }

    /** After an insertion the counters agree with the list again once the largest index is right. */
    lemma SoundAgain(es: seq<Entry>, i: int, v: Option<string>)
      requires Linked(head, nodes) && head.ind == -1 && numElements == |nodes|
      requires Ordered(es) && i >= 0 && Data() == Inserted(es, i, v)
      requires maxIndex == if i > LastIndex(es) then i else LastIndex(es)
      ensures Sound()
    {
      InsertedOrdered(es, i, v);
    }

    /** Links a new element in at position `k`, as array_insert does at each of its four places. */
    method Hook(ae: Element, x: Element, before: bool, ghost k: nat)
      requires Sound() && k <= |nodes| && x !in nodes && x != head && x.ind >= 0
      requires ae == RingAt(head, nodes, if before then k else k - 1)
      requires (k > 0 ==> nodes[k - 1].ind < x.ind) && (k < |nodes| ==> nodes[k].ind > x.ind)
      modifies this`nodes, this`numElements, this`lastref, head, nodes, x
      ensures nodes == With(old(nodes), k, x) && lastref == x
      ensures Data() == Inserted(old(Data()), old(x.ind), old(x.value))
      ensures Linked(head, nodes) && head.ind == -1 && numElements == |nodes|
    {
      ghost var ns, es, e := nodes, Data(), Entry(x.ind, x.value);
      InsertedNew(es, x.ind, x.value, k);
      hide Linked, Link, Distinct, Ordered, Inserted, Below, Has;
      nodes := With(nodes, k, x);
      numElements := numElements + 1;
      lastref := x;
      assert EntriesOf(ns) == es;
      if before {
        AddBefore(ae, x, head, ns, k);
      } else {
        AddAfter(ae, x, head, ns, k);
      }
    }

    /** The elements after an insertion. */
    static lemma Members(ns: seq<Element>, k: nat, x: Element)
      requires k <= |ns|
      ensures x in With(ns, k, x) && forall e :: e in With(ns, k, x) ==> e in ns || e == x
    {
      assert With(ns, k, x)[k] == x;
    }

    /** A new element anywhere but at the end leaves the largest index as it is. */
    method HookInside(ae: Element, x: Element, before: bool, ghost k: nat)
      requires Sound() && k < |nodes| && x !in nodes && x != head && x.ind >= 0
      requires ae == RingAt(head, nodes, if before then k else k - 1)
      requires (k > 0 ==> nodes[k - 1].ind < x.ind) && nodes[k].ind > x.ind
      modifies this`nodes, this`numElements, this`lastref, head, nodes, x
      ensures Valid() && Data() == Inserted(old(Data()), old(x.ind), old(x.value))
      ensures forall e :: e in nodes ==> e in old(nodes) || e == x
    {
      hide Linked, Ordered, EntriesOf, Has, Inserted, Below, With;
      Ends();
      OrderedAround(k);
      ghost var es, ns, i, v := Data(), nodes, x.ind, x.value;
      Hook(ae, x, before, k);
      SoundAgain(es, i, v);
      Members(ns, k, x);
    }

    /** array_insert's replacement of an existing value. */
    method Replace(ae: Element, v: Option<string>, ghost k: nat)
      requires Sound() && k < |nodes| && ae == nodes[k]
      modifies this`lastref, head, nodes
      ensures Valid() && nodes == old(nodes)
      ensures Data() == Inserted(old(Data()), old(ae.ind), v)
    {
      ghost var es, i := Data(), ae.ind;
      InsertedOver(es, i, v, k);
      OrderedAround(k);
      LastAbove(k);
      hide Linked, Ordered, Has, Inserted, Below;
      lastref := ae;
      SetValue(ae, v, head, nodes, k);
      SoundAgain(es, i, v);
    }

    lemma LastAbove(k: nat)
      requires Sound() && k < |nodes|
      ensures nodes[k].ind <= maxIndex == LastIndex(Data()) && Ordered(Data()) && nodes[k].ind >= 0
      ensures Data()[k].ind == nodes[k].ind
    {
    }

    /** array_insert's loop: it stops at the element with the index, or at the first one past it, and so before it
        comes back to the sentinel. */
    method Place(i: int, start: Element, direction: int, ghost k: nat) returns (ae: Element, ghost j: int)
      requires Sound() && k < |nodes| && start == nodes[k] && nodes[0].ind <= i <= maxIndex
      requires direction in {1, -1} && if direction == 1 then nodes[k].ind <= i else nodes[k].ind > i
      ensures 0 <= j < |nodes| && ae == nodes[j] != head
      ensures
        || ae.ind == i
        || (direction == 1 && ae.ind > i && (j > 0 ==> nodes[j - 1].ind < i))
        || (direction == -1 && ae.ind < i && (j + 1 < |nodes| ==> nodes[j + 1].ind > i))
    {
      hide Sound, Linked, Ordered, EntriesOf;
      Ends();
      Neighbours(k);
      OrderedAround(k);
      ae, j := start, k;
      while ae != head
        invariant 0 <= j < |nodes| && ae == nodes[j] != head
        invariant direction == 1 ==> j == 0 || nodes[j - 1].ind < i
        invariant direction == -1 ==> j == |nodes| - 1 || nodes[j + 1].ind > i
        decreases if direction == 1 then |nodes| - j else j
      {
        if ae.ind == i || (direction == 1 && ae.ind > i) || (direction == -1 && ae.ind < i) {
          return;
        }
        Neighbours(j);
        ae := if direction == 1 then ae.next else ae.prev;
        j := j + direction;
        Neighbours(j);
      }
    }

    /** array_insert: the entry takes its place whatever the roving pointer was; the "problem" return is never taken. */
    method Insert(i: int, v: Option<string>) returns (status: int)
      requires Valid() && i >= 0
      modifies this, head, nodes
      ensures Valid() && status == 0
      ensures Data() == Inserted(old(Data()), i, v)
      ensures forall e :: e in nodes ==> e in old(nodes) || fresh(e)
    {
      hide Sound, Linked, Ordered, EntriesOf, Has, Inserted, Below, With;
      Ends();
      ghost var es := Data();
      var new_ := new Element(i, v);
      assert es == Data();
      if i > maxIndex {
        Hook(head, new_, true, |nodes|);
        maxIndex := i;
        SoundAgain(es, i, v);
        Members(old(nodes), |old(nodes)|, new_);
        return 0;
      } else if i < head.next.ind {
        HookInside(head, new_, false, 0);
        return 0;
      }
      var start, direction, k := SearchStart(i);
      var ae, j := Place(i, start, direction, k);
      if ae.ind == i {
        Replace(ae, v, j);
        return 0;
      } else if direction == 1 && ae.ind > i {
        HookInside(ae, new_, true, j);
        return 0;
      } else if direction == -1 && ae.ind < i {
        HookInside(ae, new_, false, j + 1);
        return 0;
      }
      // array.c returns -1 here; no search comes this far.
      assert false;
    }

    /** array_remove's loop: the element with the index, or null when the search passes the place it would have. */
    method Find(i: int, start: Element, direction: int, ghost k: nat) returns (ae: Element?, ghost j: int)
      requires Sound() && k < |nodes| && start == nodes[k] && nodes[0].ind <= i <= maxIndex
      requires direction in {1, -1} && if direction == 1 then nodes[k].ind <= i else nodes[k].ind > i
      ensures ae != null ==> 0 <= j < |nodes| && ae == nodes[j] && ae.ind == i
      ensures ae == null ==> !Has(Data(), i) && Removed(Data(), i) == Data()
    {
      hide Sound, Linked, Ordered, EntriesOf, Has, Removed, Below;
      Ends();
      Neighbours(k);
      var e := start;
      j := k;
      while e != head
        invariant 0 <= j < |nodes| && e == nodes[j] != head
        invariant if direction == 1 then e.ind <= i else e.ind >= i
        decreases if direction == 1 then |nodes| - j else j
      {
        Neighbours(j);
        if e.ind == i {
          return e, j;
        }
        e := if direction == 1 then e.next else e.prev;
        j := j + direction;
        if direction == 1 && e.ind > i {
          Gap(i, j);
          break;
        } else if direction == -1 && e.ind < i {
          Gap(i, j + 1);
          break;
        }
        Neighbours(j);
      }
      ae := null;
    }

    /** array_remove: the element with the index leaves the list, if there is one, and is handed back. */
    method Remove(i: int) returns (r: Element?)
      requires Valid()
      modifies this, head, nodes
      ensures Valid() && Data() == Removed(old(Data()), i)
      ensures r != null <==> Has(old(Data()), i)
      ensures r != null ==> r in old(nodes) && r !in nodes && r.ind == i && r.value == old(Entries.Reference(Data(), i))
      ensures forall e :: e in nodes ==> e in old(nodes)
    {
      hide Sound, Linked, Ordered, EntriesOf, Has, Removed, Below, Without, Entries.Reference;
      Ends();
      if numElements == 0 {
        Gap(i, 0);
        return null;
      }
      if i > maxIndex || i < head.next.ind {
        Gap(i, if i > maxIndex then |nodes| else 0);
        return null;
      }
      var start, direction, k := SearchStart(i);
      var ae, j := Find(i, start, direction, k);
      if ae != null {
        Hit(i, j);
        Gone(j);
        TakeOut(ae, j);
      }
      return ae;
    }

    lemma Gone(k: nat)
      requires Sound() && k < |nodes|
      ensures Has(Data(), nodes[k].ind)
      ensures nodes[k] !in Without(nodes, k) && forall e :: e in Without(nodes, k) ==> e in nodes
    {
      RemovedOne(Data(), nodes[k].ind, k);
    }

    /** array_remove's unlinking; the roving pointer moves to a neighbour that is not the sentinel, if there is one. */
    method TakeOut(ae: Element, ghost k: nat)
      requires Sound() && k < |nodes| && ae == nodes[k]
      modifies this, head, nodes
      ensures Valid() && Data() == Removed(old(Data()), old(ae.ind))
      ensures nodes == Without(old(nodes), k)
      ensures ae.ind == old(ae.ind) && ae.value == old(ae.value)
    {
      hide Sound, Removed, Has, Without, Linked, Ordered;
      var i := ae.ind;
      ghost var es := Data();
      Ends();
      Nothing();
      LastAbove(k);
      Detach(ae, k);
      LowerMaximum(ae, i, es, k);
      if ae.next != head {
        lastref := ae.next;
      } else if ae.prev != head {
        lastref := ae.prev;
      } else {
        lastref := null;
      }
    }

    /** The largest index after a removal. */
    method LowerMaximum(ae: Element, i: int, ghost es: seq<Entry>, ghost k: nat)
      requires Linked(head, nodes) && head.ind == -1 && numElements == |nodes|
      requires Ordered(es) && k < |es| && es[k].ind == i && Data() == Without(es, k) && maxIndex == LastIndex(es)
      requires ae.prev != null && ae.prev.ind == if k > 0 then Data()[k - 1].ind else -1
      modifies this`maxIndex
      ensures Sound() && Data() == Removed(es, i)
    {
      hide Linked, Ordered, Removed, Without, EntriesOf;
      if i == maxIndex {
        maxIndex := ae.prev.ind;
      }
      SoundStill(es, i, k);
    }

    /** The neighbours of an element that goes: sentinel or not, they stay. */
    lemma Remaining(k: nat)
      requires Sound() && k < |nodes|
      ensures RingAt(head, nodes, k + 1) != head ==> RingAt(head, nodes, k + 1) in Without(nodes, k)
      ensures RingAt(head, nodes, k - 1) != head ==> RingAt(head, nodes, k - 1) in Without(nodes, k)
    {
      assert k > 0 ==> Without(nodes, k)[k - 1] == nodes[k - 1];
      assert k + 1 < |nodes| ==> Without(nodes, k)[k] == nodes[k + 1];
    }

    /** The ring without an element: links and entries. */
    method Detach(ae: Element, ghost k: nat)
      requires Sound() && k < |nodes| && ae == nodes[k]
      modifies this`nodes, this`numElements, head, nodes
      ensures Linked(head, nodes) && head.ind == -1 && numElements == |nodes|
      ensures Data() == Without(old(Data()), k) && nodes == Without(old(nodes), k)
      ensures ae.ind == old(ae.ind) && ae.value == old(ae.value)
      ensures ae.next != null && (ae.next != head ==> ae.next in nodes)
      ensures ae.prev != null && (ae.prev != head ==> ae.prev in nodes)
      ensures ae.prev.ind == if k > 0 then Data()[k - 1].ind else -1
    {
      ghost var ns := nodes;
      Remaining(k);
      nodes := Without(nodes, k);
      numElements := numElements - 1;
      hide Linked, Ordered;
      Unlink(ae, head, ns, k);
      assert k > 0 ==> nodes[k - 1] == ns[k - 1];
    }

    /** After a removal the counters agree with the list again once the largest index is right. */
    lemma SoundStill(es: seq<Entry>, i: int, k: nat)
      requires Linked(head, nodes) && head.ind == -1 && numElements == |nodes|
      requires Ordered(es) && k < |es| && es[k].ind == i && Data() == Without(es, k)
      requires maxIndex == if i == LastIndex(es) then (if k > 0 then Data()[k - 1].ind else -1) else LastIndex(es)
      ensures Sound() && Data() == Removed(es, i)
    {
      RemovedOne(es, i, k);
      RemovedOrdered(es, i);
    }

    /** array_shift: the first `n` elements go, in order, as a null-terminated chain unless they are disposed of; the
        others move down by `n`. */
    method Shift(n: int, dispose: bool) returns (ret: Element?)
      requires Valid()
      modifies this, head, nodes
      ensures Valid() && Data() == ShiftedLeft(old(Data()), n)
      ensures nodes == old(nodes)[Dropped(|old(nodes)|, n)..]
      ensures if dispose then ret == null else Chain(ret, old(nodes)[..Dropped(|old(nodes)|, n)])
      ensures !dispose ==> EntriesOf(old(nodes)[..Dropped(|old(nodes)|, n)]) == old(Data())[..Dropped(|old(nodes)|, n)]
    {
      hide Sound, Linked, Ordered, Moved, EntriesOf, ShiftedLeft;
      Ends();
      ghost var es, ns := Data(), nodes;
      Slices(ns);
      Slices(es);
      Nothing();
      ShiftedLeftOrdered(es, n);
      ShiftedEnds(es, n);
      if numElements == 0 || n <= 0 {
        return null;
      }
      lastref := null;
      var ae := Skip(n);
      if ae == head {
        ret := ShiftAll(dispose);
      } else {
        ret := ShiftSome(ae, n);
        ret := if dispose then null else ret;
      }
    }

    lemma Nothing()
      ensures |Data()| == |nodes| && EntriesOf([]) == []
    {
    }

    /** The counting loop of array_shift. */
    method Skip(n: int) returns (ae: Element)
      requires Sound() && nodes != [] && n > 0
      ensures if n < |nodes| then ae == nodes[n] != head else ae == head
    {
      hide Sound, Linked, Ordered, EntriesOf;
      Ends();
      Neighbours(0);
      ae := head.next;
      var i := 0;
      while ae != head && i < n
        invariant 0 <= i <= |nodes| && i <= n && ae == RingAt(head, nodes, i)
        invariant ae == head <==> i == |nodes|
        decreases n - i
      {
        Neighbours(i);
        ae, i := ae.next, i + 1;
        if i < |nodes| {
          Neighbours(i);
        }
      }
    }

    /** The easy case of array_shift: every element goes. */
    method ShiftAll(dispose: bool) returns (ret: Element?)
      requires Valid() && nodes != [] && lastref == null
      modifies this, head, nodes
      ensures Valid() && Data() == [] && nodes == []
      ensures if dispose then ret == null else Chain(ret, old(nodes)) && EntriesOf(old(nodes)) == old(Data())
    {
      if dispose {
        Flush();
        return null;
      }
      ghost var ns := nodes;
      nodes := [];
      maxIndex, numElements := -1, 0;
      ret := CutAll(head, ns);
    }

    /** The other case of array_shift: the list is cut and the indices that stay are lowered. */
    method ShiftSome(ae: Element, n: int) returns (ret: Element)
      requires Sound() && 0 < n < |nodes| && ae == nodes[n] && lastref == null
      modifies this, head, nodes
      ensures Valid()
      ensures Data() == ShiftedLeft(old(Data()), n) && nodes == old(nodes)[n..]
      ensures Chain(ret, old(nodes)[..n]) && EntriesOf(old(nodes)[..n]) == old(Data())[..n]
    {
      hide Linked, Ordered, ShiftedLeft, Chain, LastIndex;
      ShiftedLeftOrdered(Data(), n);
      ret := CutOff(ae, n);
      hide EntriesOf;
      TakeMaximum();
    }

    method CutOff(ae: Element, n: int) returns (ret: Element)
      requires Sound() && 0 < n < |nodes| && ae == nodes[n]
      modifies this`nodes, this`numElements, head, nodes
      ensures Linked(head, nodes) && head.ind == -1 && numElements == |nodes|
      ensures Data() == ShiftedLeft(old(Data()), n) && nodes == old(nodes)[n..]
      ensures Chain(ret, old(nodes)[..n]) && EntriesOf(old(nodes)[..n]) == old(Data())[..n]
    {
      ghost var ns := nodes;
      hide Linked, Ordered, ShiftedLeft, Chain, LastIndex;
      nodes := nodes[n..];
      numElements := numElements - n;
      ret := CutAndLower(ae, n, head, ns);
    }

    /** The largest index, read off the element in front of the sentinel. */
    method TakeMaximum()
      requires Linked(head, nodes) && head.ind == -1 && numElements == |nodes| && Ordered(Data())
      modifies this`maxIndex
      ensures Sound() && Data() == old(Data())
    {
      hide Linked, Ordered;
      LastInRing(head, nodes);
      maxIndex := head.prev.ind;
    }

    /** array_rshift: every index moves up by `n`, and a value, if there is one, becomes element 0. Moving the largest
        index beyond the index type is undefined in C. */
    method RShift(n: int, s: Option<string>) returns (count: int)
      requires Valid() && (n > 0 && nodes != [] ==> maxIndex + n <= INTMAX_MAX)
      modifies this, head, nodes
      ensures Valid() && Data() == ShiftedRight(old(Data()), n, s) && count == |Data()|
      ensures forall e :: e in nodes ==> e in old(nodes) || fresh(e)
    {
      hide Sound, Linked, Ordered, MovedFrom, EntriesOf, ShiftedRight, With;
      Ends();
      Nothing();
      ghost var es, ns := Data(), nodes;
      RightShift(es, n, s);
      if numElements == 0 && s.None? {
        return 0;
      } else if n <= 0 {
        return numElements;
      }
      var ae := head.next;
      ghost var k := 0;
      if s.Some? {
        var new_ := new Element(0, s);
        Front(ae, new_);
        Members(ns, 0, new_);
        k := 1;
        if numElements == 1 {
          maxIndex := 0;
          Nothing();
          assert Sound() by {
            SoundOne(s);
          }
          return 1;
        }
      }
      MoveUp(ae, n, k);
      Nothing();
      return numElements;
    }

    /** A new first element. */
    method Front(ae: Element, x: Element)
      requires Sound() && ae == RingAt(head, nodes, 0) && x !in nodes && x != head
      modifies this`nodes, this`numElements, head, nodes, x
      ensures Linked(head, nodes) && head.ind == -1 && numElements == |nodes| > 0
      ensures nodes == With(old(nodes), 0, x) && ae == RingAt(head, nodes, 1)
      ensures Data() == With(old(Data()), 0, old(Entry(x.ind, x.value)))
    {
      ghost var ns := nodes;
      nodes := With(nodes, 0, x);
      numElements := numElements + 1;
      hide Linked, Ordered;
      AddBefore(ae, x, head, ns, 0);
    }

    /** The renumbering at the end of array_rshift. */
    method MoveUp(ae: Element, n: int, ghost k: nat)
      requires Linked(head, nodes) && head.ind == -1 && numElements == |nodes| && k <= |nodes|
      requires ae == RingAt(head, nodes, k) && Ordered(MovedFrom(Data(), k, n))
      modifies this`maxIndex, this`lastref, head, nodes
      ensures Valid() && nodes == old(nodes) && numElements == |nodes|
      ensures Data() == old(MovedFrom(Data(), k, n))
    {
      hide Linked, Ordered, MovedFrom;
      lastref := null;
      Renumber(ae, n, head, nodes, k, null, []);
      TakeMaximum();
    }

    lemma SoundOne(s: Option<string>)
      requires Linked(head, nodes) && head.ind == -1 && numElements == |nodes| && maxIndex == 0
      requires Data() == [Entry(0, s)]
      ensures Sound()
    {
    }

    /** Links a new last element, with the counters left to the caller. */
    method Append(x: Element)
      requires Linked(head, nodes) && head.ind == -1 && x !in nodes && x != head
      modifies this`nodes, head, nodes, x
      ensures Linked(head, nodes) && head.ind == -1
      ensures nodes == With(old(nodes), |old(nodes)|, x)
      ensures Data() == With(old(Data()), |old(nodes)|, old(Entry(x.ind, x.value)))
    {
      ghost var ns := nodes;
      nodes := With(nodes, |nodes|, x);
      hide Linked;
      AddBefore(head, x, head, ns, |ns|);
    }

    lemma Ahead(k: nat)
      requires Sound() && k <= |nodes|
      ensures RingAt(head, nodes, k) == head <==> k == |nodes|
    {
    }

    /** A copy of an element at the end of a new array. */
    method CopyElement(ae: Element) returns (x: Element)
      requires Linked(head, nodes) && head.ind == -1
      modifies this`nodes, head, nodes
      ensures Linked(head, nodes) && head.ind == -1 && fresh(x)
      ensures nodes == old(nodes) + [x] && Data() == old(Data()) + [old(Entry(ae.ind, ae.value))]
    {
      hide Linked, EntriesOf;
      x := new Element(ae.ind, ae.value);
      Nothing();
      Append(x);
    }

    lemma SamePlace(j: nat, k: nat)
      requires Sound() && j < |nodes| && k < |nodes|
      ensures nodes[j] == nodes[k] <==> j == k
      ensures Data()[j] == Entry(nodes[j].ind, nodes[j].value)
    {
    }

    /** The copying loop. */
    method CopyInto(a1: SparseArray, ghost at: nat)
      requires Sound() && (lastref != null ==> lastref in nodes)
      requires nodes != [] ==> at < |nodes| && nodes[at] == if lastref != null then lastref else nodes[0]
      requires Linked(a1.head, a1.nodes) && a1.head.ind == -1 && a1.nodes == [] && a1.lastref == null
      requires a1 != this && a1.head != head && a1.head !in nodes
      modifies a1`nodes, a1`lastref, a1.head
      ensures Linked(a1.head, a1.nodes) && a1.head.ind == -1
      ensures forall j :: 0 <= j < |a1.nodes| ==> fresh(a1.nodes[j])
      ensures a1.Data() == Data()
      ensures nodes != [] ==> |a1.nodes| == |nodes| && a1.lastref == a1.nodes[at]
      ensures nodes == [] ==> a1.lastref == null
    {
      hide Linked, Ordered, Sound, EntriesOf;
      Ends();
      Nothing();
      a1.Nothing();
      var ae := head.next;
      ghost var k, es := 0, Data();
      Ahead(0);
      while ae != head
        invariant 0 <= k <= |nodes| && ae == RingAt(head, nodes, k) && |a1.nodes| == k
        invariant ae == head <==> k == |nodes|
        invariant Linked(a1.head, a1.nodes) && a1.head.ind == -1
        invariant forall j :: 0 <= j < k ==> fresh(a1.nodes[j])
        invariant a1.Data() == es[..k]
        invariant a1.lastref == if at < k then a1.nodes[at] else null
        decreases |nodes| - k
      {
        assert Data() == es && Sound();
        Neighbours(k);
        SamePlace(k, at);
        var new_ := a1.CopyElement(ae);
        if ae == (if lastref != null then lastref else head.next) {
          a1.lastref := new_;
        }
        ae := ae.next;
        k := k + 1;
        Ahead(k);
      }
    }

    /** array_copy: the same entries in elements of its own, the roving pointer at the same place. */
    method Copy() returns (a1: SparseArray, ghost at: nat)
      requires Valid()
      ensures fresh(a1) && fresh(a1.head) && forall j :: 0 <= j < |a1.nodes| ==> fresh(a1.nodes[j])
      ensures a1.Valid() && a1.Data() == Data()
      ensures if nodes == [] then a1.lastref == null else
        at < |nodes| && nodes[at] == (if lastref != null then lastref else nodes[0]) && a1.lastref == a1.nodes[at]
    {
      hide Linked, Ordered, EntriesOf;
      Ends();
      Nothing();
      at :| if nodes == [] then at == 0 else at < |nodes| && nodes[at] == if lastref != null then lastref else nodes[0];
      a1 := new SparseArray();
      a1.maxIndex := maxIndex;
      a1.numElements := numElements;
      CopyInto(a1, at);
      a1.Nothing();
    }
  }
}
