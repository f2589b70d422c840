/** Circular doubly linked lists with a sentinel, as array.c links its elements. */
module Rings {
  import opened Options
  import opened Entries

  class Element {
    var ind: int
    var value: Option<string>
    var next: Element?
    var prev: Element?

    /** array_create_element. */
    constructor (indx: int, v: Option<string>)
      ensures ind == indx && value == v && next == null && prev == null
    {
      ind, value, next, prev := indx, v, null, null;
    }
  }

  function With<T>(ns: seq<T>, k: nat, x: T): (ms: seq<T>)
    requires k <= |ns|
    ensures |ms| == |ns| + 1
    ensures forall i {:trigger ms[i]} :: 0 <= i < |ms| ==>
              ms[i] == if i < k then ns[i] else if i == k then x else ns[i - 1]
  {
    ns[..k] + [x] + ns[k..]
  }

  function Without<T>(ns: seq<T>, k: nat): (ms: seq<T>)
    requires k < |ns|
    ensures |ms| == |ns| - 1
    ensures forall i {:trigger ms[i]} :: 0 <= i < |ms| ==> ms[i] == if i < k then ns[i] else ns[i + 1]
  {
    ns[..k] + ns[k + 1..]
  }

  /** The element at a position of the ring; positions -1 and |ns| are the sentinel. */
  ghost function RingAt(h: Element, ns: seq<Element>, k: int): Element
    requires -1 <= k <= |ns|
  {
    if 0 <= k < |ns| then ns[k] else h
  }

  ghost predicate Distinct(h: Element, ns: seq<Element>) {
    h !in ns && forall i, j :: 0 <= i < j < |ns| ==> ns[i] != ns[j]
  }

  /** Two neighbours point to each other. */
  ghost predicate Link(h: Element, ns: seq<Element>, i: nat)
    requires i <= |ns|
    reads h, ns
  {
    RingAt(h, ns, i - 1).next == RingAt(h, ns, i) && RingAt(h, ns, i).prev == RingAt(h, ns, i - 1)
  }

  /** The ring: distinct elements, every two neighbours linked both ways. */
  ghost predicate Linked(h: Element, ns: seq<Element>)
    reads h, ns
  {
    Distinct(h, ns) && forall i :: 0 <= i <= |ns| ==> Link(h, ns, i)
  }

  /** The data of a list of elements. */
  ghost function EntriesOf(ns: seq<Element>): (es: seq<Entry>)
    reads ns
    ensures |es| == |ns|
    ensures forall i :: 0 <= i < |ns| ==> es[i] == Entry(ns[i].ind, ns[i].value)
  {
    seq(|ns|, i requires 0 <= i < |ns| reads ns => Entry(ns[i].ind, ns[i].value))
  }

  lemma EntriesSplit(ns: seq<Element>, n: nat)
    requires n <= |ns|
    ensures EntriesOf(ns[n..]) == EntriesOf(ns)[n..] && EntriesOf(ns[..n]) == EntriesOf(ns)[..n]
  {
  }

  /** Elements whose data did not change hold the same entries. */
  lemma SameData(ns: seq<Element>, es: seq<Entry>)
    requires |es| == |ns|
    requires forall j :: 0 <= j < |ns| ==> ns[j].ind == es[j].ind && ns[j].value == es[j].value
    ensures EntriesOf(ns) == es
  {
  }

  lemma DistinctAt(h: Element, ns: seq<Element>, i: int, j: int)
    requires Distinct(h, ns) && -1 <= i <= |ns| && -1 <= j <= |ns|
    ensures RingAt(h, ns, i) == RingAt(h, ns, j) <==> i == j || (i in {-1, |ns|} && j in {-1, |ns|})
  {
  }

  lemma LastLink(h: Element, ns: seq<Element>)
    requires Linked(h, ns)
    ensures h.prev == RingAt(h, ns, |ns| - 1)
  {
    assert Link(h, ns, |ns|);
  }

  lemma DistinctWith(h: Element, ns: seq<Element>, x: Element, k: nat)
    requires Distinct(h, ns) && k <= |ns| && x !in ns && x != h
    ensures Distinct(h, With(ns, k, x))
  {
    var ms := With(ns, k, x);
    forall i, j | 0 <= i < j < |ms|
      ensures ms[i] != ms[j]
    {
    }
  }

  lemma LinksWith(h: Element, ns: seq<Element>, x: Element, k: nat)
    requires k <= |ns|
    requires forall i :: 0 <= i <= |ns| && i != k ==> Link(h, ns, i)
    requires RingAt(h, ns, k - 1).next == x && x.prev == RingAt(h, ns, k - 1)
    requires RingAt(h, ns, k).prev == x && x.next == RingAt(h, ns, k)
    ensures var ms := With(ns, k, x); forall i :: 0 <= i <= |ms| ==> Link(h, ms, i)
  {
    var ms := With(ns, k, x);
    forall i | 0 <= i <= |ms|
      ensures Link(h, ms, i)
    {
      if i < k {
        assert Link(h, ns, i);
      } else if i > k + 1 {
        assert Link(h, ns, i - 1);
      }
    }
  }

  lemma DistinctWithout(h: Element, ns: seq<Element>, k: nat)
    requires Distinct(h, ns) && k < |ns|
    ensures Distinct(h, Without(ns, k))
  {
    var ms := Without(ns, k);
    forall i, j | 0 <= i < j < |ms|
      ensures ms[i] != ms[j]
    {
    }
  }

  lemma LinksWithout(h: Element, ns: seq<Element>, k: nat)
    requires k < |ns|
    requires forall i :: 0 <= i <= |ns| && i != k && i != k + 1 ==> Link(h, ns, i)
    requires RingAt(h, ns, k - 1).next == RingAt(h, ns, k + 1) && RingAt(h, ns, k + 1).prev == RingAt(h, ns, k - 1)
    ensures var ms := Without(ns, k); forall i :: 0 <= i <= |ms| ==> Link(h, ms, i)
  {
    var ms := Without(ns, k);
    forall i | 0 <= i <= |ms|
      ensures Link(h, ms, i)
    {
      if i < k {
        assert Link(h, ns, i);
      } else if i > k {
        assert Link(h, ns, i + 1);
      }
    }
  }

  /** ADD_BEFORE: `x` goes in front of `ae`. */
  method AddBefore(ae: Element, x: Element, ghost h: Element, ghost ns: seq<Element>, ghost k: nat)
    requires Linked(h, ns) && k <= |ns| && ae == RingAt(h, ns, k) && x !in ns && x != h
    modifies h, ns, x
    ensures Linked(h, With(ns, k, x))
    ensures EntriesOf(With(ns, k, x)) == With(old(EntriesOf(ns)), k, old(Entry(x.ind, x.value)))
    ensures h.ind == old(h.ind)
  {
    assert Link(h, ns, k);
    ae.prev.next := x;
    x.prev := ae.prev;
    ae.prev := x;
    x.next := ae;
    forall i | 0 <= i <= |ns| && i != k
      ensures Link(h, ns, i)
    {
      hide Distinct;
      assert old(Link(h, ns, i));
      DistinctAt(h, ns, i - 1, k - 1);
      DistinctAt(h, ns, i, k);
    }
    DistinctWith(h, ns, x, k);
    LinksWith(h, ns, x, k);
    SameData(With(ns, k, x), With(old(EntriesOf(ns)), k, old(Entry(x.ind, x.value))));
  }

  /** ADD_AFTER: `x` goes behind `ae`. */
  method AddAfter(ae: Element, x: Element, ghost h: Element, ghost ns: seq<Element>, ghost k: nat)
    requires Linked(h, ns) && k <= |ns| && ae == RingAt(h, ns, k - 1) && x !in ns && x != h
    modifies h, ns, x
    ensures Linked(h, With(ns, k, x))
    ensures EntriesOf(With(ns, k, x)) == With(old(EntriesOf(ns)), k, old(Entry(x.ind, x.value)))
    ensures h.ind == old(h.ind)
  {
    assert Link(h, ns, k);
    ae.next.prev := x;
    x.next := ae.next;
    x.prev := ae;
    ae.next := x;
    forall i | 0 <= i <= |ns| && i != k
      ensures Link(h, ns, i)
    {
      hide Distinct;
      assert old(Link(h, ns, i));
      DistinctAt(h, ns, i - 1, k - 1);
      DistinctAt(h, ns, i, k);
    }
    DistinctWith(h, ns, x, k);
    LinksWith(h, ns, x, k);
    SameData(With(ns, k, x), With(old(EntriesOf(ns)), k, old(Entry(x.ind, x.value))));
  }

  /** Takes an element out of the ring; its own pointers are left as they were. */
  method Unlink(ae: Element, ghost h: Element, ghost ns: seq<Element>, ghost k: nat)
    requires Linked(h, ns) && k < |ns| && ae == ns[k]
    modifies h, ns
    ensures Linked(h, Without(ns, k))
    ensures EntriesOf(Without(ns, k)) == Without(old(EntriesOf(ns)), k)
    ensures h.ind == old(h.ind) && ae.ind == old(ae.ind) && ae.value == old(ae.value)
    ensures ae.next == RingAt(h, ns, k + 1) && ae.prev == RingAt(h, ns, k - 1)
  {
    assert Link(h, ns, k) && Link(h, ns, k + 1);
    ae.next.prev := ae.prev;
    ae.prev.next := ae.next;
    forall i | 0 <= i <= |ns| && i != k && i != k + 1
      ensures Link(h, ns, i)
    {
      hide Distinct;
      assert old(Link(h, ns, i));
      DistinctAt(h, ns, i - 1, k - 1);
      DistinctAt(h, ns, i, k + 1);
    }
    DistinctWithout(h, ns, k);
    LinksWithout(h, ns, k);
    SameData(Without(ns, k), Without(old(EntriesOf(ns)), k));
  }

  /** A new value in an element. */
  method SetValue(ae: Element, v: Option<string>, ghost h: Element, ghost ns: seq<Element>, ghost k: nat)
    requires Linked(h, ns) && k < |ns| && ae == ns[k]
    modifies h, ns
    ensures Linked(h, ns) && h.ind == old(h.ind)
    ensures EntriesOf(ns) == old(EntriesOf(ns))[k := Entry(old(ae.ind), v)]
  {
    ae.value := v;
    forall i | 0 <= i <= |ns|
      ensures Link(h, ns, i)
    {
      hide Distinct;
      assert old(Link(h, ns, i));
    }
    SameData(ns, old(EntriesOf(ns))[k := Entry(old(ae.ind), v)]);
  }

  /** A null-terminated chain holding exactly these elements. */
  ghost predicate Chain(ret: Element?, ns: seq<Element>)
    reads ns
  {
    if ns == [] then ret == null
    else ret == ns[0] && ns[|ns| - 1].next == null && forall i :: 0 <= i < |ns| - 1 ==> ns[i].next == ns[i + 1]
  }

  /** The loops of array_shift and array_rshift that move the indices from one element to the end. A chain that was
      cut off before stays as it is. */
  method Renumber(first: Element, n: int, h: Element, ghost ns: seq<Element>, ghost k: nat,
      ghost chain: Element?, ghost cut: seq<Element>)
    requires Linked(h, ns) && k <= |ns| && first == RingAt(h, ns, k)
    requires Chain(chain, cut) && forall j :: 0 <= j < |cut| ==> cut[j] !in ns
    modifies ns
    ensures Linked(h, ns)
    ensures EntriesOf(ns) == MovedFrom(old(EntriesOf(ns)), k, n)
    ensures h.ind == old(h.ind)
    ensures Chain(chain, cut) && EntriesOf(cut) == old(EntriesOf(cut))
  {
    var ae := first;
    ghost var j := k;
    while ae != h
      invariant k <= j <= |ns| && ae == RingAt(h, ns, j)
      invariant Linked(h, ns)
      invariant forall i :: 0 <= i < |ns| ==> ns[i].ind == (if k <= i < j then old(ns[i].ind) + n else old(ns[i].ind))
      invariant forall i :: 0 <= i < |ns| ==> ns[i].value == old(ns[i].value)
      invariant h.ind == old(h.ind)
      invariant forall i :: 0 <= i < |cut| ==>
        cut[i].next == old(cut[i].next) && cut[i].ind == old(cut[i].ind) && cut[i].value == old(cut[i].value)
      decreases |ns| - j
    {
      assert Link(h, ns, j + 1);
      Relabel(ae, n, h, ns, j);
      ae := ae.next;
      j := j + 1;
    }
    SameData(ns, MovedFrom(old(EntriesOf(ns)), k, n));
    SameData(cut, old(EntriesOf(cut)));
  }

  /** A new index in an element. */
  method Relabel(ae: Element, n: int, ghost h: Element, ghost ns: seq<Element>, ghost j: nat)
    requires Linked(h, ns) && j < |ns| && ae == ns[j]
    modifies ae`ind
    ensures Linked(h, ns) && ae.ind == old(ae.ind) + n
    ensures forall i :: 0 <= i < |ns| && i != j ==> ns[i].ind == old(ns[i].ind)
  {
    ae.ind := ae.ind + n;
    forall i | 0 <= i <= |ns|
      ensures Link(h, ns, i)
    {
      hide Distinct;
      assert old(Link(h, ns, i));
    }
  }

  lemma LinksCut(h: Element, ns: seq<Element>, n: nat)
    requires Distinct(h, ns) && 0 < n < |ns|
    requires forall j :: 0 < j <= |ns| && j != n ==> Link(h, ns, j)
    requires h.next == ns[n] && ns[n].prev == h && ns[n - 1].next == null
    ensures Linked(h, ns[n..]) && Chain(ns[0], ns[..n])
  {
    var kept, cut := ns[n..], ns[..n];
    forall i | 0 <= i <= |kept|
      ensures Link(h, kept, i)
    {
      hide Distinct;
      if i > 0 {
        var j := i + n;
        assert Link(h, ns, j);
      }
    }
    forall i | 0 <= i < n - 1
      ensures cut[i].next == cut[i + 1]
    {
      hide Distinct;
      assert Link(h, ns, i + 1);
    }
  }

  /** Cuts the first `n` elements off the ring. */
  method Cut(ae: Element, h: Element, ghost ns: seq<Element>, ghost n: nat) returns (ret: Element)
    requires Linked(h, ns) && 0 < n < |ns| && ae == ns[n]
    modifies h, ns
    ensures Linked(h, ns[n..]) && Chain(ret, ns[..n])
    ensures EntriesOf(ns[n..]) == old(EntriesOf(ns))[n..] && EntriesOf(ns[..n]) == old(EntriesOf(ns))[..n]
    ensures h.ind == old(h.ind)
  {
    assert Link(h, ns, 0) && Link(h, ns, n);
    ret := h.next;
    ae.prev.next := null;
    h.next := ae;
    ae.prev := h;
    assert EntriesOf(ns) == old(EntriesOf(ns)) by {
      SameData(ns, old(EntriesOf(ns)));
    }
    EntriesSplit(ns, n);
    forall j | 0 < j <= |ns| && j != n
      ensures Link(h, ns, j)
    {
      hide Distinct, EntriesOf;
      assert old(Link(h, ns, j));
      DistinctAt(h, ns, j - 1, n - 1);
      DistinctAt(h, ns, j, n);
      DistinctAt(h, ns, j - 1, -1);
    }
    LinksCut(h, ns, n);
  }

  /** Empties a ring and hands all of its elements back as a chain. */
  method CutAll(h: Element, ghost ns: seq<Element>) returns (ret: Element)
    requires Linked(h, ns) && ns != []
    modifies h, ns
    ensures Linked(h, []) && Chain(ret, ns) && EntriesOf(ns) == old(EntriesOf(ns)) && h.ind == old(h.ind)
  {
    assert Link(h, ns, 0);
    ret := h.next;
    var ae := ret;
    ghost var j := 0;
    assert Link(h, ns, 1);
    DistinctAt(h, ns, 1, |ns|);
    while ae.next != h
      invariant 0 <= j < |ns| && ae == ns[j] && ae.next == RingAt(h, ns, j + 1)
      invariant ae.next == h <==> j + 1 == |ns|
      invariant Linked(h, ns) && EntriesOf(ns) == old(EntriesOf(ns)) && h.ind == old(h.ind)
      invariant forall i :: 0 <= i < |ns| ==> ns[i].next == old(ns[i].next)
      decreases |ns| - j
    {
      ae := ae.next;
      j := j + 1;
      assert Link(h, ns, j + 1);
      DistinctAt(h, ns, j + 1, |ns|);
    }
    ae.next := null;
    h.next, h.prev := h, h;
    SameData(ns, old(EntriesOf(ns)));
    forall i | 0 <= i < |ns| - 1
      ensures ns[i].next == ns[i + 1]
    {
      hide Distinct, EntriesOf;
      assert old(Link(h, ns, i + 1));
      DistinctAt(h, ns, i, |ns| - 1);
      DistinctAt(h, ns, i, -1);
    }
  }

  /** Reads a chain to its end. */
  method Collect(chain: Element?, ghost ns: seq<Element>) returns (es: seq<Entry>)
    requires Chain(chain, ns)
    ensures es == EntriesOf(ns)
  {
    es := [];
    var ae := chain;
    while ae != null
      invariant |es| <= |ns| && es == EntriesOf(ns)[..|es|]
      invariant if |es| < |ns| then ae == ns[|es|] else ae == null
      decreases |ns| - |es|
    {
      es := es + [Entry(ae.ind, ae.value)];
      ae := ae.next;
    }
  }
}
