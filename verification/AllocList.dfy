/** The list of dynamically allocated segments of the reference transactional memory (reference/tm.c lines
    45-99 and 165-198): an intrusive doubly linked list, updated in place. */
module AllocList {

  /** The header of an allocated segment. */
  class Node {
    var prev: Node?
    var next: Node?

    constructor ()
      ensures prev == null && next == null
    {
      prev, next := null, null;
    }
  }

  function NodeAt(ns: seq<Node>, i: int): Node? {
    if 0 <= i < |ns| then ns[i] else null
  }

  predicate Distinct(ns: seq<Node>) {
    forall i, j :: 0 <= i < j < |ns| ==> ns[i] != ns[j]
  }

  /** Both chains spell `ns`: from each node its links lead to its neighbours, or to null at the ends. */
  ghost predicate Linked(ns: seq<Node>)
    reads ns
  {
    forall i :: 0 <= i < |ns| ==> LinkedAt(ns, i)
  }

  ghost predicate LinkedAt(ns: seq<Node>, i: nat)
    requires i < |ns|
    reads ns
  {
    ns[i].next == NodeAt(ns, i + 1) && ns[i].prev == NodeAt(ns, i - 1)
  }

  /** Following `next` from `head` until null visits exactly `ns`, in order. */
  ghost predicate NextSpells(head: Node?, ns: seq<Node>)
    reads ns
  {
    head == NodeAt(ns, 0) && forall i :: 0 <= i < |ns| ==> ns[i].next == NodeAt(ns, i + 1)
  }

  /** Following `prev` from `tail` until null visits exactly `ns`, in reverse. */
  ghost predicate PrevSpells(tail: Node?, ns: seq<Node>)
    reads ns
  {
    tail == NodeAt(ns, |ns| - 1) && forall i :: 0 <= i < |ns| ==> ns[i].prev == NodeAt(ns, i - 1)
  }

  lemma {:induction false} NextSpellsOne(head: Node?, a: seq<Node>, b: seq<Node>)
    requires NextSpells(head, a) && NextSpells(head, b)
    ensures a == b
  {
    if a != [] {
      var next := a[0].next;
      NextSpellsOne(next, a[1..], b[1..]);
      assert a == [a[0]] + a[1..] && b == [b[0]] + b[1..];
    }
  }

  lemma {:induction false} PrevSpellsOne(tail: Node?, a: seq<Node>, b: seq<Node>)
    requires PrevSpells(tail, a) && PrevSpells(tail, b)
    ensures a == b
  {
    if a != [] {
      var m, n := |a| - 1, |b| - 1;
      PrevSpellsOne(a[m].prev, a[..m], b[..n]);
      assert a == a[..m] + [a[m]] && b == b[..n] + [b[n]];
    }
  }

  /** In a linked list the next chain from the head and the prev chain from the tail each spell the list,
      and nothing else. */
  lemma BothChainsSpell(ns: seq<Node>, other: seq<Node>)
    requires Linked(ns)
    ensures NextSpells(NodeAt(ns, 0), ns) && PrevSpells(NodeAt(ns, |ns| - 1), ns)
    ensures NextSpells(NodeAt(ns, 0), other) ==> other == ns
    ensures PrevSpells(NodeAt(ns, |ns| - 1), other) ==> other == ns
  {
    forall i | 0 <= i < |ns| ensures ns[i].next == NodeAt(ns, i + 1) && ns[i].prev == NodeAt(ns, i - 1) {
      assert LinkedAt(ns, i);
    }
    if NextSpells(NodeAt(ns, 0), other) { NextSpellsOne(NodeAt(ns, 0), ns, other); }
    if PrevSpells(NodeAt(ns, |ns| - 1), other) { PrevSpellsOne(NodeAt(ns, |ns| - 1), ns, other); }
  }

  /** The sequence without its entry `k`. */
  function Without<T>(s: seq<T>, k: nat): (r: seq<T>)
    requires k < |s|
    ensures |r| == |s| - 1
    ensures forall i :: 0 <= i < |r| ==> r[i] == if i < k then s[i] else s[i + 1]
  {
    s[..k] + s[k + 1..]
  }

  lemma WithoutDistinct(ns: seq<Node>, k: nat)
    requires Distinct(ns) && k < |ns|
    ensures Distinct(Without(ns, k))
    ensures forall n :: n in Without(ns, k) <==> n in ns && n != ns[k]
  {
    var r := Without(ns, k);
    forall n | n in ns && n != ns[k] ensures n in r {
      var i :| 0 <= i < |ns| && ns[i] == n;
      assert r[if i < k then i else i - 1] == n;
    }
  }

  lemma DistinctAppend(a: seq<Node>, b: seq<Node>)
    requires Distinct(a) && Distinct(b) && forall n :: n in b ==> n !in a
    ensures Distinct(a + b)
  {
    forall i, j | 0 <= i < j < |a + b| ensures (a + b)[i] != (a + b)[j] {
      if i < |a| <= j { assert (a + b)[j] in b && (a + b)[i] in a; }
    }
  }

  class Region {
    var allocs: Node?
    ghost var live: seq<Node>      // the allocated segments, newest first
    ghost var released: seq<Node>  // the segments given to free(), in order

    ghost predicate Valid()
      reads this, live
    {
      && allocs == NodeAt(live, 0)
      && Distinct(live) && Linked(live)
      && (forall n :: n in live ==> n !in released)
      && Distinct(released)
    }

    constructor ()
      ensures Valid() && live == [] && released == []
    {
      allocs, live, released := null, [], [];
    }

    /** tm_alloc (lines 165-186): the new segment goes to the front. */
    method Alloc() returns (sn: Node)
      requires Valid()
      modifies this, live
      ensures Valid() && fresh(sn)
      ensures live == [sn] + old(live) && released == old(released)
    {
      sn := new Node();
      sn.prev := null;
      sn.next := allocs;
      if sn.next != null { sn.next.prev := sn; }
      allocs := sn;
      live := [sn] + live;
      forall i | 0 <= i < |live| ensures LinkedAt(live, i) {
        if i > 0 { assert old(LinkedAt(live, i - 1)); }
      }
    }

    /** tm_free (lines 188-198) of a live segment, wherever it is in the list. */
    method Free(sn: Node, ghost k: nat)
      requires Valid() && k < |live| && live[k] == sn
      modifies this, live
      ensures Valid()
      ensures live == Without(old(live), k) && released == old(released) + [sn]
    {
      assert LinkedAt(live, k);
      if sn.prev != null { sn.prev.next := sn.next; } else { allocs := sn.next; }
      if sn.next != null { sn.next.prev := sn.prev; }
      live := Without(live, k);
      released := released + [sn];
      WithoutDistinct(old(live), k);
      forall i | 0 <= i < |live| ensures LinkedAt(live, i) {
        assert old(LinkedAt(live, if i < k then i else i + 1));
      }
      assert live != [] ==> live[0] == old(live)[if k == 0 then 1 else 0];
      DistinctAppend(old(released), [sn]);
    }

    /** tm_destroy (lines 86-99): every remaining segment is freed exactly once, newest first.  The links
        of the segments still to come are read before their neighbours are given back. */
    method Destroy()
      requires Valid()
      modifies this
      ensures Valid() && allocs == null && live == []
      ensures released == old(released) + old(live)
    {
      ghost var i := 0;
      while allocs != null
        invariant 0 <= i <= |old(live)|
        invariant allocs == NodeAt(old(live), i)
        invariant live == old(live)[i..] && released == old(released) + old(live)[..i]
        decreases |old(live)| - i
      {
        assert old(LinkedAt(live, i));
        assert allocs !in released;
        var tail := allocs.next;
        released := released + [allocs];
        live := live[1..];
        allocs := tail;
        i := i + 1;
      }
      assert old(live)[..i] == old(live);
      DistinctAppend(old(released), old(live));
    }
  }
}
