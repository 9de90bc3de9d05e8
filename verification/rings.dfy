/** Doubly linked rings of contexts, and the pointer surgery of kernel/util/ring/ring.ref.c.
    The links of all contexts are two columns, next and prev, indexed by context; a ring
    cell holds the first context or NULL. */
module Rings {
  import opened Lists

  /** The position after i, and before i, in a cycle of n. */
  ghost function After(i: nat, n: nat): nat {
    if i + 1 >= n then 0 else i + 1
  }

  ghost function Before(i: nat, n: nat): int {
    if i == 0 then n - 1 else i - 1
  }

  ghost predicate Joined(next: seq<int>, prev: seq<int>, a: int, b: int) {
    0 <= a < |next| && 0 <= b < |prev| && next[a] == b && prev[b] == a
  }

  ghost predicate JoinedAt(next: seq<int>, prev: seq<int>, r: seq<Tid>, i: nat) {
    i < |r| && Joined(next, prev, r[i], r[After(i, |r|)])
  }

  /** The ring cell head holds the cycle r, linked both ways. */
  ghost predicate IsRing(next: seq<int>, prev: seq<int>, head: int, r: seq<Tid>) {
    && |next| == |prev|
    && head == (if r == [] then NULL else r[0])
    && Distinct(r)
    && (forall i :: 0 <= i < |r| ==> r[i] < |next|)
    && (forall i :: 0 <= i < |r| ==> JoinedAt(next, prev, r, i))
  }

  /** The cell head holds the singly linked list r; its last context points to NULL. */
  ghost predicate IsList(next: seq<int>, head: int, r: seq<Tid>) {
    && head == (if r == [] then NULL else r[0])
    && Distinct(r)
    && (forall i :: 0 <= i < |r| ==> r[i] < |next|)
    && (forall i :: 0 <= i < |r| ==> PointsOn(next, r, i))
  }

  ghost predicate PointsOn(next: seq<int>, r: seq<Tid>, i: nat) {
    i < |r| && r[i] < |next| && next[r[i]] == (if i + 1 < |r| then r[i+1] else NULL)
  }

  /** The links of every context outside m are untouched. */
  ghost predicate SameOutside(next: seq<int>, prev: seq<int>, next1: seq<int>, prev1: seq<int>, m: seq<Tid>) {
    && |next1| == |next| && |prev1| == |prev|
    && forall u :: 0 <= u < |next| && u < |prev| && u !in m ==> next1[u] == next[u] && prev1[u] == prev[u]
  }

  lemma RingKept(next: seq<int>, prev: seq<int>, next1: seq<int>, prev1: seq<int>, m: seq<Tid>, head: int, r: seq<Tid>)
    requires IsRing(next, prev, head, r) && SameOutside(next, prev, next1, prev1, m)
    requires forall u :: u in r ==> u !in m
    ensures IsRing(next1, prev1, head, r)
  {
    forall i | 0 <= i < |r|
      ensures JoinedAt(next1, prev1, r, i)
    {
      assert JoinedAt(next, prev, r, i);
      assert r[i] in r && r[After(i, |r|)] in r;
    }
  }

  lemma ListKept(next: seq<int>, prev: seq<int>, next1: seq<int>, prev1: seq<int>, m: seq<Tid>, head: int, r: seq<Tid>)
    requires IsList(next, head, r) && |next| == |prev| && SameOutside(next, prev, next1, prev1, m)
    requires forall u :: u in r ==> u !in m
    ensures IsList(next1, head, r)
  {
    forall i | 0 <= i < |r|
      ensures PointsOn(next1, r, i)
    {
      assert PointsOn(next, r, i);
      assert r[i] in r;
    }
  }

  /** Both neighbours of a ring position. */
  lemma RingLinks(next: seq<int>, prev: seq<int>, head: int, r: seq<Tid>, i: nat)
    requires IsRing(next, prev, head, r) && i < |r|
    ensures next[r[i]] == r[After(i, |r|)] && prev[r[i]] == r[Before(i, |r|)]
  {
    assert JoinedAt(next, prev, r, i);
    assert JoinedAt(next, prev, r, Before(i, |r|));
  }

  lemma InsertLink(next: seq<int>, prev: seq<int>, head: int, r: seq<Tid>, i: nat, t: Tid, next1: seq<int>,
                   prev1: seq<int>, j: nat)
    requires IsRing(next, prev, head, r) && r != [] && i <= |r| && t < |next| && t !in r && j <= |r|
    requires var a, b := r[Before(i, |r|)], r[if i == |r| then 0 else i];
             next1 == next[t := b][a := t] && prev1 == prev[t := a][b := t]
    ensures JoinedAt(next1, prev1, InsertAt(r, i, t), j)
  {
    hide InsertAt;
    var q, n := InsertAt(r, i, t), |r|;
    InsertIndex(r, i, t);
    var j0 := if j < i then j else j - 1;
    if j != i && After(j, n + 1) != i {
      assert JoinedAt(next, prev, r, j0);
    }
  }

  lemma RemoveLink(next: seq<int>, prev: seq<int>, head: int, r: seq<Tid>, i: nat, next1: seq<int>, prev1: seq<int>,
                   j: nat)
    requires IsRing(next, prev, head, r) && i < |r| && j < |r| - 1
    requires var a, b := r[Before(i, |r|)], r[After(i, |r|)];
             next1 == next[a := b] && prev1 == prev[b := a]
    ensures JoinedAt(next1, prev1, RemoveAt(r, i), j)
  {
    hide RemoveAt;
    var q, n := RemoveAt(r, i), |r|;
    RemoveIndex(r, i);
    var j0 := if j < i then j else j + 1;
    assert JoinedAt(next, prev, r, j0);
  }

  lemma Inserted(next: seq<int>, prev: seq<int>, head: int, r: seq<Tid>, i: nat, t: Tid, next1: seq<int>,
                 prev1: seq<int>)
    requires IsRing(next, prev, head, r) && r != [] && i <= |r| && t < |next| && t !in r
    requires var a, b := r[Before(i, |r|)], r[if i == |r| then 0 else i];
             next1 == next[t := b][a := t] && prev1 == prev[t := a][b := t]
    ensures IsRing(next1, prev1, if i == 0 then t else head, InsertAt(r, i, t))
    ensures SameOutside(next, prev, next1, prev1, r + [t])
  {
    hide InsertAt;
    InsertIndex(r, i, t);
    InsertMembers(r, i, t);
    forall j | 0 <= j < |r| + 1
      ensures JoinedAt(next1, prev1, InsertAt(r, i, t), j)
    {
      InsertLink(next, prev, head, r, i, t, next1, prev1, j);
    }
  }

  lemma Removed(next: seq<int>, prev: seq<int>, head: int, r: seq<Tid>, i: nat, next1: seq<int>, prev1: seq<int>)
    requires IsRing(next, prev, head, r) && i < |r|
    requires var a, b := r[Before(i, |r|)], r[After(i, |r|)];
             next1 == next[a := b] && prev1 == prev[b := a]
    ensures IsRing(next1, prev1, if |r| == 1 then NULL else if i == 0 then r[1] else head, RemoveAt(r, i))
    ensures SameOutside(next, prev, next1, prev1, r)
  {
    hide RemoveAt;
    RemoveIndex(r, i);
    forall j | 0 <= j < |r| - 1
      ensures JoinedAt(next1, prev1, RemoveAt(r, i), j)
    {
      RemoveLink(next, prev, head, r, i, next1, prev1, j);
    }
  }

  // ---------------------------------------------------------------- the operations, on a ring cell

  /** H2K_ring_next: the context after node, or NULL at the end of the ring. */
  method Next(next: seq<int>, head: int, node: Tid, ghost prev: seq<int>, ghost r: seq<Tid>, ghost i: nat)
    returns (n: int)
    requires IsRing(next, prev, head, r) && i < |r| && node == r[i]
    ensures n == if i + 1 < |r| then r[i+1] else NULL
  {
    RingLinks(next, prev, head, r, i);
    n := if next[node] == head then NULL else next[node];
  }

  /** H2K_ring_remove of the context at position i. */
  method Remove(next0: seq<int>, prev0: seq<int>, head0: int, node: Tid, ghost r: seq<Tid>, ghost i: nat)
      returns (next: seq<int>, prev: seq<int>, head: int)
    requires IsRing(next0, prev0, head0, r) && i < |r| && node == r[i]
    ensures IsRing(next, prev, head, RemoveAt(r, i)) && SameOutside(next0, prev0, next, prev, r)
  {
    hide RemoveAt;
    RingLinks(next0, prev0, head0, r, i);
    next, prev, head := next0, prev0, head0;
    next := next[prev[node] := next[node]];
    prev := prev[next[node] := prev[node]];
    if head == node {
      head := next[node];
      if head == node {
        head := NULL;
      }
    }
    Removed(next0, prev0, head0, r, i, next, prev);
  }

  /** H2K_ring_insert: the context becomes the first of the ring. */
  method Insert(next0: seq<int>, prev0: seq<int>, head0: int, node: Tid, ghost r: seq<Tid>)
      returns (next: seq<int>, prev: seq<int>, head: int)
    requires IsRing(next0, prev0, head0, r) && node < |next0| && node !in r
    ensures IsRing(next, prev, head, InsertAt(r, 0, node)) && SameOutside(next0, prev0, next, prev, r + [node])
  {
    hide InsertAt;
    if head0 == NULL {
      next, prev := next0[node := node], prev0[node := node];
      InsertIndex(r, 0, node);
    } else {
      RingLinks(next0, prev0, head0, r, 0);
      next := next0[node := head0];
      prev := prev0[node := prev0[head0]];
      next := next[prev[node] := node];
      prev := prev[next[node] := node];
      Inserted(next0, prev0, head0, r, 0, node, next, prev);
    }
    head := node;
  }

  /** H2K_ring_append: the context becomes the last of the ring. */
  method Append(next0: seq<int>, prev0: seq<int>, head0: int, node: Tid, ghost r: seq<Tid>)
      returns (next: seq<int>, prev: seq<int>, head: int)
    requires IsRing(next0, prev0, head0, r) && node < |next0| && node !in r
    ensures IsRing(next, prev, head, InsertAt(r, |r|, node)) && SameOutside(next0, prev0, next, prev, r + [node])
  {
    hide InsertAt;
    if head0 == NULL {
      next, prev, head := next0[node := node], prev0[node := node], node;
      InsertIndex(r, 0, node);
    } else {
      RingLinks(next0, prev0, head0, r, 0);
      next := next0[node := head0];
      prev := prev0[node := prev0[head0]];
      next := next[prev[node] := node];
      prev := prev[next[node] := node];
      head := head0;
      Inserted(next0, prev0, head0, r, |r|, node, next, prev);
    }
  }

  /** The search of H2K_futex_hash_add_ring, backwards from the tail: the last context that is
      at least as good as me. */
  method Behind(next: seq<int>, prev: seq<int>, head: int, me: Tid, prio: seq<nat>, ghost r: seq<Tid>)
      returns (tmp: Tid, ghost j: nat)
    requires IsRing(next, prev, head, r) && r != [] && me < |next| == |prio| && prio[me] >= prio[head]
    ensures j < |r| && tmp == r[j] && prio[tmp] <= prio[me] && forall i :: j < i < |r| ==> prio[r[i]] > prio[me]
  {
    RingLinks(next, prev, head, r, 0);
    tmp, j := prev[head], |r| - 1;
    while prio[me] < prio[tmp]
      invariant j < |r| && tmp == r[j]
      invariant forall i :: j < i < |r| ==> prio[r[i]] > prio[me]
      decreases j
    {
      RingLinks(next, prev, head, r, j);
      tmp, j := prev[tmp], j - 1;
    }
  }

  /** H2K_futex_hash_add_ring: me goes behind every context that is at least as good. */
  method AddByPrio(next0: seq<int>, prev0: seq<int>, head0: int, me: Tid, prio: seq<nat>, ghost r: seq<Tid>)
      returns (next: seq<int>, prev: seq<int>, head: int)
    requires IsRing(next0, prev0, head0, r) && me < |next0| == |prio| && me !in r && Sorted(r, prio)
    ensures IsRing(next, prev, head, InsertAt(r, Slot(r, prio, prio[me]), me))
    ensures SameOutside(next0, prev0, next, prev, r + [me])
  {
    hide InsertAt, Slot;
    ghost var n := |r|;
    if head0 == NULL {
      next, prev, head := next0[me := me], prev0[me := me], me;
      InsertIndex(r, 0, me);
      return;
    }
    RingLinks(next0, prev0, head0, r, 0);
    if prio[me] < prio[head0] {
      SlotIs(r, prio, prio[me], 0);
      next := next0[me := head0];
      prev := prev0[me := prev0[next[me]]];
      prev := prev[next[me] := me];
      next := next[prev[me] := me];
      head := me;
      Inserted(next0, prev0, head0, r, 0, me, next, prev);
    } else {
      var tmp;
      ghost var j;
      tmp, j := Behind(next0, prev0, head0, me, prio, r);
      SlotIs(r, prio, prio[me], j + 1);
      RingLinks(next0, prev0, head0, r, j);
      next := next0[me := next0[tmp]];
      prev := prev0[me := tmp];
      prev := prev[next[me] := me];
      next := next[prev[me] := me];
      head := head0;
      Inserted(next0, prev0, head0, r, j + 1, me, next, prev);
    }
  }
}
