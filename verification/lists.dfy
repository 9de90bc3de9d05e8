/** Finite lists of thread contexts, as the rings and free lists of the kernel hold them. */
module Lists {

  type Tid = nat

  /** A null context pointer. */
  const NULL: int := -1

  ghost predicate Distinct(r: seq<Tid>) {
    forall i, j :: 0 <= i < j < |r| ==> r[i] != r[j]
  }

  ghost function IndexOf(r: seq<Tid>, t: Tid): (i: nat)
    requires t in r
    ensures i < |r| && r[i] == t
  {
    var i :| 0 <= i < |r| && r[i] == t;
    i
  }

  ghost function RemoveAt(r: seq<Tid>, i: nat): seq<Tid>
    requires i < |r|
  {
    r[..i] + r[i+1..]
  }

  ghost function InsertAt(r: seq<Tid>, i: nat, t: Tid): seq<Tid>
    requires i <= |r|
  {
    r[..i] + [t] + r[i..]
  }

  ghost function Without(r: seq<Tid>, t: Tid): seq<Tid> {
    if t in r then RemoveAt(r, IndexOf(r, t)) else r
  }

  lemma RemoveIndex(r: seq<Tid>, i: nat)
    requires i < |r|
    ensures var q := RemoveAt(r, i);
            && |q| == |r| - 1
            && (forall j :: 0 <= j < i ==> q[j] == r[j])
            && (forall j :: i <= j < |q| ==> q[j] == r[j+1])
  {
  }

  lemma InsertIndex(r: seq<Tid>, i: nat, t: Tid)
    requires i <= |r|
    ensures var q := InsertAt(r, i, t);
            && |q| == |r| + 1
            && (forall j :: 0 <= j < i ==> q[j] == r[j])
            && q[i] == t
            && (forall j :: i < j < |q| ==> q[j] == r[j-1])
  {
  }

  lemma WithoutMembers(r: seq<Tid>, t: Tid)
    requires Distinct(r) && t in r
    ensures Distinct(Without(r, t)) && |Without(r, t)| == |r| - 1
    ensures forall u :: u in Without(r, t) <==> u in r && u != t
  {
    var i := IndexOf(r, t);
    var q := Without(r, t);
    forall u | u in r && u != t
      ensures u in q
    {
      var j := IndexOf(r, u);
      assert q[if j < i then j else j - 1] == u;
    }
  }

  lemma InsertMembers(r: seq<Tid>, i: nat, t: Tid)
    requires Distinct(r) && t !in r && i <= |r|
    ensures Distinct(InsertAt(r, i, t)) && |InsertAt(r, i, t)| == |r| + 1
    ensures forall u :: u in InsertAt(r, i, t) <==> u in r || u == t
  {
    var q := InsertAt(r, i, t);
    forall u | u in r
      ensures u in q
    {
      var j := IndexOf(r, u);
      assert q[if j < i then j else j + 1] == u;
    }
    assert q[i] == t;
  }

  /** The best-to-worst order of a futex bucket (a smaller number is a better priority). */
  ghost predicate Sorted(r: seq<Tid>, prio: seq<nat>) {
    && (forall i :: 0 <= i < |r| ==> r[i] < |prio|)
    && forall i, j :: 0 <= i < j < |r| ==> prio[r[i]] <= prio[r[j]]
  }

  lemma WithoutSorted(r: seq<Tid>, t: Tid, prio: seq<nat>)
    requires t in r
    ensures Sorted(r, prio) ==> Sorted(Without(r, t), prio)
  {
    hide RemoveAt;
    RemoveIndex(r, IndexOf(r, t));
  }

  /** Where a thread of priority p enters a bucket: after everyone at least as good. */
  ghost function Slot(r: seq<Tid>, prio: seq<nat>, p: nat): (i: nat)
    ensures i <= |r|
    ensures i > 0 ==> r[i-1] < |prio| && prio[r[i-1]] <= p
    ensures forall j :: i <= j < |r| ==> r[j] < |prio| ==> prio[r[j]] > p
  {
    if r == [] then 0
    else if r[|r|-1] < |prio| && prio[r[|r|-1]] <= p then |r|
    else Slot(r[..|r|-1], prio, p)
  }

  /** The slot separates those at least as good as p from the others. */
  lemma SlotSplits(r: seq<Tid>, prio: seq<nat>, p: nat)
    requires Sorted(r, prio)
    ensures forall j :: 0 <= j < |r| ==> (j < Slot(r, prio, p) <==> prio[r[j]] <= p)
  {
    hide Slot;
    var i := Slot(r, prio, p);
    forall j | 0 <= j < i
      ensures prio[r[j]] <= p
    {
      assert prio[r[j]] <= prio[r[i-1]];
    }
  }

  lemma InsertedSorted(r: seq<Tid>, prio: seq<nat>, i: nat, t: Tid)
    requires Sorted(r, prio) && t < |prio| && i <= |r|
    requires forall j :: 0 <= j < |r| ==> (j < i <==> prio[r[j]] <= prio[t])
    ensures Sorted(InsertAt(r, i, t), prio)
  {
    var q := InsertAt(r, i, t);
    forall a, b | 0 <= a < b < |q|
      ensures q[a] < |prio| && q[b] < |prio| && prio[q[a]] <= prio[q[b]]
    {
      assert q[a] == if a < i then r[a] else if a == i then t else r[a-1];
      assert q[b] == if b < i then r[b] else if b == i then t else r[b-1];
    }
    assert forall a :: 0 <= a < |q| ==> q[a] == if a < i then r[a] else if a == i then t else r[a-1];
  }

  /** The bucket stays sorted, and t comes after every thread that is at least as good. */
  lemma InsertSorted(r: seq<Tid>, prio: seq<nat>, t: Tid)
    requires Sorted(r, prio) && t < |prio|
    ensures Sorted(InsertAt(r, Slot(r, prio, prio[t]), t), prio)
    ensures forall j :: 0 <= j < |r| ==> (j < Slot(r, prio, prio[t]) <==> prio[r[j]] <= prio[t])
  {
    hide Slot, InsertAt, Sorted;
    SlotSplits(r, prio, prio[t]);
    InsertedSorted(r, prio, Slot(r, prio, prio[t]), t);
  }

  lemma SlotIs(r: seq<Tid>, prio: seq<nat>, p: nat, i: nat)
    requires Sorted(r, prio) && i <= |r|
    requires forall j :: i <= j < |r| ==> prio[r[j]] > p
    requires i > 0 ==> prio[r[i-1]] <= p
    ensures Slot(r, prio, p) == i
  {
    hide Slot;
  }
}
