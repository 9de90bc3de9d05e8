/** The kernel data structures behind the scheduler state: context links, ring cells, the
    ready bitmap and the runlist, changed in place by the entry points.  Every method is
    proved to realise the function of module Sched of the same meaning. */
module Kernel {
  import opened Lists
  import opened Rings
  import Bits
  import S = Sched
  import E = Effects
  import F = Futex
  import V = VmBlocks

  /** All link fields and list cells. */
  datatype Cells = Cells(next: seq<int>, prev: seq<int>, ready: seq<int>, futexhash: seq<int>, free: seq<int>)

  ghost predicate ListAt(c: Cells, lists: seq<seq<Tid>>, k: nat)
    requires |c.ready| == S.PRIOS && |c.futexhash| == S.BUCKETS && |lists| == S.FREE + |c.free| && k < |lists|
  {
    if k < S.FUTEX then IsRing(c.next, c.prev, c.ready[k], lists[k])
    else if k < S.FREE then IsRing(c.next, c.prev, c.futexhash[k - S.FUTEX], lists[k])
    else IsList(c.next, c.free[k - S.FREE], lists[k])
  }

  /** Every ready ring and futex bucket is a well-formed cycle, every free list a chain. */
  ghost predicate Links(c: Cells, lists: seq<seq<Tid>>) {
    && |c.ready| == S.PRIOS && |c.futexhash| == S.BUCKETS && |lists| == S.FREE + |c.free|
    && |c.next| == |c.prev|
    && forall k :: 0 <= k < |lists| ==> ListAt(c, lists, k)
  }

  /** The cells of all lists but k are the same. */
  ghost predicate SameCellsBut(c: Cells, c1: Cells, k: nat) {
    && |c1.ready| == |c.ready| && |c1.futexhash| == |c.futexhash| && |c1.free| == |c.free|
    && (forall j :: 0 <= j < |c.ready| && j != k ==> c1.ready[j] == c.ready[j])
    && (forall j :: 0 <= j < |c.futexhash| && S.FUTEX + j != k ==> c1.futexhash[j] == c.futexhash[j])
    && (forall j :: 0 <= j < |c.free| && S.FREE + j != k ==> c1.free[j] == c.free[j])
  }

  ghost function Moving(d: int): seq<Tid> {
    if d < 0 then [] else [d]
  }

  /** Surgery on list k and the moving thread leaves every other list alone. */
  lemma OtherListKept(c: Cells, c1: Cells, s: S.State, d: int, x: int, k: nat, j: nat)
    requires S.WF(s, d, x) && Links(c, s.lists) && k < |s.lists| && j < |s.lists| && j != k
    requires SameCellsBut(c, c1, k) && SameOutside(c.next, c.prev, c1.next, c1.prev, s.lists[k] + Moving(d))
    ensures ListAt(c1, s.lists, j)
  {
    hide S.Hash;
    assert ListAt(c, s.lists, j);
    var r, m := s.lists[j], s.lists[k] + Moving(d);
    forall u | u in r
      ensures u !in m
    {
      assert S.Belongs(s, d, j, u);
      assert !S.Belongs(s, d, k, u);
    }
    if j < S.FUTEX {
      RingKept(c.next, c.prev, c1.next, c1.prev, m, c.ready[j], r);
    } else if j < S.FREE {
      RingKept(c.next, c.prev, c1.next, c1.prev, m, c.futexhash[j - S.FUTEX], r);
    } else {
      ListKept(c.next, c.prev, c1.next, c1.prev, m, c.free[j - S.FREE], r);
    }
  }

  lemma LinksAfter(c: Cells, c1: Cells, s: S.State, d: int, x: int, k: nat, r: seq<Tid>)
    requires S.WF(s, d, x) && Links(c, s.lists) && k < |s.lists|
    requires SameCellsBut(c, c1, k) && SameOutside(c.next, c.prev, c1.next, c1.prev, s.lists[k] + Moving(d))
    requires ListAt(c1, s.lists[k := r], k)
    ensures Links(c1, s.lists[k := r])
  {
    hide S.Hash;
    var lists := s.lists[k := r];
    forall j | 0 <= j < |lists|
      ensures ListAt(c1, lists, j)
    {
      if j != k { OtherListKept(c, c1, s, d, x, k, j); }
    }
  }

  /** A thread on its way is in no list. */
  lemma NotListed(s: S.State, d: int, x: int, k: nat)
    requires S.WF(s, d, x) && 0 <= d && k < |s.lists|
    ensures d !in s.lists[k]
  {
    hide S.Hash;
    assert !S.Belongs(s, d, k, d);
  }

  // ---------------------------------------------------------------- the structures agree

  /** A valid bit is set iff its ready ring is not empty. */
  ghost predicate ValidsOk(valids: seq<seq<bool>>, lists: seq<seq<Tid>>) {
    && |valids| == 4 && Bits.IsMap(valids) && |lists| >= S.PRIOS
    && forall p :: 0 <= p < S.PRIOS ==> (Bits.Bit(valids, p) <==> lists[p] != [])
  }

  /** The priority array mirrors the runlist. */
  ghost predicate PriosOk(prios: seq<int>, run: seq<int>, prio: seq<nat>) {
    && |prios| == |run|
    && forall h :: 0 <= h < |run| && run[h] < |prio| ==> prios[h] == if run[h] < 0 then -1 else prio[run[h]]
  }

  /** Links, bitmap and priority array realise state s, but for thread d on its way and
      hardware thread x. */
  ghost predicate Good(c: Cells, s: S.State, valids: seq<seq<bool>>, prios: seq<int>, d: int, x: int) {
    && S.WF(s, d, x)
    && |c.next| == |s.status| && Links(c, s.lists)
    && ValidsOk(valids, s.lists)
    && PriosOk(prios, s.run, s.prio)
  }

  ghost function Cell(c: Cells, k: nat): int
    requires k < S.FREE && |c.ready| == S.PRIOS && |c.futexhash| == S.BUCKETS
  {
    if k < S.FUTEX then c.ready[k] else c.futexhash[k - S.FUTEX]
  }

  /** What a method may read without looking into the invariant. */
  lemma Sizes(c: Cells, s: S.State, valids: seq<seq<bool>>, prios: seq<int>, d: int, x: int)
    requires Good(c, s, valids, prios, d, x)
    ensures S.WF(s, d, x) && S.Shape(s)
    ensures |s.status| == |c.next| == |c.prev| == |s.prio| == |s.basePrio| == |s.futex|
    ensures |s.status| == |s.hthread| == |s.vm| == |s.id|
    ensures |c.ready| == S.PRIOS && |c.futexhash| == S.BUCKETS && |s.lists| == S.FREE + |c.free|
    ensures |c.free| == |s.maxCpus| == |s.numCpus|
    ensures |valids| == 4 && Bits.IsMap(valids) && |prios| == |s.run| == |s.waiting|
    ensures forall t :: 0 <= t < |s.prio| ==> s.prio[t] < S.PRIOS
    ensures forall t :: 0 <= t < |s.futex| ==> s.futex[t] < 4 * S.WORD
    ensures forall t :: 0 <= t < |s.vm| ==> s.vm[t] < |s.maxCpus|
  {
    hide S.Hash;
  }

  /** Ring k before a method touches it. */
  lemma RingFacts(c: Cells, s: S.State, valids: seq<seq<bool>>, prios: seq<int>, d: int, x: int, k: nat)
    requires Good(c, s, valids, prios, d, x) && k < S.FREE
    ensures |c.ready| == S.PRIOS && |c.futexhash| == S.BUCKETS && |s.lists| == S.FREE + |c.free|
    ensures IsRing(c.next, c.prev, Cell(c, k), s.lists[k])
    ensures 0 <= d ==> d !in s.lists[k]
    ensures k >= S.FUTEX ==> Sorted(s.lists[k], s.prio)
  {
    hide S.Hash;
    assert ListAt(c, s.lists, k);
    if 0 <= d { NotListed(s, d, x, k); }
  }

  lemma LinkGood(c: Cells, c1: Cells, s: S.State, s1: S.State, valids: seq<seq<bool>>, prios: seq<int>, d: int, x: int,
                 k: nat)
    requires Good(c, s, valids, prios, d, x) && k < |s.lists| && S.WF(s1, NULL, x)
    requires |s1.lists| == |s.lists| && s1.lists == s.lists[k := s1.lists[k]] && s1.run == s.run && s1.prio == s.prio &&
             |s1.status| == |s.status|
    requires SameCellsBut(c, c1, k) && SameOutside(c.next, c.prev, c1.next, c1.prev, s.lists[k] + Moving(d))
    requires ListAt(c1, s1.lists, k) && s1.lists[k] != []
    ensures Good(c1, s1, if k < S.PRIOS then Bits.Put(valids, k, true) else valids, prios, NULL, x)
  {
    hide S.Hash, Bits.Put;
    LinksAfter(c, c1, s, d, x, k, s1.lists[k]);
  }

  lemma UnlinkGood(c: Cells, c1: Cells, s: S.State, s1: S.State, valids: seq<seq<bool>>, prios: seq<int>, t: Tid,
                   x: int, k: nat)
    requires Good(c, s, valids, prios, NULL, x) && k < |s.lists| && S.WF(s1, t, x)
    requires |s1.lists| == |s.lists| && s1.lists == s.lists[k := s1.lists[k]] && s1.run == s.run && s1.prio == s.prio &&
             |s1.status| == |s.status|
    requires SameCellsBut(c, c1, k) && SameOutside(c.next, c.prev, c1.next, c1.prev, s.lists[k])
    requires ListAt(c1, s1.lists, k) && s.lists[k] != []
    ensures Good(c1, s1, if k < S.PRIOS && s1.lists[k] == [] then Bits.Put(valids, k, false) else valids, prios, t, x)
  {
    hide S.Hash, Bits.Put;
    assert s.lists[k] + Moving(NULL) == s.lists[k];
    LinksAfter(c, c1, s, NULL, x, k, s1.lists[k]);
  }

  /** Thread t was linked in at position i of ring k. */
  lemma LinkedIn(c: Cells, c1: Cells, s: S.State, valids: seq<seq<bool>>, prios: seq<int>, t: Tid, x: int,
                 st: S.Status, k: nat, i: nat)
    requires Good(c, s, valids, prios, t, x) && t < |s.status| && k < S.FREE && i <= |s.lists[k]|
    requires if k < S.PRIOS then st == S.Ready && k == s.prio[t]
             else st == S.Blocked && k == S.FUTEX + S.Hash(s.futex[t]) && i == Slot(s.lists[k], s.prio, s.prio[t])
    requires SameCellsBut(c, c1, k) && SameOutside(c.next, c.prev, c1.next, c1.prev, s.lists[k] + [t])
    requires IsRing(c1.next, c1.prev, Cell(c1, k), InsertAt(s.lists[k], i, t))
    ensures Good(c1, S.Link(s, t, st, k, i), if k < S.PRIOS then Bits.Put(valids, k, true) else valids, prios, NULL, x)
    ensures S.Link(s, t, st, k, i) == s.(status := s.status[t := st], lists := s.lists[k := InsertAt(s.lists[k], i, t)])
  {
    hide S.Hash, InsertAt, Bits.Put, Slot;
    if st == S.Blocked { InsertSorted(s.lists[k], s.prio, t); }
    S.LinkKeeps(s, t, st, k, i, x);
    InsertIndex(s.lists[k], i, t);
    LinkGood(c, c1, s, S.Link(s, t, st, k, i), valids, prios, t, x, k);
  }

  /** Thread t was taken out of ring k. */
  lemma TakenOut(c: Cells, c1: Cells, s: S.State, valids: seq<seq<bool>>, prios: seq<int>, t: Tid, x: int, k: nat)
    requires Good(c, s, valids, prios, NULL, x) && t < |s.status| && S.Home(s, t) == k < S.FREE
    requires SameCellsBut(c, c1, k) && SameOutside(c.next, c.prev, c1.next, c1.prev, s.lists[k])
    requires IsRing(c1.next, c1.prev, Cell(c1, k), Without(s.lists[k], t))
    ensures var valids1 := if k < S.PRIOS && Cell(c1, k) == NULL then Bits.Put(valids, k, false) else valids;
            Good(c1, S.Unlink(s, t), valids1, prios, t, x)
    ensures S.Unlink(s, t) == s.(lists := s.lists[k := Without(s.lists[k], t)])
  {
    hide S.Hash, Without, Bits.Put;
    S.UnlinkKeeps(s, t, x);
    UnlinkGood(c, c1, s, S.Unlink(s, t), valids, prios, t, x, k);
  }

  /** Where a listed thread stands. */
  lemma StandsIn(c: Cells, s: S.State, valids: seq<seq<bool>>, prios: seq<int>, t: Tid, x: int, k: nat)
    requires Good(c, s, valids, prios, NULL, x) && t < |s.status| && S.Home(s, t) == k < S.FREE
    ensures t in s.lists[k] && Without(s.lists[k], t) == RemoveAt(s.lists[k], IndexOf(s.lists[k], t))
  {
    hide S.Hash;
    S.UnlinkKeeps(s, t, x);
  }

  /** The ready bitmap finds the best ring. */
  lemma BestIs(c: Cells, s: S.State, valids: seq<seq<bool>>, prios: seq<int>, d: int, x: int, p: nat)
    requires Good(c, s, valids, prios, d, x) && Bits.IsMap(valids) && |valids| == 4 && p <= S.PRIOS
    requires p < S.PRIOS ==> Bits.Bit(valids, p)
    requires forall q :: 0 <= q < p ==> !Bits.Bit(valids, q)
    ensures |s.lists| >= S.PRIOS && S.Best(s.lists, 0) == p
    ensures p < S.PRIOS ==> |c.ready| == S.PRIOS && s.lists[p] != [] && c.ready[p] == s.lists[p][0]
  {
    hide S.Hash, S.Best, Bits.Bit;
    if p < S.PRIOS { RingFacts(c, s, valids, prios, d, x, p); }
  }

  lemma RunRemoveGood(c: Cells, s: S.State, valids: seq<seq<bool>>, prios: seq<int>, t: Tid)
    requires Good(c, s, valids, prios, NULL, NULL) && t < |s.status| && s.status[t] == S.Running
    ensures S.Shape(s) && s.hthread[t] < |s.run| == |prios| && s.run[s.hthread[t]] == t
    ensures Good(c, S.RunRemove(s, t), valids, prios[s.hthread[t] := -1], t, s.hthread[t])
  {
    hide S.Hash, ListAt;
    S.RunRemoveKeeps(s, t);
  }

  lemma RunPushGood(c: Cells, s: S.State, valids: seq<seq<bool>>, prios: seq<int>, t: Tid, h: nat)
    requires Good(c, s, valids, prios, t, h) && t < |s.status| && h < |s.run|
    ensures S.Shape(s) && h < |prios|
    ensures Good(c, S.RunPush(s, t, h), valids, prios[h := s.prio[t]], NULL, NULL)
  {
    hide S.Hash, ListAt;
    S.RunPushKeeps(s, t, h);
  }

  lemma SetPrioGood(c: Cells, s: S.State, valids: seq<seq<bool>>, prios: seq<int>, t: Tid, p: nat)
    requires Good(c, s, valids, prios, NULL, NULL) && t < |s.status| && s.status[t] == S.Running && p < S.PRIOS
    ensures S.Shape(s) && s.hthread[t] < |prios|
    ensures Good(c, S.SetPrio(s, t, p), valids, prios[s.hthread[t] := p], NULL, NULL)
  {
    hide S.Hash, ListAt;
    S.SetPrioKeeps(s, t, p, NULL);
  }

  lemma EditGood(c: Cells, s: S.State, valids: seq<seq<bool>>, prios: seq<int>, t: Tid, p: nat, b: nat, a: nat, x: int)
    requires Good(c, s, valids, prios, t, x) && t < |s.status| && p < S.PRIOS && b < S.PRIOS && a < 4 * S.WORD
    ensures S.Shape(s) && Good(c, S.Edit(s, t, p, b, a), valids, prios, t, x)
  {
    hide S.Hash, ListAt;
    S.EditKeeps(s, t, p, b, a, x);
  }

  lemma NeutralGood(c: Cells, s: S.State, s1: S.State, valids: seq<seq<bool>>, prios: seq<int>, d: int, x: int)
    requires Good(c, s, valids, prios, d, x) && S.SamePlaces(s, s1)
    ensures Good(c, s1, valids, prios, d, x)
  {
    hide S.Hash, ListAt;
    S.NeutralKeeps(s, s1, d, x);
  }

  /** A hardware thread with nothing to run goes into wait mode. */
  lemma Asleep(c: Cells, s: S.State, valids: seq<seq<bool>>, prios: seq<int>, h: nat)
    requires Good(c, s, valids, prios, NULL, h) && h < |s.run| && |s.waiting| == |s.run|
    requires |s.lists| >= S.PRIOS && S.Best(s.lists, 0) == S.PRIOS
    ensures Good(c, s.(waiting := s.waiting[h := true]), valids, prios, NULL, NULL)
  {
    hide S.Hash, ListAt, S.Best;
    S.DoSchedKeeps(s, h);
  }

  lemma Unlinked(s: S.State, t: Tid)
    requires S.Shape(s) && t < |s.status| && S.Home(s, t) != NULL
    ensures var s1 := S.Unlink(s, t);
            s1.status == s.status && s1.status[t] != S.Running && s1.run == s.run
  {
  }

  lemma PushTwice(s: S.State, s1: S.State, t: Tid, h: nat)
    requires S.Shape(s) && S.Shape(s1) && t < |s.status| && h < |s.run| && s1 == s.(hthread := s.hthread[t := h])
    ensures S.RunPush(s1, t, h) == S.RunPush(s, t, h)
  {
    assert s1.hthread[t := h] == s.hthread[t := h];
  }

  lemma RunsAt(s: S.State, h: nat)
    requires S.WF(s, NULL, NULL) && h < |s.run| && s.run[h] != NULL
    ensures 0 <= s.run[h] < |s.status| && s.status[s.run[h]] == S.Running && S.Shape(s) && s.hthread[s.run[h]] == h
  {
  }

  lemma WokenUp(c: Cells, s: S.State, valids: seq<seq<bool>>, prios: seq<int>, h: nat)
    requires Good(c, s, valids, prios, NULL, NULL) && S.Shape(s) && S.Counted(s) && h < |s.run| == |s.waiting| &&
             s.run[h] == NULL
    ensures Good(c, s.(waiting := s.waiting[h := false]), valids, prios, NULL, h)
  {
    hide S.Hash, ListAt, S.Counted;
    S.WakesUp(s, h);
  }

  lemma PrioValid(c: Cells, s: S.State, valids: seq<seq<bool>>, prios: seq<int>, p: nat)
    requires Good(c, s, valids, prios, NULL, NULL) && p < S.PRIOS
    ensures Bits.IsMap(valids) && |valids| == 4 && |s.lists| >= S.PRIOS && (Bits.Bit(valids, p) <==> s.lists[p] != [])
  {
    hide S.Hash, Bits.Bit;
  }

  lemma RunRemoved(s: S.State, t: Tid)
    requires S.WF(s, NULL, NULL) && S.Shape(s) && t < |s.status| && s.status[t] == S.Running
    ensures s.hthread[t] < |s.run| && S.RunRemove(s, t) == s.(run := s.run[s.hthread[t] := NULL])
    ensures s.basePrio[t] < S.PRIOS
  {
    hide S.Hash;
  }

  lemma IsBlocked(s: S.State, t: Tid)
    requires S.Shape(s) && t < |s.status| && s.status[t] == S.Blocked
    ensures S.Home(s, t) != NULL
  {
  }

  // ---------------------------------------------------------------- surgery on the cells

  /** Thread t becomes the last of ready ring p. */
  method AppendCells(c: Cells, valids: seq<seq<bool>>, t: Tid, p: nat, ghost s: S.State, ghost prios: seq<int>,
                     ghost x: int)
      returns (c1: Cells, valids1: seq<seq<bool>>)
    requires Good(c, s, valids, prios, t, x) && t < |s.status| && t < |s.prio| && p == s.prio[t]
    ensures S.Shape(s) && Good(c1, S.ReadyAppend(s, t), valids1, prios, NULL, x)
  {
    hide S.Hash, InsertAt, Good, S.WF, S.Link, Bits.Put;
    Sizes(c, s, valids, prios, t, x);
    RingFacts(c, s, valids, prios, t, x, p);
    var next1, prev1, head := Rings.Append(c.next, c.prev, c.ready[p], t, s.lists[p]);
    c1 := c.(next := next1, prev := prev1, ready := c.ready[p := head]);
    valids1 := Bits.Put(valids, p, true);
    LinkedIn(c, c1, s, valids, prios, t, x, S.Ready, p, |s.lists[p]|);
  }

  /** Thread t becomes the first of ready ring p. */
  method InsertCells(c: Cells, valids: seq<seq<bool>>, t: Tid, p: nat, ghost s: S.State, ghost prios: seq<int>,
                     ghost x: int)
      returns (c1: Cells, valids1: seq<seq<bool>>)
    requires Good(c, s, valids, prios, t, x) && t < |s.status| && t < |s.prio| && p == s.prio[t]
    ensures S.Shape(s) && Good(c1, S.ReadyInsert(s, t), valids1, prios, NULL, x)
  {
    hide S.Hash, InsertAt, Good, S.WF, S.Link, Bits.Put;
    Sizes(c, s, valids, prios, t, x);
    RingFacts(c, s, valids, prios, t, x, p);
    var next1, prev1, head := Rings.Insert(c.next, c.prev, c.ready[p], t, s.lists[p]);
    c1 := c.(next := next1, prev := prev1, ready := c.ready[p := head]);
    valids1 := Bits.Put(valids, p, true);
    LinkedIn(c, c1, s, valids, prios, t, x, S.Ready, p, 0);
  }

  /** Thread t leaves ready ring p. */
  method RemoveCells(c: Cells, valids: seq<seq<bool>>, t: Tid, p: nat, ghost s: S.State, ghost prios: seq<int>,
                     ghost x: int)
      returns (c1: Cells, valids1: seq<seq<bool>>)
    requires Good(c, s, valids, prios, NULL, x) && t < |s.status| && t < |s.prio| && p == s.prio[t] &&
             s.status[t] == S.Ready
    ensures S.Shape(s) && Good(c1, S.Unlink(s, t), valids1, prios, t, x)
  {
    hide S.Hash, Good, S.WF, S.Unlink, Bits.Put, RemoveAt, Without;
    Sizes(c, s, valids, prios, NULL, x);
    RingFacts(c, s, valids, prios, NULL, x, p);
    StandsIn(c, s, valids, prios, t, x, p);
    var next1, prev1, head := Rings.Remove(c.next, c.prev, c.ready[p], t, s.lists[p], IndexOf(s.lists[p], t));
    c1 := c.(next := next1, prev := prev1, ready := c.ready[p := head]);
    valids1 := if head == NULL then Bits.Put(valids, p, false) else valids;
    TakenOut(c, c1, s, valids, prios, t, x, p);
  }

  /** Thread t enters the bucket of its futex address by priority. */
  method BucketAddCells(c: Cells, t: Tid, k: nat, prio: seq<nat>, ghost s: S.State,
                        ghost valids: seq<seq<bool>>, ghost prios: seq<int>, ghost x: int)
      returns (c1: Cells)
    requires Good(c, s, valids, prios, t, x) && t < |s.status| && prio == s.prio
    requires S.Shape(s) && k == S.Hash(s.futex[t])
    ensures Good(c1, S.Enqueue(s, t), valids, prios, NULL, x)
  {
    hide S.Hash, InsertAt, Good, S.WF, S.Link, Slot;
    Sizes(c, s, valids, prios, t, x);
    RingFacts(c, s, valids, prios, t, x, S.FUTEX + k);
    ghost var r := s.lists[S.FUTEX + k];
    var next1, prev1, head := Rings.AddByPrio(c.next, c.prev, c.futexhash[k], t, prio, r);
    c1 := c.(next := next1, prev := prev1, futexhash := c.futexhash[k := head]);
    LinkedIn(c, c1, s, valids, prios, t, x, S.Blocked, S.FUTEX + k, Slot(r, s.prio, s.prio[t]));
  }

  /** Thread t leaves its bucket. */
  method BucketRemoveCells(c: Cells, t: Tid, k: nat, ghost s: S.State,
                           ghost valids: seq<seq<bool>>, ghost prios: seq<int>, ghost x: int)
      returns (c1: Cells)
    requires Good(c, s, valids, prios, NULL, x) && t < |s.status| && s.status[t] == S.Blocked
    requires S.Shape(s) && k == S.Hash(s.futex[t])
    ensures Good(c1, S.Unlink(s, t), valids, prios, t, x)
  {
    hide S.Hash, Good, S.WF, S.Unlink, RemoveAt, Without;
    Sizes(c, s, valids, prios, NULL, x);
    RingFacts(c, s, valids, prios, NULL, x, S.FUTEX + k);
    StandsIn(c, s, valids, prios, t, x, S.FUTEX + k);
    ghost var r := s.lists[S.FUTEX + k];
    var next1, prev1, head := Rings.Remove(c.next, c.prev, c.futexhash[k], t, r, IndexOf(r, t));
    c1 := c.(next := next1, prev := prev1, futexhash := c.futexhash[k := head]);
    TakenOut(c, c1, s, valids, prios, t, x, S.FUTEX + k);
  }

  /** The scan of a bucket stands at position i, and no thread before it waits on a. */
  ghost predicate PosOk(s: S.State, a: nat, pos: int, i: nat)
    requires a < 4 * S.WORD && |s.lists| >= S.FREE
  {
    var r := s.lists[S.FUTEX + S.Hash(a)];
    r != [] ==> i < |r| && pos == r[i] && forall j :: 0 <= j < i && r[j] < |s.futex| ==> s.futex[r[j]] != a
  }

  lemma AtHead(c: Cells, s: S.State, valids: seq<seq<bool>>, prios: seq<int>, a: nat)
    requires Good(c, s, valids, prios, NULL, NULL) && a < 4 * S.WORD
    ensures |s.lists| >= S.FREE && |c.futexhash| == S.BUCKETS && PosOk(s, a, c.futexhash[S.Hash(a)], 0)
  {
    hide S.Hash;
    RingFacts(c, s, valids, prios, NULL, NULL, S.FUTEX + S.Hash(a));
  }

  /** In the bucket of a, a thread waits on a iff the low words agree. */
  lemma LowWordDecides(s: S.State, a: nat, i: nat)
    requires S.WF(s, NULL, NULL) && a < 4 * S.WORD && i < |s.lists[S.FUTEX + S.Hash(a)]|
    ensures var u := s.lists[S.FUTEX + S.Hash(a)][i];
            u < |s.futex| && (s.futex[u] % S.WORD == a % S.WORD <==> s.futex[u] == a)
  {
    var u := s.lists[S.FUTEX + S.Hash(a)][i];
    assert S.Belongs(s, NULL, S.FUTEX + S.Hash(a), u) by { hide S.Hash; }
    if s.futex[u] % S.WORD == a % S.WORD { S.HashSeparates(s.futex[u], a); }
  }

  lemma FirstMatchIs(r: seq<Tid>, futex: seq<nat>, a: nat, i: nat)
    requires i <= |r| && (i < |r| ==> r[i] < |futex| && futex[r[i]] == a)
    requires forall j :: 0 <= j < i && r[j] < |futex| ==> futex[r[j]] != a
    ensures S.FirstMatch(r, futex, a) == i
  {
    hide S.FirstMatch;
  }

  /** The search loop of H2K_futex_hash_remove_one, with the position after the hit. */
  method Scan(c: Cells, futex: seq<nat>, a: nat, pos: int, ghost i: nat, ghost s: S.State,
              ghost valids: seq<seq<bool>>, ghost prios: seq<int>)
      returns (cur: int, after: int, ghost j: nat)
    requires Good(c, s, valids, prios, NULL, NULL) && a < 4 * S.WORD && futex == s.futex
    requires |s.lists| >= S.FREE && PosOk(s, a, pos, i)
    ensures S.Shape(s) && cur == S.Woken(s, a)
    ensures cur != NULL ==>
              var r := s.lists[S.FUTEX + S.Hash(a)];
              j < |r| && j == S.FirstMatch(r, s.futex, a) && cur == r[j] && after == r[After(j, |r|)]
  {
    hide S.Hash, Good, S.WF, S.FirstMatch;
    Sizes(c, s, valids, prios, NULL, NULL);
    ghost var r := s.lists[S.FUTEX + S.Hash(a)];
    RingFacts(c, s, valids, prios, NULL, NULL, S.FUTEX + S.Hash(a));
    var start := c.futexhash[S.Hash(a)];
    cur, after, j := pos, NULL, i;
    if start == NULL {
      FirstMatchIs(r, futex, a, 0);
      return NULL, NULL, 0;
    }
    LowWordDecides(s, a, j);
    while futex[cur] % S.WORD != a % S.WORD
      invariant j < |r| && cur == r[j] && cur < |futex| && (futex[cur] % S.WORD == a % S.WORD <==> futex[cur] == a)
      invariant forall m :: 0 <= m < j && r[m] < |futex| ==> futex[r[m]] != a
      decreases |r| - j
    {
      RingLinks(c.next, c.prev, start, r, j);
      cur := c.next[cur];
      if cur == start {
        FirstMatchIs(r, futex, a, |r|);
        return NULL, NULL, 0;
      }
      j := j + 1;
      LowWordDecides(s, a, j);
    }
    FirstMatchIs(r, futex, a, j);
    RingLinks(c.next, c.prev, start, r, j);
    after := c.next[cur];
  }

  /** After the hit at j has left, the scan goes on at its successor, or at the head. */
  lemma NextPos(s: S.State, a: nat, j: nat, after: int) returns (i: nat)
    requires S.WF(s, NULL, NULL) && a < 4 * S.WORD
    requires var r := s.lists[S.FUTEX + S.Hash(a)];
             j < |r| && j == S.FirstMatch(r, s.futex, a) && after == r[After(j, |r|)]
    ensures var t := s.lists[S.FUTEX + S.Hash(a)][j];
            && t < |s.status| && S.Home(s, t) != NULL && |S.MakeReady(s, t, NULL).lists| == |s.lists|
            && PosOk(S.MakeReady(s, t, NULL), a, after, i)
  {
    hide S.Hash, S.FirstMatch, S.MakeReady, RemoveAt;
    var r := s.lists[S.FUTEX + S.Hash(a)];
    S.WokenIsWaiter(s, a);
    F.MakeReadyLists(s, r[j]);
    F.WithoutFirst(r, j);
    RemoveIndex(r, j);
    i := if j + 1 < |r| then j else 0;
  }

  lemma PrioEdited(c: Cells, s: S.State, valids: seq<seq<bool>>, prios: seq<int>, t: Tid, p: nat)
    requires S.Shape(s) && t < |s.status| && S.Home(s, t) != NULL && p < S.PRIOS
    requires Good(c, S.Unlink(s, t), valids, prios, t, NULL)
    ensures Good(c, S.SetPrio(S.Unlink(s, t), t, p), valids, prios, t, NULL)
  {
    hide S.Hash, Good, Without;
    EditGood(c, S.Unlink(s, t), valids, prios, t, p, s.basePrio[t], s.futex[t], NULL);
    assert S.Edit(S.Unlink(s, t), t, p, s.basePrio[t], s.futex[t]) == S.SetPrio(S.Unlink(s, t), t, p);
  }

  /** Raising a blocked thread changes its priority and its bucket. */
  lemma RaiseIs(s: S.State, p: nat, t: Tid)
    requires S.WF(s, NULL, NULL) && p < S.PRIOS && t < |s.status| && s.status[t] == S.Blocked && s.prio[t] > p
    ensures S.Raise(s, p, t) == s.(prio := s.prio[t := p], lists := S.Raise(s, p, t).lists)
  {
    hide S.Hash, Without, InsertAt, Slot;
  }

  /** A blocked thread that is its own neighbour is alone in its bucket. */
  lemma IsAlone(c: Cells, s: S.State, valids: seq<seq<bool>>, prios: seq<int>, t: Tid)
    requires Good(c, s, valids, prios, NULL, NULL) && t < |s.status| && s.status[t] == S.Blocked
    requires t < |c.next| && c.next[t] == t
    ensures S.Shape(s) && s.lists[S.Home(s, t)] == [t]
  {
    hide S.Hash, Good, S.WF;
    Sizes(c, s, valids, prios, NULL, NULL);
    var k := S.Home(s, t);
    var r := s.lists[k];
    RingFacts(c, s, valids, prios, NULL, NULL, k);
    StandsIn(c, s, valids, prios, t, NULL, k);
    RingLinks(c.next, c.prev, Cell(c, k), r, IndexOf(r, t));
    assert |r| == 1;
  }

  lemma AloneRaise(c: Cells, s: S.State, valids: seq<seq<bool>>, prios: seq<int>, t: Tid, p: nat)
    requires Good(c, s, valids, prios, NULL, NULL) && t < |s.status| && s.status[t] == S.Blocked && s.prio[t] > p
    requires p < S.PRIOS && t < |c.next| && c.next[t] == t
    ensures S.Raise(s, p, t).lists == s.lists && Good(c, S.Raise(s, p, t), valids, prios, NULL, NULL)
  {
    hide S.Hash, ListAt, S.Raise, S.Placed, S.BucketsSorted;
    IsAlone(c, s, valids, prios, t);
    AloneLists(s, t, p);
    S.RaiseKeeps(s, p, t);
    RaiseIs(s, p, t);
  }

  lemma AloneLists(s: S.State, t: Tid, p: nat)
    requires S.WF(s, NULL, NULL) && t < |s.status| && s.status[t] == S.Blocked && s.prio[t] > p && p < S.PRIOS
    requires s.lists[S.Home(s, t)] == [t]
    ensures S.Raise(s, p, t).lists == s.lists
  {
    hide S.Hash;
    var k, s1 := S.Home(s, t), S.SetPrio(S.Unlink(s, t), t, p);
    assert IndexOf([t], t) == 0 && Without([t], t) == [];
    assert s1.lists[k] == [] && InsertAt([], 0, t) == [t];
    assert S.Enqueue(s1, t).lists == s1.lists[k := [t]];
  }

  /** A blocked thread moves up in its bucket. */
  method RaiseCells(c: Cells, t: Tid, k: nat, p: nat, prio: seq<nat>, ghost s: S.State,
                    ghost valids: seq<seq<bool>>, ghost prios: seq<int>)
      returns (c1: Cells)
    requires Good(c, s, valids, prios, NULL, NULL) && t < |s.status| && s.status[t] == S.Blocked && prio == s.prio
    requires S.Shape(s) && k == S.Hash(s.futex[t]) && s.prio[t] > p && S.WF(s, NULL, NULL)
    ensures Good(c1, S.Raise(s, p, t), valids, prios, NULL, NULL)
  {
    hide S.Hash, Good, S.WF, S.Enqueue, S.Unlink;
    Sizes(c, s, valids, prios, NULL, NULL);
    var prio1 := prio[t := p];
    if c.next[t] == t {
      AloneRaise(c, s, valids, prios, t, p);
      return c;
    }
    c1 := BucketRemoveCells(c, t, k, s, valids, prios, NULL);
    UnlinkColumns(s, t);
    PrioEdited(c1, s, valids, prios, t, p);
    ghost var s1 := S.SetPrio(S.Unlink(s, t), t, p);
    Sizes(c1, s1, valids, prios, t, NULL);
    c1 := BucketAddCells(c1, t, k, prio1, s1, valids, prios, NULL);
  }

  lemma UnlinkColumns(s: S.State, t: Tid)
    requires S.Shape(s) && t < |s.status| && S.Home(s, t) != NULL
    ensures S.Unlink(s, t) == s.(lists := S.Unlink(s, t).lists)
  {
  }

  lemma NamedExists(s: S.State, w: nat)
    requires S.Shape(s)
    ensures NULL <= S.NamedBy(s, w) < |s.status|
  {
  }

  /** The state in which H2K_futex_lock_pi goes on to block. */
  lemma RaisedFor(s: S.State, s1: S.State, me: Tid, dest: int)
    requires S.Inv(s) && S.WF(s1, NULL, NULL) && S.SameVms(s, s1) && me < |s.status| && NULL <= dest < |s1.status|
    requires S.Shape(s) && s1.status == s.status && s1.prio == s.prio && s.prio[me] < S.PRIOS
    ensures S.Inv(S.Raise(s1, s.prio[me], dest)) && S.Raise(s1, s.prio[me], dest).status == s.status
  {
    hide S.Hash, S.Raise;
    S.RaiseKeeps(s1, s.prio[me], dest);
    S.RaiseColumns(s1, s.prio[me], dest);
    S.InvFrom(s, S.Raise(s1, s.prio[me], dest));
  }

  lemma Detached(c: Cells, s: S.State, valids: seq<seq<bool>>, prios: seq<int>, t: Tid, x: int)
    requires Good(c, s, valids, prios, NULL, x) && t < |s.status| && s.status[t] == S.VmWait
    ensures Good(c, s, valids, prios, t, x)
  {
    hide S.Hash, ListAt;
    S.WaitingIsDetached(s, t, x);
  }

  lemma FallsAsleep(c: Cells, s: S.State, valids: seq<seq<bool>>, prios: seq<int>, t: Tid, x: int)
    requires Good(c, s, valids, prios, t, x) && t < |s.status|
    ensures Good(c, s.(status := s.status[t := S.VmWait]), valids, prios, NULL, x)
  {
    hide S.Hash, ListAt;
    S.SetWaiting(s, t, x);
  }

  /** The free cell of VM v. */
  lemma FreeHead(c: Cells, s: S.State, valids: seq<seq<bool>>, prios: seq<int>, v: nat)
    requires Good(c, s, valids, prios, NULL, NULL) && v < |c.free|
    ensures |s.lists| == S.FREE + |c.free| && S.Shape(s) && |c.next| == |s.status|
    ensures var r := s.lists[S.FREE + v];
            if r == [] then c.free[v] == NULL
            else
              && c.free[v] == r[0] < |s.status| && s.status[r[0]] == S.Dead && s.vm[r[0]] == v
              && S.Home(s, r[0]) == S.FREE + v
  {
    hide S.Hash;
    assert ListAt(c, s.lists, S.FREE + v);
    if s.lists[S.FREE + v] != [] { S.HeadIsReady(s, NULL, NULL, S.FREE + v); }
  }

  lemma TailPoints(next: seq<int>, r: seq<Tid>)
    requires r != [] && forall i :: 0 <= i < |r| ==> PointsOn(next, r, i)
    ensures forall i :: 0 <= i < |r| - 1 ==> PointsOn(next, r[1..], i)
  {
    forall i | 0 <= i < |r| - 1
      ensures PointsOn(next, r[1..], i)
    {
      assert PointsOn(next, r, i + 1);
    }
  }

  lemma PopGood(c: Cells, c1: Cells, s: S.State, valids: seq<seq<bool>>, prios: seq<int>, v: nat)
    requires Good(c, s, valids, prios, NULL, NULL) && v < |c.free| && 0 <= c.free[v] < |c.next| && S.Shape(s)
    requires c1 == c.(free := c.free[v := c.next[c.free[v]]])
    ensures c.free[v] < |s.status| && S.Home(s, c.free[v]) != NULL
    ensures Good(c1, S.Unlink(s, c.free[v]), valids, prios, c.free[v], NULL)
  {
    hide S.Hash, Bits.Put;
    var k, t := S.FREE + v, c.free[v];
    var r := s.lists[k];
    FreeHead(c, s, valids, prios, v);
    assert ListAt(c, s.lists, k);
    assert PointsOn(c.next, r, 0);
    F.WithoutFirst(r, 0);
    assert Without(r, t) == r[1..];
    TailPoints(c.next, r);
    S.UnlinkKeeps(s, t, NULL);
    UnlinkGood(c, c1, s, S.Unlink(s, t), valids, prios, t, NULL, k);
  }

  lemma PushGood(c: Cells, c1: Cells, s: S.State, valids: seq<seq<bool>>, prios: seq<int>, t: Tid, v: nat, x: int)
    requires Good(c, s, valids, prios, t, x) && t < |s.status| == |s.vm| && s.vm[t] == v < |c.free| && t < |c.next|
    requires c1 == c.(next := c.next[t := c.free[v]], free := c.free[v := t])
    ensures |s.lists| == S.FREE + |c.free| && Good(c1, S.Link(s, t, S.Dead, S.FREE + v, 0), valids, prios, NULL, x)
  {
    hide S.Hash, Bits.Put;
    var k := S.FREE + v;
    var r := s.lists[k];
    assert ListAt(c, s.lists, k);
    NotListed(s, t, x, k);
    var q := InsertAt(r, 0, t);
    assert q == [t] + r;
    forall i | 0 <= i < |q|
      ensures PointsOn(c1.next, q, i)
    {
      if i > 0 { assert PointsOn(c.next, r, i - 1); }
    }
    S.LinkKeeps(s, t, S.Dead, k, 0, x);
    LinkGood(c, c1, s, S.Link(s, t, S.Dead, k, 0), valids, prios, t, x, k);
  }

  lemma LinkColumns(s: S.State, t: Tid, st: S.Status, k: nat, i: nat)
    requires t < |s.status| && k < |s.lists| && i <= |s.lists[k]|
    ensures S.Link(s, t, st, k, i) == s.(status := s.status[t := st], lists := S.Link(s, t, st, k, i).lists)
  {
  }

  lemma DeadLink(s: S.State, t: Tid, k: nat)
    requires t < |s.status| && k < |s.lists| && s.status[t] == S.Dead
    ensures S.Link(s, t, S.Dead, k, 0) == s.(lists := S.Link(s, t, S.Dead, k, 0).lists)
  {
    assert s.status[t := S.Dead] == s.status;
  }

  lemma AppendCommutes(s: S.State, s1: S.State, t: Tid)
    requires S.Shape(s) && S.Shape(s1) && t < |s.status| && s1 == s.(numCpus := s1.numCpus)
    ensures S.ReadyAppend(s1, t) == S.ReadyAppend(s, t).(numCpus := s1.numCpus)
  {
  }

  /** What the priority array says of the running threads. */
  lemma PriosOf(c: Cells, s: S.State, valids: seq<seq<bool>>, prios: seq<int>)
    requires Good(c, s, valids, prios, NULL, NULL)
    ensures |prios| == |s.run| && |s.prio| == |s.status|
    ensures forall h :: 0 <= h < |s.run| ==> (s.run[h] == NULL <==> prios[h] < 0)
    ensures forall h :: 0 <= h < |s.run| && s.run[h] != NULL ==>
              0 <= s.run[h] < |s.prio| && S.IsRunning(s, s.run[h]) && s.prio[s.run[h]] == prios[h]
    ensures forall t: Tid ::
              S.IsRunning(s, t) ==> exists h :: 0 <= h < |s.run| && s.run[h] == t && prios[h] == s.prio[t]
  {
    hide S.Hash, ListAt;
    forall t: Tid | S.IsRunning(s, t)
      ensures exists h :: 0 <= h < |s.run| && s.run[h] == t && prios[h] == s.prio[t]
    {
      assert s.run[s.hthread[t]] == t;
    }
  }

  // ---------------------------------------------------------------- boot

  lemma RingGrows(next: seq<int>, prev: seq<int>, head: int, r: seq<Tid>, next1: seq<int>, prev1: seq<int>)
    requires IsRing(next, prev, head, r) && next <= next1 && prev <= prev1 && |next1| == |prev1|
    ensures IsRing(next1, prev1, head, r)
  {
    forall i | 0 <= i < |r|
      ensures JoinedAt(next1, prev1, r, i)
    {
      assert JoinedAt(next, prev, r, i);
    }
  }

  lemma ListGrows(next: seq<int>, head: int, r: seq<Tid>, next1: seq<int>)
    requires IsList(next, head, r) && next <= next1
    ensures IsList(next1, head, r)
  {
    forall i | 0 <= i < |r|
      ensures PointsOn(next1, r, i)
    {
      assert PointsOn(next, r, i);
    }
  }

  /** One more context in front of a chain. */
  lemma DownList(next: seq<int>, head: int, base: nat, i: nat)
    requires |next| == base + i && IsList(next, head, V.Down(base, i))
    ensures IsList(next + [head], base + i, V.Down(base, i + 1))
  {
    hide V.Down;
    var r, q := V.Down(base, i), V.Down(base, i + 1);
    assert q == [base + i] + r;
    forall j | 0 <= j < |q|
      ensures PointsOn(next + [head], q, j)
    {
      if j > 0 { assert PointsOn(next, r, j - 1); }
    }
  }

  /** The links after a VM block was added. */
  lemma AddVmLinks(c: Cells, c1: Cells, lists: seq<seq<Tid>>, r: seq<Tid>)
    requires Links(c, lists) && c.next <= c1.next && c.prev <= c1.prev && |c1.next| == |c1.prev|
    requires c1.ready == c.ready && c1.futexhash == c.futexhash && |c1.free| == |c.free| + 1 && c.free <= c1.free
    requires IsList(c1.next, c1.free[|c.free|], r)
    ensures Links(c1, lists + [r])
  {
    hide IsRing, IsList;
    forall k | 0 <= k < |lists| + 1
      ensures ListAt(c1, lists + [r], k)
    {
      if k < |lists| {
        assert ListAt(c, lists, k);
        if k < S.FUTEX {
          RingGrows(c.next, c.prev, c.ready[k], lists[k], c1.next, c1.prev);
        } else if k < S.FREE {
          RingGrows(c.next, c.prev, c.futexhash[k - S.FUTEX], lists[k], c1.next, c1.prev);
        } else {
          ListGrows(c.next, c.free[k - S.FREE], lists[k], c1.next);
        }
      }
    }
  }

  lemma AddVmGood(c: Cells, c1: Cells, s: S.State, ids: seq<nat>, valids: seq<seq<bool>>, prios: seq<int>)
    requires Good(c, s, valids, prios, NULL, NULL) && S.Counted(s) && V.AreIds(s.contexts, ids)
    requires c.next <= c1.next && c.prev <= c1.prev && |c1.next| == |c1.prev| == |c.next| + |ids|
    requires c1.ready == c.ready && c1.futexhash == c.futexhash && |c1.free| == |c.free| + 1 && c.free <= c1.free
    requires IsList(c1.next, c1.free[|c.free|], V.Down(|s.status|, |ids|))
    ensures S.Inv(V.AddVm(s, ids)) && Good(c1, V.AddVm(s, ids), valids, prios, NULL, NULL)
  {
    hide S.Hash, ListAt, IsList, V.Down, V.NewContexts, S.Placed, S.Counted, Bits.Bit;
    V.AddVmKeeps(s, ids);
    AddVmLinks(c, c1, s.lists, V.Down(|s.status|, |ids|));
  }

  lemma BootGood(c: Cells, hthreads: nat, valids: seq<seq<bool>>, prios: seq<int>)
    requires c == Cells([], [], seq(S.PRIOS, i => NULL), seq(S.BUCKETS, i => NULL), [])
    requires valids == seq(4, i => seq(64, j => false)) && prios == seq(hthreads, i => -1)
    ensures S.Inv(V.Boot(hthreads)) && Good(c, V.Boot(hthreads), valids, prios, NULL, NULL)
  {
    hide S.Hash, S.WF;
    V.BootInv(hthreads);
    var s := V.Boot(hthreads);
    forall k | 0 <= k < |s.lists|
      ensures ListAt(c, s.lists, k)
    {
    }
  }

  /** The context fields that are not links. */
  datatype Threads = Threads(prio: seq<nat>, basePrio: seq<nat>, status: seq<S.Status>, hthread: seq<nat>,
                             futex: seq<nat>, vm: seq<nat>, id: seq<nat>)

  /** The VM blocks. */
  datatype Vms = Vms(numCpus: seq<nat>, maxCpus: seq<nat>, contexts: map<nat, Tid>)

  lemma DistinctIds(contexts: map<nat, Tid>, ids: seq<nat>)
    requires V.AreIds(contexts, ids)
    ensures forall i, j :: 0 <= i < j < |ids| ==> ids[i] != ids[j]
  {
  }

  /** The contexts of a VM block pushed on its free list. */
  method FreeChain(next0: seq<int>, n: nat) returns (next: seq<int>, head: int)
    ensures next0 <= next && |next| == |next0| + n && IsList(next, head, V.Down(|next0|, n))
  {
    hide V.Down;
    next, head := next0, NULL;
    for i := 0 to n
      invariant next0 <= next && |next| == |next0| + i && IsList(next, head, V.Down(|next0|, i))
    {
      DownList(next, head, |next0|, i);
      next, head := next + [head], |next0| + i;
    }
  }

  method GrowThreads(threads: Threads, n: nat, v: nat, ids: seq<nat>) returns (t1: Threads)
    requires |ids| == n
    ensures t1.prio == threads.prio + V.Same(n, 0) && t1.basePrio == threads.basePrio + V.Same(n, 0)
    ensures t1.status == threads.status + V.Same(n, S.Dead) && t1.hthread == threads.hthread + V.Same(n, 0)
    ensures t1.futex == threads.futex + V.Same(n, 0) && t1.vm == threads.vm + V.Same(n, v) && t1.id == threads.id + ids
  {
    hide V.Same;
    var zeros := V.Same(n, 0);
    t1 := Threads(threads.prio + zeros, threads.basePrio + zeros, threads.status + V.Same(n, S.Dead),
                  threads.hthread + zeros, threads.futex + zeros, threads.vm + V.Same(n, v), threads.id + ids);
  }

  class KernelGlobals {
    var cells: Cells
    var threads: Threads
    var readyValids: seq<seq<bool>>
    var runlist: seq<int>
    var runlistPrios: seq<int>
    var waitMask: seq<bool>
    var vms: Vms
    // user memory
    var mem: map<nat, nat>
    // the list behind each cell
    ghost var lists: seq<seq<Tid>>

    ghost function Abs(): S.State
      reads this
    {
      S.State(threads.prio, threads.basePrio, threads.status, threads.hthread, threads.futex, threads.vm, threads.id,
              lists, runlist, waitMask, vms.numCpus, vms.maxCpus, vms.contexts, mem)
    }

    ghost predicate Consistent(d: int, x: int)
      reads this
    {
      Good(cells, Abs(), readyValids, runlistPrios, d, x)
    }

    ghost predicate Valid()
      reads this
    {
      Consistent(NULL, NULL) && S.Counted(Abs())
    }

    // -------------------------------------------------------------- boot

    /** A kernel without VMs, and every hardware thread in wait mode. */
    constructor (hthreads: nat)
      ensures Valid() && Abs() == V.Boot(hthreads)
    {
      hide S.Hash, Good, S.WF, S.Shape, S.Counted;
      cells := Cells([], [], seq(S.PRIOS, i => NULL), seq(S.BUCKETS, i => NULL), []);
      threads, vms := Threads([], [], [], [], [], [], []), Vms([], [], map[]);
      readyValids := seq(4, i => seq(64, j => false));
      runlist := seq(hthreads, i => NULL);
      runlistPrios := seq(hthreads, i => -1);
      waitMask := seq(hthreads, i => true);
      mem := map[];
      lists := V.Boot(hthreads).lists;
      new;
      BootGood(cells, hthreads, readyValids, runlistPrios);
    }

    /** H2K_config_vmblock_init_cpus_ints: a VM block with a context for each id joins the
        kernel, whatever it is doing. */
    method AddVm(ids: seq<nat>)
      requires Valid() && V.AreIds(vms.contexts, ids)
      modifies this
      ensures Valid() && Abs() == V.AddVm(old(Abs()), ids)
    {
      hide S.Hash, Good, S.WF, S.Shape, S.Counted, V.Down, V.Same, V.NewContexts, V.AreIds, IsList;
      ghost var s, c := Abs(), cells;
      Sizes(cells, s, readyValids, runlistPrios, NULL, NULL);
      DistinctIds(vms.contexts, ids);
      var n, v := |ids|, |vms.maxCpus|;
      var next, head := FreeChain(cells.next, n);
      cells := Cells(next, cells.prev + V.Same(n, 0), cells.ready, cells.futexhash, cells.free + [head]);
      AddVmGood(c, cells, s, ids, readyValids, runlistPrios);
      var contexts := V.NewContexts(vms.contexts, ids, |threads.status|);
      threads := GrowThreads(threads, n, v, ids);
      vms := Vms(vms.numCpus + [0], vms.maxCpus + [n], contexts);
      lists := lists + [V.Down(|s.status|, n)];
      assert Abs() == V.AddVm(s, ids);
    }

    // -------------------------------------------------------------- ready rings

    /** H2K_ready_append. */
    method ReadyAppend(t: Tid, ghost x: int)
      requires Consistent(t, x) && t < |threads.status|
      modifies this
      ensures |threads.status| == |old(threads.status)| && |runlist| == |old(runlist)|
      ensures Consistent(NULL, x) && Abs() == S.ReadyAppend(old(Abs()), t)
    {
      hide S.Hash, InsertAt, Good, S.WF, S.Shape;
      ghost var s := Abs();
      Sizes(cells, s, readyValids, runlistPrios, t, x);
      var p := threads.prio[t];
      threads := threads.(status := threads.status[t := S.Ready]);
      cells, readyValids := AppendCells(cells, readyValids, t, p, s, runlistPrios, x);
      lists := S.ReadyAppend(s, t).lists;
    }

    /** H2K_ready_insert. */
    method ReadyInsert(t: Tid, ghost x: int)
      requires Consistent(t, x) && t < |threads.status|
      modifies this
      ensures |threads.status| == |old(threads.status)| && |runlist| == |old(runlist)|
      ensures Consistent(NULL, x) && Abs() == S.ReadyInsert(old(Abs()), t)
    {
      hide S.Hash, InsertAt, Good, S.WF, S.Shape;
      ghost var s := Abs();
      Sizes(cells, s, readyValids, runlistPrios, t, x);
      var p := threads.prio[t];
      threads := threads.(status := threads.status[t := S.Ready]);
      cells, readyValids := InsertCells(cells, readyValids, t, p, s, runlistPrios, x);
      lists := S.ReadyInsert(s, t).lists;
    }

    /** H2K_ready_remove. */
    method ReadyRemove(t: Tid, ghost x: int)
      requires Consistent(NULL, x) && t < |threads.status| && threads.status[t] == S.Ready
      modifies this
      ensures |threads.status| == |old(threads.status)| && |runlist| == |old(runlist)|
      ensures Consistent(t, x) && Abs() == S.Unlink(old(Abs()), t)
    {
      hide S.Hash, Without, Good, S.WF, S.Shape;
      ghost var s := Abs();
      Sizes(cells, s, readyValids, runlistPrios, NULL, x);
      var p := threads.prio[t];
      cells, readyValids := RemoveCells(cells, readyValids, t, p, s, runlistPrios, x);
      lists := S.Unlink(s, t).lists;
    }

    /** H2K_ready_getbest with cluster scheduling off: the first thread of the best ring. */
    method GetBest(ghost h: nat) returns (t: int)
      requires Consistent(NULL, h)
      modifies this
      ensures |threads.status| == |old(threads.status)| && |runlist| == |old(runlist)|
      ensures |old(lists)| >= S.PRIOS
      ensures var b := S.Best(old(lists), 0);
              if b == S.PRIOS then t == NULL && Consistent(NULL, h) && Abs() == old(Abs())
              else t == old(lists)[b][0] && t < |old(threads.status)| && S.Home(old(Abs()), t) != NULL
                   && Consistent(t, h) && Abs() == S.Unlink(old(Abs()), t)
    {
      hide S.Hash, Good, S.WF, S.Shape, S.Best, S.Unlink, Bits.Bit;
      ghost var s := Abs();
      Sizes(cells, s, readyValids, runlistPrios, NULL, h);
      var p := Bits.FirstBit(readyValids);
      BestIs(cells, s, readyValids, runlistPrios, NULL, h, p);
      if p >= S.PRIOS { return NULL; }
      t := cells.ready[p];
      S.HeadIsReady(s, NULL, h, p);
      ReadyRemove(t, h);
    }

    // -------------------------------------------------------------- runlist

    /** H2K_runlist_push of a thread whose hthread field is set. */
    method RunlistPush(t: Tid)
      requires t < |threads.status| && t < |threads.hthread| && threads.hthread[t] < |runlist|
      requires Consistent(t, threads.hthread[t])
      modifies this
      ensures |threads.status| == |old(threads.status)| && |runlist| == |old(runlist)|
      ensures Consistent(NULL, NULL) && Abs() == S.RunPush(old(Abs()), t, old(threads.hthread[t]))
    {
      hide S.Hash, Good, S.WF, S.Shape;
      ghost var s := Abs();
      Sizes(cells, s, readyValids, runlistPrios, t, threads.hthread[t]);
      var h, p := threads.hthread[t], threads.prio[t];
      RunPushGood(cells, s, readyValids, runlistPrios, t, h);
      threads := threads.(status := threads.status[t := S.Running]);
      runlist := runlist[h := t];
      runlistPrios := runlistPrios[h := p];
      assert s.hthread[t := h] == s.hthread;
    }

    /** H2K_runlist_remove. */
    method RunlistRemove(t: Tid)
      requires Consistent(NULL, NULL) && t < |threads.status| && threads.status[t] == S.Running
      modifies this
      ensures |threads.status| == |old(threads.status)| && |runlist| == |old(runlist)|
      ensures |old(threads.hthread)| == |old(threads.status)| && old(threads.hthread[t]) < |old(runlist)|
      ensures Consistent(t, old(threads.hthread[t])) && Abs() == S.RunRemove(old(Abs()), t)
    {
      hide S.Hash, Good, S.WF, S.Shape;
      ghost var s := Abs();
      Sizes(cells, s, readyValids, runlistPrios, NULL, NULL);
      RunRemoveGood(cells, s, readyValids, runlistPrios, t);
      var h := threads.hthread[t];
      runlist := runlist[h := NULL];
      runlistPrios := runlistPrios[h := -1];
    }

    /** H2K_runlist_worst_prio: the worst priority that runs, MAX_PRIOS when nothing does. */
    method WorstPrio() returns (p: nat)
      requires Consistent(NULL, NULL)
      ensures if forall h :: 0 <= h < |runlist| ==> runlist[h] == NULL then p == S.PRIOS
              else (exists t: Tid :: S.IsRunning(Abs(), t) && t < |threads.prio| && threads.prio[t] == p)
                   && forall t: Tid :: S.IsRunning(Abs(), t) && t < |threads.prio| ==> threads.prio[t] <= p
    {
      hide S.Hash, Good, S.WF, S.Shape;
      ghost var s := Abs();
      Sizes(cells, s, readyValids, runlistPrios, NULL, NULL);
      var worst, hthread := -1, -1;
      for i := 0 to |runlist|
        invariant if hthread == -1 then worst == -1 else 0 <= hthread < i && worst == runlistPrios[hthread] > -1
        invariant forall h :: 0 <= h < i ==> runlistPrios[h] <= worst
      {
        if runlistPrios[i] > worst {
          worst, hthread := runlistPrios[i], i;
        }
      }
      PriosOf(cells, s, readyValids, runlistPrios);
      if hthread == -1 { return S.PRIOS; }
      p := worst;
    }

    /** H2K_runlist_set_thread_prio. */
    method SetThreadPrio(t: Tid, p: nat)
      requires Consistent(NULL, NULL) && t < |threads.status| && threads.status[t] == S.Running && p < S.PRIOS
      modifies this
      ensures |threads.status| == |old(threads.status)| && |runlist| == |old(runlist)|
      ensures |old(threads.prio)| == |old(threads.status)|
      ensures Consistent(NULL, NULL) && Abs() == S.SetPrio(old(Abs()), t, p)
    {
      hide S.Hash, Good, S.WF, S.Shape;
      ghost var s := Abs();
      Sizes(cells, s, readyValids, runlistPrios, NULL, NULL);
      SetPrioGood(cells, s, readyValids, runlistPrios, t, p);
      threads := threads.(prio := threads.prio[t := p]);
      runlistPrios := runlistPrios[threads.hthread[t] := p];
    }

    /** The tail of H2K_dosched: thread t, on its way, is installed on hardware thread h. */
    method Install(t: Tid, h: nat)
      requires Consistent(t, h) && t < |threads.status| && threads.status[t] != S.Running && h < |runlist|
      modifies this
      ensures |threads.status| == |old(threads.status)| && |runlist| == |old(runlist)|
      ensures Consistent(NULL, NULL) && Abs() == S.RunPush(old(Abs()), t, h)
    {
      hide S.Hash, Good, S.WF, S.Shape, S.RunPush;
      ghost var s := Abs();
      Sizes(cells, s, readyValids, runlistPrios, t, h);
      threads := threads.(hthread := threads.hthread[t := h]);
      NeutralGood(cells, s, Abs(), readyValids, runlistPrios, t, h);
      Sizes(cells, Abs(), readyValids, runlistPrios, t, h);
      PushTwice(s, Abs(), t, h);
      RunlistPush(t);
    }

    /** H2K_dosched on hardware thread h. */
    method DoSched(h: nat)
      requires Consistent(NULL, h) && h < |runlist|
      modifies this
      ensures |threads.status| == |old(threads.status)| && |runlist| == |old(runlist)|
      ensures Consistent(NULL, NULL) && Abs() == S.DoSched(old(Abs()), h)
    {
      hide S.Hash, Good, S.WF, S.Shape, S.Best, S.Unlink, S.RunPush;
      ghost var s := Abs();
      Sizes(cells, s, readyValids, runlistPrios, NULL, h);
      var t := GetBest(h);
      if t == NULL {
        Asleep(cells, s, readyValids, runlistPrios, h);
        waitMask := waitMask[h := true];
      } else {
        Unlinked(s, t);
        Install(t, h);
      }
    }

    /** resched: an interrupt on hardware thread h, running a thread or in wait mode. */
    method Resched(h: nat)
      requires Valid() && h < |runlist|
      modifies this
      ensures |threads.status| == |old(threads.status)| && |runlist| == |old(runlist)|
      ensures Valid() && Abs() == S.Resched(old(Abs()), h)
    {
      hide S.Hash, Good, S.WF, S.Shape, S.DoSched, S.RunRemove, S.ReadyAppend, S.Counted;
      ghost var s := Abs();
      Sizes(cells, s, readyValids, runlistPrios, NULL, NULL);
      S.ReschedKeeps(s, h);
      var me := runlist[h];
      if me != NULL {
        RunsAt(s, h);
        RunlistRemove(me);
        ReadyAppend(me, h);
      } else {
        WokenUp(cells, s, readyValids, runlistPrios, h);
        waitMask := waitMask[h := false];
      }
      DoSched(h);
    }

    /** H2K_sched_yield. */
    method Yield(me: Tid)
      requires Valid() && me < |threads.status| && threads.status[me] == S.Running
      modifies this
      ensures |threads.status| == |old(threads.status)| && |runlist| == |old(runlist)|
      ensures Valid() && Abs() == S.Yield(old(Abs()), me)
    {
      hide S.Hash, Good, S.WF, S.Shape, S.DoSched, S.RunRemove, S.ReadyAppend, S.Counted, Bits.Bit;
      ghost var s := Abs();
      Sizes(cells, s, readyValids, runlistPrios, NULL, NULL);
      var p := threads.prio[me];
      PrioValid(cells, s, readyValids, runlistPrios, p);
      if !Bits.Bit(readyValids, p) { return; }
      var h := threads.hthread[me];
      S.RequeueKeeps(s, me);
      RunRemoveGood(cells, s, readyValids, runlistPrios, me);
      RunlistRemove(me);
      ReadyAppend(me, h);
      DoSched(h);
    }

    // -------------------------------------------------------------- futexes

    /** H2K_futex_hash_add_ring on the bucket of t's futex address, t being marked blocked. */
    method BucketAdd(t: Tid, ghost x: int)
      requires Consistent(t, x) && t < |threads.status|
      modifies this
      ensures |threads.status| == |old(threads.status)| && |runlist| == |old(runlist)|
      ensures Consistent(NULL, x) && Abs() == S.Enqueue(old(Abs()), t)
    {
      hide S.Hash, InsertAt, Slot, Good, S.WF, S.Shape;
      ghost var s := Abs();
      Sizes(cells, s, readyValids, runlistPrios, t, x);
      threads := threads.(status := threads.status[t := S.Blocked]);
      cells := BucketAddCells(cells, t, S.Hash(threads.futex[t]), threads.prio, s, readyValids, runlistPrios, x);
      lists := S.Enqueue(s, t).lists;
    }

    /** H2K_futex_cancel, but for the return register. */
    method Cancel(t: Tid, ghost x: int)
      requires Consistent(NULL, x) && t < |threads.status| && threads.status[t] == S.Blocked
      modifies this
      ensures |threads.status| == |old(threads.status)| && |runlist| == |old(runlist)|
      ensures Consistent(t, x) && Abs() == S.Unlink(old(Abs()), t)
    {
      hide S.Hash, Without, Good, S.WF, S.Shape;
      ghost var s := Abs();
      Sizes(cells, s, readyValids, runlistPrios, NULL, x);
      cells := BucketRemoveCells(cells, t, S.Hash(threads.futex[t]), s, readyValids, runlistPrios, x);
      lists := S.Unlink(s, t).lists;
    }

    /** The blocking half of H2K_futex_wait and H2K_futex_lock_pi. */
    method BlockOn(me: Tid, a: nat)
      requires Valid() && me < |threads.status| && threads.status[me] == S.Running && a < 4 * S.WORD
      modifies this
      ensures |threads.status| == |old(threads.status)| && |runlist| == |old(runlist)|
      ensures Valid() && Abs() == S.BlockOn(old(Abs()), me, a)
    {
      hide S.Hash, Good, S.WF, S.Shape, S.DoSched, S.RunRemove, S.Enqueue, S.Counted;
      ghost var s := Abs();
      Sizes(cells, s, readyValids, runlistPrios, NULL, NULL);
      S.BlockOnKeeps(s, me, a);
      var h := threads.hthread[me];
      RunlistRemove(me);
      ghost var s1 := Abs();
      RunRemoved(s, me);
      EditGood(cells, s1, readyValids, runlistPrios, me, s.prio[me], s.basePrio[me], a, h);
      threads := threads.(futex := threads.futex[me := a]);
      assert s.prio[me := s.prio[me]] == s.prio && s.basePrio[me := s.basePrio[me]] == s.basePrio;
      assert Abs() == S.Edit(s1, me, s.prio[me], s.basePrio[me], a);
      BucketAdd(me, h);
      DoSched(h);
    }

    /** H2K_futex_wait on a word of user memory: block iff it still has the value expected, unless
        the VM has work for the caller or the word is not mapped. */
    method FutexWait(me: Tid, a: nat, val: nat, work: bool, mapped: bool) returns (blocked: bool)
      requires Valid() && me < |threads.status| && threads.status[me] == S.Running && a < 4 * S.WORD
      modifies this
      ensures |threads.status| == |old(threads.status)| && |runlist| == |old(runlist)|
      ensures Valid() && (blocked <==> !work && mapped && S.Word(old(Abs()), a) == val)
      ensures Abs() == if blocked then S.BlockOn(old(Abs()), me, a) else old(Abs())
    {
      hide S.Hash, Good, S.WF, S.Shape, S.BlockOn, S.Counted;
      if work || !mapped { return false; }
      var readval := if a in mem then mem[a] else 0;
      blocked := readval == val;
      if blocked { BlockOn(me, a); }
    }

    /** H2K_futex_hash_remove_one: scan on from pos, position i of the bucket, for a thread
        that waits on a, and make it ready. */
    method RemoveOne(a: nat, pos: int, ghost i: nat) returns (t: int, pos1: int, ghost i1: nat)
      requires Consistent(NULL, NULL) && a < 4 * S.WORD && |lists| >= S.FREE && PosOk(Abs(), a, pos, i)
      modifies this
      ensures |threads.status| == |old(threads.status)| && |runlist| == |old(runlist)|
      ensures Consistent(NULL, NULL) && |lists| == |old(lists)| && S.Shape(old(Abs())) && t == S.Woken(old(Abs()), a)
      ensures if t == NULL then Abs() == old(Abs())
              else 0 <= t < |old(threads.status)| && S.WF(old(Abs()), NULL, NULL) && S.Home(old(Abs()), t) != NULL
                   && Abs() == S.MakeReady(old(Abs()), t, NULL) && PosOk(Abs(), a, pos1, i1)
    {
      hide S.Hash, Good, S.WF, S.Shape, S.Woken, S.Unlink, S.ReadyAppend, S.Home;
      ghost var s := Abs();
      Sizes(cells, s, readyValids, runlistPrios, NULL, NULL);
      t, pos1, i1 := Scan(cells, threads.futex, a, pos, i, s, readyValids, runlistPrios);
      if t != NULL {
        S.WokenIsWaiter(s, a);
        IsBlocked(s, t);
        Cancel(t, NULL);
        ReadyAppend(t, NULL);
        i1 := NextPos(s, a, i1, pos1);
      }
    }

    /** H2K_futex_resume, under the lock. */
    method Resume(a: nat, n: nat) returns (woken: nat)
      requires Valid() && a < 4 * S.WORD
      modifies this
      ensures |threads.status| == |old(threads.status)| && |runlist| == |old(runlist)|
      ensures S.WF(old(Abs()), NULL, NULL) && Valid() && Abs() == S.Wake(old(Abs()), a, n)
      ensures woken == |F.Firsts(old(lists[S.FUTEX + S.Hash(a)]), old(threads.futex), a, n)|
    {
      hide S.Hash, Good, S.WF, S.Shape, S.Counted, S.Woken, S.MakeReady, F.Firsts, F.Rest, PosOk;
      ghost var s, k := Abs(), S.FUTEX + S.Hash(a);
      Sizes(cells, s, readyValids, runlistPrios, NULL, NULL);
      woken := 0;
      F.WakesNone(s, a, 0);
      if n == 0 { return; }
      var pos := cells.futexhash[S.Hash(a)];
      ghost var i := 0;
      AtHead(cells, s, readyValids, runlistPrios, a);
      var t: int := 0;
      while t != NULL && woken < n
        invariant woken <= n && Consistent(NULL, NULL) && |lists| == |s.lists| && S.WF(Abs(), NULL, NULL)
        invariant |threads.status| == |s.status| && |runlist| == |s.run| && threads.futex == s.futex
        invariant S.Wake(Abs(), a, n - woken) == S.Wake(s, a, n)
        invariant woken + |F.Firsts(lists[k], s.futex, a, n - woken)| == |F.Firsts(s.lists[k], s.futex, a, n)|
        invariant t != NULL ==> PosOk(Abs(), a, pos, i)
        invariant t == NULL ==> S.Shape(Abs()) && S.Woken(Abs(), a) == NULL
        decreases n - woken, if t == NULL then 0 else 1
      {
        ghost var s1 := Abs();
        Sizes(cells, s1, readyValids, runlistPrios, NULL, NULL);
        t, pos, i := RemoveOne(a, pos, i);
        if t != NULL {
          F.WakeFirst(s1, a, n - woken);
          Sizes(cells, Abs(), readyValids, runlistPrios, NULL, NULL);
          woken := woken + 1;
        }
      }
      Sizes(cells, Abs(), readyValids, runlistPrios, NULL, NULL);
      F.WakesNone(Abs(), a, n - woken);
      S.InvFrom(s, Abs());
    }

    // -------------------------------------------------------------- priority-inheritance locks

    /** H2K_futex_pi_raise. */
    method PiRaise(p: nat, dest: int)
      requires Consistent(NULL, NULL) && p < S.PRIOS && NULL <= dest < |threads.status|
      modifies this
      ensures |threads.status| == |old(threads.status)| && |runlist| == |old(runlist)|
      ensures S.WF(old(Abs()), NULL, NULL) && Consistent(NULL, NULL) && Abs() == S.Raise(old(Abs()), p, dest)
    {
      hide S.Hash, Good, S.WF, S.Shape, S.Unlink, S.Enqueue, S.ReadyInsert;
      ghost var s := Abs();
      Sizes(cells, s, readyValids, runlistPrios, NULL, NULL);
      if dest == NULL || threads.prio[dest] <= p { return; }
      match threads.status[dest]
      case Blocked =>
        cells := RaiseCells(cells, dest, S.Hash(threads.futex[dest]), p, threads.prio, s, readyValids, runlistPrios);
        threads := threads.(prio := threads.prio[dest := p]);
        lists := S.Raise(s, p, dest).lists;
        RaiseIs(s, p, dest);
      case Ready =>
        ReadyRemove(dest, NULL);
        Sizes(cells, Abs(), readyValids, runlistPrios, dest, NULL);
        PrioEdited(cells, s, readyValids, runlistPrios, dest, p);
        threads := threads.(prio := threads.prio[dest := p]);
        ReadyInsert(dest, NULL);
      case Running => SetThreadPrio(dest, p);
      case _ =>
    }

    /** H2K_futex_lock_pi on a word of user memory; it fails when the VM has work for the caller
        or the word is not mapped. */
    method LockPi(me: Tid, a: nat, work: bool, mapped: bool) returns (ok: bool, blocked: bool)
      requires Valid() && me < |threads.status| && threads.status[me] == S.Running && a < 4 * S.WORD
      modifies this
      ensures |threads.status| == |old(threads.status)| && |runlist| == |old(runlist)|
      ensures Valid() && (ok <==> !work && mapped) && (blocked <==> ok && S.Word(old(Abs()), a) > 1)
      ensures Abs() == if ok then S.LockPi(old(Abs()), me, a) else old(Abs())
    {
      hide S.Hash, Good, S.WF, S.Shape, S.Raise, S.BlockOn, S.Counted;
      if work || !mapped { return false, false; }
      ok := true;
      ghost var s := Abs();
      Sizes(cells, s, readyValids, runlistPrios, NULL, NULL);
      S.LockPiKeeps(s, me, a);
      var w := if a in mem then mem[a] else 0;
      w := if w % 2 == 0 then w + 1 else w;
      blocked := w != 1;
      if !blocked {
        mem := mem[a := 1024 * threads.id[me]];
        NeutralGood(cells, s, Abs(), readyValids, runlistPrios, NULL, NULL);
      } else {
        mem := mem[a := w];
        NeutralGood(cells, s, Abs(), readyValids, runlistPrios, NULL, NULL);
        var dest := if w / 1024 in vms.contexts then vms.contexts[w / 1024] else NULL;
        NamedExists(s, w);
        ghost var s1 := Abs();
        PiRaise(threads.prio[me], dest);
        RaisedFor(s, s1, me, dest);
        BlockOn(me, a);
      }
    }

    /** H2K_futex_unlock_pi on a word of user memory; it fails when the word is not mapped. */
    method UnlockPi(me: Tid, a: nat, mapped: bool) returns (ok: bool)
      requires Valid() && me < |threads.status| && threads.status[me] == S.Running && a < 4 * S.WORD
      modifies this
      ensures |threads.status| == |old(threads.status)| && |runlist| == |old(runlist)|
      ensures Valid() && (ok <==> mapped) && Abs() == if ok then S.UnlockPi(old(Abs()), me, a) else old(Abs())
    {
      hide S.Hash, Good, S.WF, S.Shape, S.Counted, S.Woken, S.MakeReady, PosOk;
      if !mapped { return false; }
      ok := true;
      ghost var s := Abs();
      Sizes(cells, s, readyValids, runlistPrios, NULL, NULL);
      S.UnlockPiKeeps(s, me, a);
      AtHead(cells, s, readyValids, runlistPrios, a);
      S.WokenIsWaiter(s, a);
      var t, pos, i := RemoveOne(a, cells.futexhash[S.Hash(a)], 0);
      if t != NULL { F.MakeReadyLists(s, t); }
      ghost var s1 := Abs();
      mem := mem[a := if t == NULL then 0 else 1024 * threads.id[t] + 1];
      NeutralGood(cells, s1, Abs(), readyValids, runlistPrios, NULL, NULL);
      RunRemoved(s, me);
      SetThreadPrio(me, threads.basePrio[me]);
    }

    // -------------------------------------------------------------- interrupts

    /** H2K_vm_int_deliver_locked; enabled is the thread's interrupt-enable bit. */
    method Deliver(t: Tid, enabled: bool, ghost x: int)
      requires Consistent(NULL, x) && t < |threads.status|
      modifies this
      ensures |threads.status| == |old(threads.status)| && |runlist| == |old(runlist)|
      ensures S.WF(old(Abs()), NULL, x) && Consistent(NULL, x) && Abs() == S.Deliver(old(Abs()), t, enabled, x)
    {
      hide S.Hash, Good, S.WF, S.Shape, S.Unlink, S.ReadyAppend;
      ghost var s := Abs();
      Sizes(cells, s, readyValids, runlistPrios, NULL, x);
      match threads.status[t]
      case VmWait =>
        Detached(cells, s, readyValids, runlistPrios, t, x);
        ReadyAppend(t, x);
      case Blocked =>
        if enabled {
          Cancel(t, x);
          ReadyAppend(t, x);
        }
      case _ =>
    }

    /** H2K_vmtrap_wait when nothing is pending. */
    method VmSleep(me: Tid)
      requires Valid() && me < |threads.status| && threads.status[me] == S.Running
      modifies this
      ensures |threads.status| == |old(threads.status)| && |runlist| == |old(runlist)|
      ensures Valid() && Abs() == S.VmSleep(old(Abs()), me)
    {
      hide S.Hash, Good, S.WF, S.Shape, S.DoSched, S.Counted;
      ghost var s := Abs();
      Sizes(cells, s, readyValids, runlistPrios, NULL, NULL);
      S.VmSleepKeeps(s, me);
      var h := threads.hthread[me];
      RunlistRemove(me);
      FallsAsleep(cells, Abs(), readyValids, runlistPrios, me, h);
      threads := threads.(status := threads.status[me := S.VmWait]);
      DoSched(h);
    }

    // -------------------------------------------------------------- thread lifecycle

    /** H2K_thread_create_no_squash in VM v, whose best allowed priority is best; gotAsid says
        whether an address space id could be had. */
    method Create(v: nat, p: nat, best: nat, gotAsid: bool) returns (t: int)
      requires Valid() && v < |vms.maxCpus|
      modifies this
      ensures |threads.status| == |old(threads.status)| && |runlist| == |old(runlist)|
      ensures |old(lists)| == S.FREE + |old(vms.maxCpus)|
      ensures Valid() && Abs() == if p < best then old(Abs()) else S.Create(old(Abs()), v, p, gotAsid)
      ensures t == if p >= S.PRIOS || p < best || old(lists)[S.FREE + v] == [] || !gotAsid then NULL
                   else old(lists)[S.FREE + v][0]
    {
      hide S.Hash, Good, S.WF, S.Shape, S.Counted, S.Unlink, S.Link, S.ReadyAppend;
      ghost var s := Abs();
      Sizes(cells, s, readyValids, runlistPrios, NULL, NULL);
      if p > 255 || p < best { return NULL; }
      S.CreateKeeps(s, v, p, gotAsid);
      FreeHead(cells, s, readyValids, runlistPrios, v);
      if cells.free[v] == NULL { return NULL; }
      t := cells.free[v];
      ghost var c := cells;
      cells := cells.(free := cells.free[v := cells.next[t]]);
      PopGood(c, cells, s, readyValids, runlistPrios, v);
      UnlinkColumns(s, t);
      EditGood(cells, S.Unlink(s, t), readyValids, runlistPrios, t, p, p, s.futex[t], NULL);
      threads := threads.(prio := threads.prio[t := p], basePrio := threads.basePrio[t := p]);
      lists := S.Unlink(s, t).lists;
      assert s.futex[t := s.futex[t]] == s.futex;
      assert Abs() == S.Claim(s, t, p);
      ghost var s1 := Abs();
      Sizes(cells, s1, readyValids, runlistPrios, t, NULL);
      if !gotAsid {
        PushGood(cells, c, s1, readyValids, runlistPrios, t, v, NULL);
        cells := cells.(free := cells.free[v := t]);
        assert cells.free == c.free;
        lists := S.Link(s1, t, S.Dead, S.FREE + v, 0).lists;
        DeadLink(s1, t, S.FREE + v);
        return NULL;
      }
      vms := vms.(numCpus := vms.numCpus[v := vms.numCpus[v] + 1]);
      NeutralGood(cells, s1, Abs(), readyValids, runlistPrios, t, NULL);
      ghost var s2 := Abs();
      Sizes(cells, s2, readyValids, runlistPrios, t, NULL);
      ReadyAppend(t, NULL);
      AppendCommutes(s1, s2, t);
    }

    /** H2K_thread_stop_withlock; parent is the context told of it, if any. */
    method Stop(me: Tid, parent: int, enabled: bool)
      requires Valid() && me < |threads.status| && threads.status[me] == S.Running && NULL <= parent < |threads.status|
      modifies this
      ensures |threads.status| == |old(threads.status)| && |runlist| == |old(runlist)|
      ensures Valid() && Abs() == S.Stop(old(Abs()), me, parent, enabled)
    {
      hide S.Hash, Good, S.WF, S.Shape, S.DoSched, S.Counted, S.Retire, S.Deliver;
      ghost var s := Abs();
      Sizes(cells, s, readyValids, runlistPrios, NULL, NULL);
      S.StopKeeps(s, me, parent, enabled);
      S.RetireKeeps(s, me);
      var h := threads.hthread[me];
      Retire(me);
      if parent != NULL {
        Deliver(parent, enabled, h);
      }
      DoSched(h);
    }

    /** Its first half: the cleared context goes to the front of the free list of its VM. */
    method Retire(me: Tid)
      requires Valid() && me < |threads.status| && threads.status[me] == S.Running
      modifies this
      ensures |threads.status| == |old(threads.status)| && |runlist| == |old(runlist)|
      ensures |old(threads.hthread)| == |old(threads.status)|
      ensures Consistent(NULL, old(threads.hthread[me])) && Abs() == S.Retire(old(Abs()), me)
    {
      hide S.Hash, Good, S.WF, S.Shape, S.Counted, S.Link;
      ghost var s := Abs();
      Sizes(cells, s, readyValids, runlistPrios, NULL, NULL);
      S.LiveIsCounted(s, me);
      var v, h := threads.vm[me], threads.hthread[me];
      RunlistRemove(me);
      RunRemoved(s, me);
      EditGood(cells, Abs(), readyValids, runlistPrios, me, 0, 0, 0, h);
      ghost var s1 := S.Edit(Abs(), me, 0, 0, 0);
      threads := threads.(prio := threads.prio[me := 0], basePrio := threads.basePrio[me := 0],
                          futex := threads.futex[me := 0]);
      ghost var c := cells;
      Sizes(cells, s1, readyValids, runlistPrios, me, h);
      cells := cells.(next := cells.next[me := cells.free[v]], free := cells.free[v := me]);
      PushGood(c, cells, s1, readyValids, runlistPrios, me, v, h);
      threads := threads.(status := threads.status[me := S.Dead]);
      lists := S.Link(s1, me, S.Dead, S.FREE + v, 0).lists;
      LinkColumns(s1, me, S.Dead, S.FREE + v, 0);
      ghost var s2 := Abs();
      threads := threads.(hthread := threads.hthread[me := 0]);
      vms := vms.(numCpus := vms.numCpus[v := vms.numCpus[v] - 1]);
      NeutralGood(cells, s2, Abs(), readyValids, runlistPrios, NULL, h);
    }

    // -------------------------------------------------------------- every entry point

    /** The kernel data structures realise every step of the abstract kernel, and so do to the
        whole state what the entry point is for. */
    method Enter(op: S.Op)
      requires Valid() && S.Enabled(Abs(), op)
      modifies this
      ensures S.Inv(old(Abs())) && Valid() && Abs() == S.Step(old(Abs()), op)
      ensures E.Does(old(Abs()), op, Abs())
    {
      hide E.Does, S.Hash, Good, S.WF, S.Shape, S.Counted, S.Resched, S.Yield, S.BlockOn, S.Wake, S.LockPi, S.UnlockPi,
           S.VmSleep, S.Deliver, S.Create, S.Stop;
      ghost var s := Abs();
      Sizes(cells, s, readyValids, runlistPrios, NULL, NULL);
      S.StepKeeps(s, op);
      E.StepEffect(s, op);
      match op
      case OpResched(h) => Resched(h);
      case OpYield(me) => Yield(me);
      case OpWait(me, a) => BlockOn(me, a);
      case OpResume(a, n) => var _ := Resume(a, n);
      case OpLockPi(me, a) => var _, _ := LockPi(me, a, false, true);
      case OpUnlockPi(me, a) => var _ := UnlockPi(me, a, true);
      case OpVmSleep(me) => VmSleep(me);
      case OpDeliver(t, enabled) => Deliver(t, enabled, NULL);
      case OpCreate(v, p, gotAsid) => var _ := Create(v, p, 0, gotAsid);
      case OpStop(me, parent, enabled) => Stop(me, parent, enabled);
      case OpStore(a, w) =>
        mem := mem[a := w];
        NeutralGood(cells, s, Abs(), readyValids, runlistPrios, NULL, NULL);
    }
  }
}
