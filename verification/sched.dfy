/** The scheduler, futex and thread-lifecycle state of the kernel, and what each
    kernel entry point does to it.  Threads are context indices; the 256 ready
    rings, the 64 futex buckets and the free list of each VM are lists of threads.
    All moves happen under the big kernel lock, so an entry point is one step. */
module Sched {
  import opened Lists

  const PRIOS: nat := 256
  const BUCKETS: nat := 64

  /** List index of the first futex bucket, and of the free list of VM 0. */
  const FUTEX: nat := PRIOS
  const FREE: nat := PRIOS + BUCKETS

  datatype Status = Dead | Running | Ready | Blocked | VmWait

  datatype State = State(
    // one column per context field; id is the raw thread id without its ten reserved bits
    prio: seq<nat>, basePrio: seq<nat>, status: seq<Status>, hthread: seq<nat>, futex: seq<nat>,
    vm: seq<nat>, id: seq<nat>,
    // ready rings, futex buckets, free lists
    lists: seq<seq<Tid>>,
    // what each hardware thread runs, and whether it is in wait mode
    run: seq<int>, waiting: seq<bool>,
    // threads in use in each VM, contexts each VM has, and the context of each id
    numCpus: seq<nat>, maxCpus: seq<nat>, contexts: map<nat, Tid>,
    // user memory: the lock words by word address; an absent word is 0
    mem: map<nat, nat>)

  // ---------------------------------------------------------------- the futex hash

  function Xor2(a: nat, b: nat): nat
    requires a < 4 && b < 4
  {
    (if a % 2 != b % 2 then 1 else 0) + (if a / 2 != b / 2 then 2 else 0)
  }

  lemma Xor2Injective(a: nat, b: nat, c: nat)
    requires a < 4 && b < 4 && c < 4 && Xor2(a, b) == Xor2(a, c)
    ensures b == c
  {
  }

  const WORD: nat := 0x1_0000_0000

  /** The top six bits of the 32-bit product with the hash prime. */
  function Top(lo: nat): (h: nat)
    requires lo < WORD
    ensures h < BUCKETS
  {
    lo * 2654435761 % WORD / 0x400_0000
  }

  /** FUTEX_HASHVAL on a 34-bit word address. */
  function Hash(x: nat): (h: nat)
    requires x < 4 * WORD
    ensures h < BUCKETS
  {
    Top(x % WORD) / 4 * 4 + Xor2(Top(x % WORD) % 4, x / WORD)
  }

  /** Two addresses in one bucket with equal low words are equal: comparing only the
      low 32 bits is sound. */
  lemma HashSeparates(x: nat, y: nat)
    requires x < 4 * WORD && y < 4 * WORD
    requires Hash(x) == Hash(y) && x % WORD == y % WORD
    ensures x == y
  {
    hide Top, Xor2;
    Xor2Injective(Top(x % WORD) % 4, x / WORD, y / WORD);
  }

  /** Below 2^32 the bucket is the plain multiplicative hash; the two bits k above it move an
      address among the four buckets that share the upper four hash bits. */
  lemma HashFolds(x: nat, k: nat)
    requires x < WORD && k < 4
    ensures x + k * WORD < 4 * WORD && Hash(x + k * WORD) / 4 == Top(x) / 4
    ensures k == 0 ==> Hash(x) == Top(x)
  {
    hide Top;
    assert (x + k * WORD) % WORD == x && (x + k * WORD) / WORD == k;
  }

  // ---------------------------------------------------------------- placement

  ghost predicate Shape(s: State) {
    var n := |s.status|;
    && |s.prio| == |s.basePrio| == |s.hthread| == |s.futex| == |s.vm| == |s.id| == n
    && |s.waiting| == |s.run|
    && |s.numCpus| == |s.maxCpus|
    && |s.lists| == FREE + |s.maxCpus|
    && (forall t :: 0 <= t < n ==> s.prio[t] < PRIOS)
    && (forall t :: 0 <= t < n ==> s.basePrio[t] < PRIOS)
    && (forall t :: 0 <= t < n ==> s.futex[t] < 4 * WORD)
    && (forall t :: 0 <= t < n ==> s.vm[t] < |s.maxCpus|)
    && (forall t :: 0 <= t < n ==> s.id[t] > 0 && s.id[t] in s.contexts && s.contexts[s.id[t]] == t)
    && (forall j :: j in s.contexts ==> s.contexts[j] < n && s.id[s.contexts[j]] == j)
  }

  /** The list a thread's status names; running and waiting threads are in none. */
  ghost function Home(s: State, t: Tid): int
    requires Shape(s) && t < |s.status|
  {
    match s.status[t]
    case Ready => s.prio[t]
    case Blocked => FUTEX + Hash(s.futex[t])
    case Dead => FREE + s.vm[t]
    case _ => NULL
  }

  /** Thread t belongs in list k; d is a thread on its way between lists. */
  ghost predicate Belongs(s: State, d: int, k: nat, t: Tid)
    requires Shape(s)
  {
    t < |s.status| && t != d && Home(s, t) == k
  }

  ghost predicate Placed(s: State, d: int)
    requires Shape(s)
  {
    && (forall k :: 0 <= k < |s.lists| ==> Distinct(s.lists[k]))
    && (forall k, t :: 0 <= k < |s.lists| ==> (t in s.lists[k] <==> Belongs(s, d, k, t)))
  }

  ghost predicate RunOk(s: State, d: int)
    requires Shape(s)
  {
    && (forall h :: 0 <= h < |s.run| && s.run[h] != NULL ==>
          0 <= s.run[h] < |s.status| && s.run[h] != d && s.status[s.run[h]] == Running && s.hthread[s.run[h]] == h)
    && (forall t :: 0 <= t < |s.status| && t != d && s.status[t] == Running ==>
          s.hthread[t] < |s.run| && s.run[s.hthread[t]] == t)
  }

  ghost predicate BucketsSorted(s: State)
    requires Shape(s)
  {
    forall k :: FUTEX <= k < FREE ==> Sorted(s.lists[k], s.prio)
  }

  /** A hardware thread is in wait mode iff it runs nothing; x is one being scheduled. */
  ghost predicate WaitOk(s: State, x: int)
    requires Shape(s)
  {
    forall h :: 0 <= h < |s.run| ==> (s.waiting[h] <==> s.run[h] == NULL && h != x)
  }

  /** Every thread is in exactly one place, the one its status names, but for thread d
      and hardware thread x. */
  ghost predicate WF(s: State, d: int, x: int) {
    Shape(s) && Placed(s, d) && RunOk(s, d) && BucketsSorted(s) && WaitOk(s, x) &&
    (0 <= x < |s.run| ==> s.run[x] == NULL)
  }

  /** The sizes of a well-formed state. */
  lemma Sizes(s: State, d: int, x: int)
    requires WF(s, d, x)
    ensures Shape(s) && |s.lists| == FREE + |s.maxCpus| && |s.waiting| == |s.run| && |s.numCpus| == |s.maxCpus|
    ensures |s.status| == |s.prio| == |s.basePrio| == |s.hthread| == |s.futex| == |s.vm| == |s.id|
    ensures forall t :: 0 <= t < |s.prio| ==> s.prio[t] < PRIOS
    ensures forall t :: 0 <= t < |s.basePrio| ==> s.basePrio[t] < PRIOS
    ensures forall t :: 0 <= t < |s.futex| ==> s.futex[t] < 4 * WORD
  {
    hide Hash;
  }

  /** The contexts of VM v. */
  ghost function ContextsOf(s: State, v: nat): set<Tid>
    requires Shape(s)
  {
    set t | 0 <= t < |s.vm| && s.vm[t] == v
  }

  /** Each VM has max_cpus contexts, and those not on its free list are counted. */
  ghost predicate Counted(s: State)
    requires Shape(s)
  {
    forall v :: 0 <= v < |s.maxCpus| ==>
      s.maxCpus[v] == |ContextsOf(s, v)| && s.numCpus[v] + |s.lists[FREE + v]| == s.maxCpus[v]
  }

  /** The placement invariant between kernel entries. */
  ghost predicate Inv(s: State) {
    WF(s, NULL, NULL) && Counted(s)
  }

  /** s1 has the free lists and counts of s. */
  ghost predicate SameVms(s: State, s1: State) {
    && s1.numCpus == s.numCpus && s1.maxCpus == s.maxCpus && s1.vm == s.vm
    && |s1.lists| == |s.lists|
    && forall k :: FREE <= k < |s.lists| ==> s1.lists[k] == s.lists[k]
  }

  // ---------------------------------------------------------------- elementary moves

  /** Take t off its list. */
  ghost function Unlink(s: State, t: Tid): State
    requires Shape(s) && t < |s.status| && Home(s, t) != NULL
  {
    s.(lists := s.lists[Home(s, t) := Without(s.lists[Home(s, t)], t)])
  }

  /** Put t, with a new status, at position i of list k. */
  ghost function Link(s: State, t: Tid, st: Status, k: nat, i: nat): State
    requires t < |s.status| && k < |s.lists| && i <= |s.lists[k]|
  {
    s.(status := s.status[t := st], lists := s.lists[k := InsertAt(s.lists[k], i, t)])
  }

  /** H2K_ready_append and H2K_ready_insert. */
  ghost function ReadyAppend(s: State, t: Tid): State
    requires Shape(s) && t < |s.status|
  {
    Link(s, t, Ready, s.prio[t], |s.lists[s.prio[t]]|)
  }

  ghost function ReadyInsert(s: State, t: Tid): State
    requires Shape(s) && t < |s.status|
  {
    Link(s, t, Ready, s.prio[t], 0)
  }

  /** H2K_futex_hash_add_ring, with the status change of its callers. */
  ghost function Enqueue(s: State, t: Tid): State
    requires Shape(s) && t < |s.status|
  {
    var k := FUTEX + Hash(s.futex[t]);
    Link(s, t, Blocked, k, Slot(s.lists[k], s.prio, s.prio[t]))
  }

  /** H2K_runlist_remove and H2K_runlist_push. */
  ghost function RunRemove(s: State, t: Tid): State
    requires Shape(s) && t < |s.status| && s.hthread[t] < |s.run|
  {
    s.(run := s.run[s.hthread[t] := NULL])
  }

  ghost function RunPush(s: State, t: Tid, h: nat): State
    requires Shape(s) && t < |s.status| && h < |s.run|
  {
    s.(hthread := s.hthread[t := h], status := s.status[t := Running], run := s.run[h := t])
  }

  /** New values of the priority, base priority and futex address of t. */
  ghost function Edit(s: State, t: Tid, prio: nat, basePrio: nat, futex: nat): State
    requires Shape(s) && t < |s.status|
  {
    s.(prio := s.prio[t := prio], basePrio := s.basePrio[t := basePrio], futex := s.futex[t := futex])
  }

  // ---------------------------------------------------------------- elementary moves keep placement

  lemma UnlinkKeeps(s: State, t: Tid, x: int)
    requires WF(s, NULL, x) && t < |s.status| && Home(s, t) != NULL
    ensures t in s.lists[Home(s, t)]
    ensures WF(Unlink(s, t), t, x)
    ensures Home(s, t) < FREE ==> SameVms(s, Unlink(s, t))
  {
    hide Without, Hash;
    var k, s' := Home(s, t), Unlink(s, t);
    assert Belongs(s, NULL, k, t);
    WithoutMembers(s.lists[k], t);
    WithoutSorted(s.lists[k], t, s.prio);
    assert forall u :: 0 <= u < |s.status| ==> Home(s', u) == Home(s, u);
    assert Placed(s', t) && RunOk(s', t) && BucketsSorted(s');
  }

  lemma LinkKeeps(s: State, t: Tid, st: Status, k: nat, i: nat, x: int)
    requires WF(s, t, x) && t < |s.status| && k < |s.lists| && i <= |s.lists[k]|
    requires st != Running && Home(s.(status := s.status[t := st]), t) == k
    requires FUTEX <= k < FREE ==> Sorted(InsertAt(s.lists[k], i, t), s.prio)
    ensures WF(Link(s, t, st, k, i), NULL, x)
    ensures k < FREE ==> SameVms(s, Link(s, t, st, k, i))
  {
    hide InsertAt, Hash;
    var s' := Link(s, t, st, k, i);
    assert !Belongs(s, t, k, t);
    InsertMembers(s.lists[k], i, t);
    assert forall u :: 0 <= u < |s.status| && u != t ==> Home(s', u) == Home(s, u);
    assert Placed(s', NULL) && RunOk(s', NULL) && BucketsSorted(s');
  }

  lemma ReadyKeeps(s: State, t: Tid, x: int)
    requires WF(s, t, x) && t < |s.status|
    ensures WF(ReadyAppend(s, t), NULL, x) && SameVms(s, ReadyAppend(s, t))
    ensures WF(ReadyInsert(s, t), NULL, x) && SameVms(s, ReadyInsert(s, t))
  {
    LinkKeeps(s, t, Ready, s.prio[t], |s.lists[s.prio[t]]|, x);
    LinkKeeps(s, t, Ready, s.prio[t], 0, x);
  }

  lemma EnqueueKeeps(s: State, t: Tid, x: int)
    requires WF(s, t, x) && t < |s.status|
    ensures WF(Enqueue(s, t), NULL, x) && SameVms(s, Enqueue(s, t))
  {
    hide Slot, Hash;
    var k := FUTEX + Hash(s.futex[t]);
    InsertSorted(s.lists[k], s.prio, t);
    LinkKeeps(s, t, Blocked, k, Slot(s.lists[k], s.prio, s.prio[t]), x);
  }

  lemma RunRemoveKeeps(s: State, t: Tid)
    requires WF(s, NULL, NULL) && t < |s.status| && s.status[t] == Running
    ensures s.hthread[t] < |s.run| && s.run[s.hthread[t]] == t
    ensures WF(RunRemove(s, t), t, s.hthread[t])
  {
    hide Hash;
    var s' := RunRemove(s, t);
    assert forall u :: 0 <= u < |s.status| ==> Home(s', u) == Home(s, u);
    assert forall k, u :: 0 <= k < |s.lists| ==> (Belongs(s', t, k, u) <==> Belongs(s, NULL, k, u));
  }

  lemma RunPushKeeps(s: State, t: Tid, h: nat)
    requires WF(s, t, h) && t < |s.status| && h < |s.run|
    ensures WF(RunPush(s, t, h), NULL, NULL)
  {
    hide Hash;
    var s' := RunPush(s, t, h);
    assert forall u :: 0 <= u < |s.status| && u != t ==> Home(s', u) == Home(s, u);
    assert forall k, u :: 0 <= k < |s.lists| ==> (Belongs(s', NULL, k, u) <==> Belongs(s, t, k, u));
  }

  lemma EditKeeps(s: State, t: Tid, prio: nat, basePrio: nat, futex: nat, x: int)
    requires WF(s, t, x) && t < |s.status| && prio < PRIOS && basePrio < PRIOS && futex < 4 * WORD
    ensures WF(Edit(s, t, prio, basePrio, futex), t, x)
  {
    hide Hash;
    var s' := Edit(s, t, prio, basePrio, futex);
    assert forall u :: 0 <= u < |s.status| && u != t ==> Home(s', u) == Home(s, u);
    assert forall k, u :: 0 <= k < |s.lists| ==> (Belongs(s', t, k, u) <==> Belongs(s, t, k, u));
    forall k | FUTEX <= k < FREE
      ensures Sorted(s'.lists[k], s'.prio)
    {
      assert !Belongs(s, t, k, t);
    }
  }

  /** The columns placement does not look at may change freely. */
  ghost predicate SamePlaces(s: State, s1: State) {
    && s1.status == s.status && s1.prio == s.prio && s1.futex == s.futex && s1.vm == s.vm && s1.id == s.id
    && s1.lists == s.lists && s1.run == s.run && s1.waiting == s.waiting
    && s1.maxCpus == s.maxCpus && s1.contexts == s.contexts && s1.basePrio == s.basePrio
    && |s1.hthread| == |s.hthread| && |s1.numCpus| == |s.numCpus|
    && forall t :: 0 <= t < |s.status| && t < |s.hthread| && s.status[t] == Running ==> s1.hthread[t] == s.hthread[t]
  }

  lemma NeutralKeeps(s: State, s1: State, d: int, x: int)
    requires WF(s, d, x) && SamePlaces(s, s1)
    ensures WF(s1, d, x)
  {
    hide Hash;
    assert forall u :: 0 <= u < |s.status| ==> Home(s1, u) == Home(s, u);
    assert forall k, u :: 0 <= k < |s.lists| ==> (Belongs(s1, d, k, u) <==> Belongs(s, d, k, u));
  }

  // ---------------------------------------------------------------- scheduling

  /** The best (lowest) priority at or above p with a ready thread, or 256. */
  ghost function Best(lists: seq<seq<Tid>>, p: nat): (b: nat)
    requires |lists| >= PRIOS && p <= PRIOS
    ensures p <= b <= PRIOS
    ensures b < PRIOS ==> lists[b] != []
    ensures forall q :: p <= q < b ==> lists[q] == []
    decreases PRIOS - p
  {
    if p == PRIOS || lists[p] != [] then p else Best(lists, p + 1)
  }

  /** H2K_dosched on hardware thread h, cluster scheduling off: run the first thread of
      the best ready ring, or go into wait mode. */
  ghost function DoSched(s: State, h: nat): State
    requires WF(s, NULL, h) && h < |s.run|
  {
    var b := Best(s.lists, 0);
    if b == PRIOS then s.(waiting := s.waiting[h := true])
    else
      var t := s.lists[b][0];
      HeadIsReady(s, NULL, h, b);
      RunPush(Unlink(s, t), t, h)
  }

  lemma HeadIsReady(s: State, d: int, x: int, k: nat)
    requires WF(s, d, x) && k < |s.lists| && s.lists[k] != []
    ensures s.lists[k][0] < |s.status| && Home(s, s.lists[k][0]) == k
    ensures k < PRIOS ==> s.status[s.lists[k][0]] == Ready && s.prio[s.lists[k][0]] == k
  {
    hide Hash;
    assert Belongs(s, d, k, s.lists[k][0]);
  }

  lemma DoSchedKeeps(s: State, h: nat)
    requires WF(s, NULL, h) && h < |s.run|
    ensures WF(DoSched(s, h), NULL, NULL) && SameVms(s, DoSched(s, h))
  {
    hide Best, Hash, Without;
    var b := Best(s.lists, 0);
    if b == PRIOS {
      var s' := DoSched(s, h);
      assert forall u :: 0 <= u < |s.status| ==> Home(s', u) == Home(s, u);
      assert forall k, u :: 0 <= k < |s.lists| ==> (Belongs(s', NULL, k, u) <==> Belongs(s, NULL, k, u));
    } else {
      var t := s.lists[b][0];
      HeadIsReady(s, NULL, h, b);
      UnlinkKeeps(s, t, h);
      RunPushKeeps(Unlink(s, t), t, h);
    }
  }

  /** dosched runs a thread that is first in its ring and at least as good as every
      ready thread; it sleeps exactly when nothing is ready. */
  lemma DoSchedPicksBest(s: State, h: nat)
    requires WF(s, NULL, h) && h < |s.run|
    ensures var t := DoSched(s, h).run[h];
            if t == NULL then
              DoSched(s, h).waiting[h] && forall u :: 0 <= u < |s.status| ==> s.status[u] != Ready
            else
              && 0 <= t < |s.status| && s.status[t] == Ready
              && s.lists[s.prio[t]] != [] && t == s.lists[s.prio[t]][0]
              && forall u :: 0 <= u < |s.status| && s.status[u] == Ready ==> s.prio[t] <= s.prio[u]
  {
    hide Hash, Without;
    var b := Best(s.lists, 0);
    if b < PRIOS { HeadIsReady(s, NULL, h, b); }
    forall u | 0 <= u < |s.status| && s.status[u] == Ready
      ensures b <= s.prio[u]
    {
      assert Belongs(s, NULL, s.prio[u], u);
    }
  }

  /** Running thread me goes to the tail of its ready ring and its hardware thread reschedules. */
  ghost function Requeue(s: State, me: Tid): State
    requires Inv(s) && me < |s.status| && s.status[me] == Running
  {
    RunRemoveKeeps(s, me);
    ReadyKeeps(RunRemove(s, me), me, s.hthread[me]);
    DoSched(ReadyAppend(RunRemove(s, me), me), s.hthread[me])
  }

  /** resched: an interrupt on hardware thread h, running or in wait mode. */
  ghost function Resched(s: State, h: nat): State
    requires Inv(s) && h < |s.run|
  {
    if s.run[h] != NULL then Requeue(s, s.run[h])
    else
      var s1 := s.(waiting := s.waiting[h := false]);
      WakesUp(s, h);
      DoSched(s1, h)
  }

  lemma WakesUp(s: State, h: nat)
    requires Inv(s) && h < |s.run| && s.run[h] == NULL
    ensures WF(s.(waiting := s.waiting[h := false]), NULL, h)
  {
    hide Hash;
    var s' := s.(waiting := s.waiting[h := false]);
    assert forall u :: 0 <= u < |s.status| ==> Home(s', u) == Home(s, u);
    assert forall k, u :: 0 <= k < |s.lists| ==> (Belongs(s', NULL, k, u) <==> Belongs(s, NULL, k, u));
  }

  /** H2K_sched_yield. */
  ghost function Yield(s: State, me: Tid): State
    requires Inv(s) && me < |s.status| && s.status[me] == Running
  {
    if s.lists[s.prio[me]] == [] then s else Requeue(s, me)
  }

  /** Running thread me blocks on word address a and its hardware thread reschedules. */
  ghost function BlockOn(s: State, me: Tid, a: nat): State
    requires Inv(s) && me < |s.status| && s.status[me] == Running && a < 4 * WORD
  {
    var h := s.hthread[me];
    RunRemoveKeeps(s, me);
    var s1 := Edit(RunRemove(s, me), me, s.prio[me], s.basePrio[me], a);
    EditKeeps(RunRemove(s, me), me, s.prio[me], s.basePrio[me], a, h);
    EnqueueKeeps(s1, me, h);
    DoSched(Enqueue(s1, me), h)
  }

  // ---------------------------------------------------------------- waking

  /** Position of the first thread of r that waits on address a, or |r|. */
  ghost function FirstMatch(r: seq<Tid>, futex: seq<nat>, a: nat): (i: nat)
    ensures i <= |r|
    ensures i < |r| ==> r[i] < |futex| && futex[r[i]] == a
    ensures forall j :: 0 <= j < i ==> r[j] < |futex| ==> futex[r[j]] != a
  {
    if r == [] then 0
    else if r[0] < |futex| && futex[r[0]] == a then 0
    else 1 + FirstMatch(r[1..], futex, a)
  }

  /** The thread H2K_futex_hash_remove_one takes, scanning from the head, or NULL. */
  ghost function Woken(s: State, a: nat): int
    requires Shape(s) && a < 4 * WORD
  {
    var r := s.lists[FUTEX + Hash(a)];
    var i := FirstMatch(r, s.futex, a);
    if i < |r| then r[i] else NULL
  }

  /** Thread t moves from its list to the tail of its ready ring. */
  ghost function MakeReady(s: State, t: Tid, x: int): State
    requires WF(s, NULL, x) && t < |s.status| && Home(s, t) != NULL
  {
    UnlinkKeeps(s, t, x);
    ReadyAppend(Unlink(s, t), t)
  }

  /** A thread is blocked on a iff it is in the bucket of a with that address. */
  lemma WaiterInBucket(s: State, d: int, x: int, a: nat, t: Tid)
    requires WF(s, d, x) && a < 4 * WORD
    ensures (t < |s.status| && t != d && s.status[t] == Blocked && s.futex[t] == a)
        <==> (t in s.lists[FUTEX + Hash(a)] && t < |s.status| && s.futex[t] == a)
  {
    hide Hash;
    assert t in s.lists[FUTEX + Hash(a)] <==> Belongs(s, d, FUTEX + Hash(a), t);
  }

  lemma WokenIsWaiter(s: State, a: nat)
    requires WF(s, NULL, NULL) && a < 4 * WORD
    ensures var t := Woken(s, a);
            if t == NULL then forall u :: 0 <= u < |s.status| && s.status[u] == Blocked ==> s.futex[u] != a
            else 0 <= t < |s.status| && s.status[t] == Blocked && s.futex[t] == a && Home(s, t) == FUTEX + Hash(a)
  {
    hide Hash, FirstMatch;
    var r := s.lists[FUTEX + Hash(a)];
    var i := FirstMatch(r, s.futex, a);
    if i < |r| {
      WaiterInBucket(s, NULL, NULL, a, r[i]);
    } else {
      forall u | 0 <= u < |s.status| && s.status[u] == Blocked
        ensures s.futex[u] != a
      {
        if s.futex[u] == a {
          WaiterInBucket(s, NULL, NULL, a, u);
        }
      }
    }
  }

  lemma MakeReadyKeeps(s: State, t: Tid, x: int)
    requires WF(s, NULL, x) && t < |s.status| && 0 <= Home(s, t) < FREE
    ensures WF(MakeReady(s, t, x), NULL, x) && SameVms(s, MakeReady(s, t, x))
  {
    hide Hash, Without, ReadyAppend;
    UnlinkKeeps(s, t, x);
    ReadyKeeps(Unlink(s, t), t, x);
  }

  /** H2K_futex_resume: wake up to n threads that wait on a. */
  ghost function Wake(s: State, a: nat, n: nat): (s': State)
    requires WF(s, NULL, NULL) && a < 4 * WORD
    ensures WF(s', NULL, NULL) && SameVms(s, s')
    decreases n
  {
    var t := Woken(s, a);
    if n == 0 || t == NULL then s
    else
      WokenIsWaiter(s, a);
      MakeReadyKeeps(s, t, NULL);
      Wake(MakeReady(s, t, NULL), a, n - 1)
  }

  // ---------------------------------------------------------------- waiting and interrupts

  /** A status change between places that are no list, of a thread on its way. */
  lemma SetWaiting(s: State, t: Tid, x: int)
    requires WF(s, t, x) && t < |s.status|
    ensures WF(s.(status := s.status[t := VmWait]), NULL, x)
  {
    hide Hash;
    var s' := s.(status := s.status[t := VmWait]);
    assert forall u :: 0 <= u < |s.status| && u != t ==> Home(s', u) == Home(s, u);
    assert forall k, u :: 0 <= k < |s.lists| ==> (Belongs(s', NULL, k, u) <==> Belongs(s, t, k, u));
  }

  lemma WaitingIsDetached(s: State, t: Tid, x: int)
    requires WF(s, NULL, x) && t < |s.status| && s.status[t] == VmWait
    ensures WF(s, t, x)
  {
    hide Hash;
    assert forall k, u :: 0 <= k < |s.lists| ==> (Belongs(s, t, k, u) <==> Belongs(s, NULL, k, u));
  }

  /** H2K_vmtrap_wait with nothing pending. */
  ghost function VmSleep(s: State, me: Tid): State
    requires Inv(s) && me < |s.status| && s.status[me] == Running
  {
    RunRemoveKeeps(s, me);
    SetWaiting(RunRemove(s, me), me, s.hthread[me]);
    DoSched(RunRemove(s, me).(status := s.status[me := VmWait]), s.hthread[me])
  }

  /** H2K_vm_int_deliver_locked: an interrupt ends a VM wait, and cancels a futex wait of
      a thread with interrupts enabled. */
  ghost function Deliver(s: State, t: Tid, enabled: bool, x: int): (s': State)
    requires WF(s, NULL, x) && t < |s.status|
    ensures WF(s', NULL, x) && SameVms(s, s') && |s'.run| == |s.run|
  {
    match s.status[t]
    case VmWait =>
      WaitingIsDetached(s, t, x);
      ReadyKeeps(s, t, x);
      ReadyAppend(s, t)
    case Blocked =>
      MakeReadyKeeps(s, t, x);
      if enabled then MakeReady(s, t, x) else s
    case _ => s
  }

  // ---------------------------------------------------------------- thread lifecycle

  /** What Create does to the first free context t before it starts it. */
  ghost function Claim(s: State, t: Tid, prio: nat): State
    requires Shape(s) && t < |s.status| && Home(s, t) != NULL
  {
    Edit(Unlink(s, t), t, prio, prio, s.futex[t])
  }

  lemma ClaimKeeps(s: State, t: Tid, prio: nat)
    requires Inv(s) && t < |s.status| && s.status[t] == Dead && prio < PRIOS
    ensures var s1, k := Claim(s, t, prio), FREE + s.vm[t];
            && WF(s1, t, NULL)
            && |s1.lists| == |s.lists| && |s1.lists[k]| == |s.lists[k]| - 1
            && (forall j :: 0 <= j < |s.lists| && j != k ==> s1.lists[j] == s.lists[j])
            && s1.numCpus == s.numCpus && s1.maxCpus == s.maxCpus && s1.vm == s.vm && |s1.status| == |s.status|
  {
    hide Hash, Without;
    UnlinkKeeps(s, t, NULL);
    WithoutMembers(s.lists[FREE + s.vm[t]], t);
    EditKeeps(Unlink(s, t), t, prio, prio, s.futex[t], NULL);
  }

  /** H2K_thread_create_no_squash in VM v.  The first free context is taken; when no
      address space id can be had it is put back. */
  ghost function Create(s: State, v: nat, prio: nat, gotAsid: bool): State
    requires Inv(s) && v < |s.maxCpus|
  {
    var free := s.lists[FREE + v];
    if prio >= PRIOS || free == [] then s
    else
      var t := free[0];
      HeadIsReady(s, NULL, NULL, FREE + v);
      ClaimKeeps(s, t, prio);
      var s1 := Claim(s, t, prio);
      if gotAsid then ReadyAppend(s1, t).(numCpus := s.numCpus[v := s.numCpus[v] + 1])
      else Link(s1, t, Dead, FREE + v, 0)
  }

  /** H2K_thread_stop_withlock up to its notification of the parent: the cleared context
      becomes the first free one of its VM. */
  ghost function Retire(s: State, me: Tid): State
    requires Inv(s) && me < |s.status| && s.status[me] == Running
  {
    var v := s.vm[me];
    RunRemoveKeeps(s, me);
    var s1 := Edit(RunRemove(s, me), me, 0, 0, 0);
    EditKeeps(RunRemove(s, me), me, 0, 0, 0, s.hthread[me]);
    LiveIsCounted(s, me);
    Link(s1, me, Dead, FREE + v, 0).(hthread := s.hthread[me := 0], numCpus := s.numCpus[v := s.numCpus[v] - 1])
  }

  /** H2K_thread_stop_withlock; the parent, if it is told, gets an interrupt. */
  ghost function Stop(s: State, me: Tid, parent: int, enabled: bool): State
    requires Inv(s) && me < |s.status| && s.status[me] == Running && NULL <= parent < |s.status|
  {
    var s1 := Retire(s, me);
    RetireKeeps(s, me);
    DoSched(if parent == NULL then s1 else Deliver(s1, parent, enabled, s.hthread[me]), s.hthread[me])
  }

  /** A live thread is counted, so stopping it never takes num_cpus below zero. */
  lemma LiveIsCounted(s: State, t: Tid)
    requires Inv(s) && t < |s.status| && s.status[t] != Dead
    ensures s.numCpus[s.vm[t]] > 0
  {
    hide Hash;
    var v := s.vm[t];
    var free := s.lists[FREE + v];
    assert !Belongs(s, NULL, FREE + v, t);
    var listed := set u | u in free;
    assert forall u :: u in free ==> Belongs(s, NULL, FREE + v, u);
    SetOfDistinct(free, listed);
    assert listed + {t} <= ContextsOf(s, v);
    SubsetSize(listed + {t}, ContextsOf(s, v));
  }

  lemma SubsetSize(a: set<Tid>, b: set<Tid>)
    requires a <= b
    ensures |a| <= |b|
  {
    assert b == a + (b - a);
  }

  lemma {:induction false} SetOfDistinct(r: seq<Tid>, m: set<Tid>)
    requires Distinct(r) && forall u :: u in m <==> u in r
    ensures |m| == |r|
  {
    if r == [] {
      assert m == {};
    } else {
      var t, q := r[|r|-1], r[..|r|-1];
      forall u
        ensures u in m - {t} <==> u in q
      {
        assert u in r <==> u in q || u == t;
      }
      SetOfDistinct(q, m - {t});
    }
  }

  lemma CountedAfter(s: State, s1: State, v: nat)
    requires Shape(s) && Counted(s) && Shape(s1) && v < |s.maxCpus|
    requires s1.vm == s.vm && s1.maxCpus == s.maxCpus
    requires s1.numCpus[v] + |s1.lists[FREE + v]| == s.numCpus[v] + |s.lists[FREE + v]|
    requires forall w :: 0 <= w < |s.maxCpus| && w != v ==>
                           s1.numCpus[w] == s.numCpus[w] && s1.lists[FREE + w] == s.lists[FREE + w]
    ensures Counted(s1)
  {
    forall w | 0 <= w < |s.maxCpus|
      ensures s1.maxCpus[w] == |ContextsOf(s1, w)| && s1.numCpus[w] + |s1.lists[FREE + w]| == s1.maxCpus[w]
    {
      assert ContextsOf(s1, w) == ContextsOf(s, w);
    }
  }

  lemma CreateKeeps(s: State, v: nat, prio: nat, gotAsid: bool)
    requires Inv(s) && v < |s.maxCpus|
    ensures Inv(Create(s, v, prio, gotAsid))
  {
    hide Hash, Unlink, Edit, InsertAt, Claim, ContextsOf, Placed, RunOk, BucketsSorted, WaitOk;
    var free, s' := s.lists[FREE + v], Create(s, v, prio, gotAsid);
    if prio < PRIOS && free != [] {
      var t := free[0];
      HeadIsReady(s, NULL, NULL, FREE + v);
      assert s.status[t] == Dead && s.vm[t] == v;
      ClaimKeeps(s, t, prio);
      var s1 := Claim(s, t, prio);
      if gotAsid {
        ReadyKeeps(s1, t, NULL);
        NeutralKeeps(ReadyAppend(s1, t), s', NULL, NULL);
      } else {
        LinkKeeps(s1, t, Dead, FREE + v, 0, NULL);
        InsertIndex(s1.lists[FREE + v], 0, t);
      }
      CountedAfter(s, s', v);
    }
  }

  lemma RetireKeeps(s: State, me: Tid)
    requires Inv(s) && me < |s.status| && s.status[me] == Running
    ensures WF(Retire(s, me), NULL, s.hthread[me]) && Counted(Retire(s, me))
    ensures |Retire(s, me).run| == |s.run| && |Retire(s, me).status| == |s.status| && s.hthread[me] < |s.run|
  {
    hide Hash, InsertAt, ContextsOf, Placed, RunOk, BucketsSorted, WaitOk, SamePlaces, Counted;
    var v, h := s.vm[me], s.hthread[me];
    LiveIsCounted(s, me);
    RetiredLink(s, me);
    var s1 := Edit(RunRemove(s, me), me, 0, 0, 0);
    var s2, s' := Link(s1, me, Dead, FREE + v, 0), Retire(s, me);
    SameAsLinked(s, me, s2, s.numCpus[v] - 1);
    NeutralKeeps(s2, s', NULL, h);
    CountedAfter(s, s', v);
  }

  lemma SameAsLinked(s: State, me: Tid, s2: State, n: nat)
    requires Shape(s) && me < |s.status| && |s2.status| == |s.status| && s2.status[me] == Dead &&
             s2.hthread == s.hthread
    requires |s2.numCpus| == |s.numCpus| && s.vm[me] < |s.numCpus|
    ensures SamePlaces(s2, s2.(hthread := s.hthread[me := 0], numCpus := s.numCpus[s.vm[me] := n]))
  {
  }

  lemma RetiredLink(s: State, me: Tid)
    requires Inv(s) && me < |s.status| && s.status[me] == Running
    ensures s.hthread[me] < |s.run| && Shape(RunRemove(s, me)) && Shape(Edit(RunRemove(s, me), me, 0, 0, 0))
    ensures var s2 := Link(Edit(RunRemove(s, me), me, 0, 0, 0), me, Dead, FREE + s.vm[me], 0);
            && WF(s2, NULL, s.hthread[me]) && s2.status[me] == Dead
            && s2.hthread == s.hthread && s2.vm == s.vm && s2.maxCpus == s.maxCpus && s2.numCpus == s.numCpus
            && |s2.run| == |s.run| && |s2.status| == |s.status|
            && |s2.lists[FREE + s.vm[me]]| == |s.lists[FREE + s.vm[me]]| + 1
            && forall k :: 0 <= k < |s.lists| && k != FREE + s.vm[me] ==> s2.lists[k] == s.lists[k]
  {
    hide Hash, InsertAt;
    var v, h := s.vm[me], s.hthread[me];
    RunRemoveKeeps(s, me);
    var s1 := Edit(RunRemove(s, me), me, 0, 0, 0);
    EditKeeps(RunRemove(s, me), me, 0, 0, 0, h);
    LinkKeeps(s1, me, Dead, FREE + v, 0, h);
    InsertIndex(s1.lists[FREE + v], 0, me);
  }

  // ---------------------------------------------------------------- priority-inheritance locks

  /** A new priority for a running thread. */
  ghost function SetPrio(s: State, t: Tid, prio: nat): State
    requires t < |s.prio|
  {
    s.(prio := s.prio[t := prio])
  }

  lemma SetPrioKeeps(s: State, t: Tid, prio: nat, x: int)
    requires WF(s, NULL, x) && t < |s.status| && s.status[t] == Running && prio < PRIOS
    ensures WF(SetPrio(s, t, prio), NULL, x)
  {
    hide Hash;
    var s' := SetPrio(s, t, prio);
    assert forall u :: 0 <= u < |s.status| ==> Home(s', u) == Home(s, u);
    assert forall k, u :: 0 <= k < |s.lists| ==> (Belongs(s', NULL, k, u) <==> Belongs(s, NULL, k, u));
    forall k | FUTEX <= k < FREE
      ensures Sorted(s'.lists[k], s'.prio)
    {
      assert !Belongs(s, NULL, k, t);
    }
  }

  /** H2K_futex_pi_raise: give dest priority prio if that is better than its own. */
  ghost function Raise(s: State, prio: nat, dest: int): State
    requires WF(s, NULL, NULL) && prio < PRIOS && NULL <= dest < |s.status|
  {
    if dest == NULL || s.prio[dest] <= prio then s
    else match s.status[dest]
      case Blocked =>
        UnlinkKeeps(s, dest, NULL);
        Enqueue(SetPrio(Unlink(s, dest), dest, prio), dest)
      case Ready =>
        UnlinkKeeps(s, dest, NULL);
        ReadyInsert(SetPrio(Unlink(s, dest), dest, prio), dest)
      case Running => SetPrio(s, dest, prio)
      case _ => s
  }

  lemma RaiseKeeps(s: State, prio: nat, dest: int)
    requires WF(s, NULL, NULL) && prio < PRIOS && NULL <= dest < |s.status|
    ensures WF(Raise(s, prio, dest), NULL, NULL) && SameVms(s, Raise(s, prio, dest))
  {
    hide Hash, Without, Slot, InsertAt, WF, Shape;
    Sizes(s, NULL, NULL);
    if dest != NULL && s.prio[dest] > prio {
      match s.status[dest]
      case Blocked =>
        UnlinkKeeps(s, dest, NULL);
        var s1 := Unlink(s, dest);
        Sizes(s1, dest, NULL);
        EditKeeps(s1, dest, prio, s.basePrio[dest], s.futex[dest], NULL);
        assert Edit(s1, dest, prio, s.basePrio[dest], s.futex[dest]) == SetPrio(s1, dest, prio);
        EnqueueKeeps(SetPrio(s1, dest, prio), dest, NULL);
      case Ready =>
        UnlinkKeeps(s, dest, NULL);
        var s1 := Unlink(s, dest);
        Sizes(s1, dest, NULL);
        EditKeeps(s1, dest, prio, s.basePrio[dest], s.futex[dest], NULL);
        assert Edit(s1, dest, prio, s.basePrio[dest], s.futex[dest]) == SetPrio(s1, dest, prio);
        ReadyKeeps(SetPrio(s1, dest, prio), dest, NULL);
      case Running => SetPrioKeeps(s, dest, prio, NULL);
      case _ =>
    }
  }

  lemma RaiseColumns(s: State, prio: nat, dest: int)
    requires WF(s, NULL, NULL) && prio < PRIOS && NULL <= dest < |s.status|
    ensures var s' := Raise(s, prio, dest);
            && s'.status == s.status && s'.hthread == s.hthread && s'.futex == s.futex && s'.mem == s.mem
            && s'.basePrio == s.basePrio && s'.run == s.run && s'.id == s.id && s'.contexts == s.contexts
            && |s'.prio| == |s.prio|
            && (forall u :: 0 <= u < |s.prio| && u != dest ==> s'.prio[u] == s.prio[u])
            && (dest != NULL ==> s'.prio[dest] == s.prio[dest] || s'.prio[dest] == prio < s.prio[dest])
            && (dest != NULL && s.status[dest] != VmWait && s.status[dest] != Dead ==> s'.prio[dest] <= prio)
  {
    hide Hash, Without, Slot, InsertAt, WF, Shape;
    Sizes(s, NULL, NULL);
  }

  /** A lock word: 0 when the lock is free, else the raw id of its owner, plus 1 once
      somebody may wait. */
  ghost function Word(s: State, a: nat): nat {
    if a in s.mem then s.mem[a] else 0
  }

  ghost function SetWord(s: State, a: nat, w: nat): State {
    s.(mem := s.mem[a := w])
  }

  ghost function RawId(s: State, t: Tid): nat
    requires t < |s.id|
  {
    1024 * s.id[t]
  }

  /** The context a lock word names, or NULL. */
  ghost function NamedBy(s: State, w: nat): int
    requires Shape(s)
  {
    if w / 1024 in s.contexts then s.contexts[w / 1024] else NULL
  }

  /** Setting bit 0 of a word. */
  ghost function SetBit0(w: nat): nat {
    if w % 2 == 0 then w + 1 else w
  }

  /** H2K_futex_lock_pi by running thread me on word a. */
  ghost function LockPi(s: State, me: Tid, a: nat): State
    requires Inv(s) && me < |s.status| && s.status[me] == Running && a < 4 * WORD
  {
    var w := SetBit0(Word(s, a));
    if w == 1 then SetWord(s, a, RawId(s, me))
    else
      var s1, dest := SetWord(s, a, w), NamedBy(s, w);
      NeutralKeeps(s, s1, NULL, NULL);
      RaiseKeeps(s1, s.prio[me], dest);
      RaiseColumns(s1, s.prio[me], dest);
      InvFrom(s, Raise(s1, s.prio[me], dest));
      BlockOn(Raise(s1, s.prio[me], dest), me, a)
  }

  lemma InvFrom(s: State, s1: State)
    requires Inv(s) && WF(s1, NULL, NULL) && SameVms(s, s1)
    ensures Inv(s1)
  {
    hide Hash;
    assert forall v :: 0 <= v < |s.maxCpus| ==> ContextsOf(s1, v) == ContextsOf(s, v);
  }

  /** H2K_futex_unlock_pi by running thread me on word a. */
  ghost function UnlockPi(s: State, me: Tid, a: nat): State
    requires Inv(s) && me < |s.status| && s.status[me] == Running && a < 4 * WORD
  {
    var t := Woken(s, a);
    WokenIsWaiter(s, a);
    var s1 := if t == NULL then SetWord(s, a, 0) else SetWord(MakeReady(s, t, NULL), a, RawId(s, t) + 1);
    SetPrio(s1, me, s.basePrio[me])
  }

  lemma UnlockPiKeeps(s: State, me: Tid, a: nat)
    requires Inv(s) && me < |s.status| && s.status[me] == Running && a < 4 * WORD
    ensures Inv(UnlockPi(s, me, a))
  {
    hide Hash, Woken, Without, InsertAt, WF, Shape, Counted;
    Sizes(s, NULL, NULL);
    var t := Woken(s, a);
    WokenIsWaiter(s, a);
    var s1;
    if t == NULL {
      s1 := SetWord(s, a, 0);
      NeutralKeeps(s, s1, NULL, NULL);
    } else {
      MakeReadyKeeps(s, t, NULL);
      s1 := SetWord(MakeReady(s, t, NULL), a, RawId(s, t) + 1);
      NeutralKeeps(MakeReady(s, t, NULL), s1, NULL, NULL);
    }
    SetPrioKeeps(s1, me, s.basePrio[me], NULL);
    InvFrom(s, UnlockPi(s, me, a));
  }

  // ---------------------------------------------------------------- runs

  /** The kernel entry points; me is the calling thread. */
  datatype Op =
    | OpResched(h: nat)
    | OpYield(me: Tid)
    | OpWait(me: Tid, a: nat)
    | OpResume(a: nat, n: nat)
    | OpLockPi(me: Tid, a: nat)
    | OpUnlockPi(me: Tid, a: nat)
    | OpVmSleep(me: Tid)
    | OpDeliver(t: Tid, enabled: bool)
    | OpCreate(v: nat, prio: nat, gotAsid: bool)
    | OpStop(me: Tid, parent: int, enabled: bool)
    | OpStore(a: nat, w: nat)

  ghost predicate IsRunning(s: State, t: Tid) {
    t < |s.status| && s.status[t] == Running
  }

  ghost predicate Enabled(s: State, op: Op) {
    match op
    case OpResched(h) => h < |s.run|
    case OpYield(me) => IsRunning(s, me)
    case OpWait(me, a) => IsRunning(s, me) && a < 4 * WORD
    case OpResume(a, n) => a < 4 * WORD
    case OpLockPi(me, a) => IsRunning(s, me) && a < 4 * WORD
    case OpUnlockPi(me, a) => IsRunning(s, me) && a < 4 * WORD
    case OpVmSleep(me) => IsRunning(s, me)
    case OpDeliver(t, enabled) => t < |s.status|
    case OpCreate(v, prio, gotAsid) => v < |s.maxCpus|
    case OpStop(me, parent, enabled) => IsRunning(s, me) && NULL <= parent < |s.status|
    case OpStore(a, w) => a < 4 * WORD
  }

  ghost function Step(s: State, op: Op): State
    requires Inv(s) && Enabled(s, op)
  {
    match op
    case OpResched(h) => Resched(s, h)
    case OpYield(me) => Yield(s, me)
    case OpWait(me, a) => BlockOn(s, me, a)
    case OpResume(a, n) => Wake(s, a, n)
    case OpLockPi(me, a) => LockPi(s, me, a)
    case OpUnlockPi(me, a) => UnlockPi(s, me, a)
    case OpVmSleep(me) => VmSleep(s, me)
    case OpDeliver(t, enabled) => Deliver(s, t, enabled, NULL)
    case OpCreate(v, prio, gotAsid) => Create(s, v, prio, gotAsid)
    case OpStop(me, parent, enabled) => Stop(s, me, parent, enabled)
    case OpStore(a, w) => SetWord(s, a, w)
  }

  lemma RequeueKeeps(s: State, me: Tid)
    requires Inv(s) && IsRunning(s, me)
    ensures Inv(Requeue(s, me))
  {
    hide Hash, InsertAt, DoSched;
    RunRemoveKeeps(s, me);
    ReadyKeeps(RunRemove(s, me), me, s.hthread[me]);
    DoSchedKeeps(ReadyAppend(RunRemove(s, me), me), s.hthread[me]);
    InvFrom(s, Requeue(s, me));
  }

  lemma ReschedKeeps(s: State, h: nat)
    requires Inv(s) && h < |s.run|
    ensures Inv(Resched(s, h))
  {
    hide Hash, DoSched, Requeue;
    if s.run[h] != NULL {
      RequeueKeeps(s, s.run[h]);
    } else {
      WakesUp(s, h);
      DoSchedKeeps(s.(waiting := s.waiting[h := false]), h);
      InvFrom(s, Resched(s, h));
    }
  }

  lemma BlockOnKeeps(s: State, me: Tid, a: nat)
    requires Inv(s) && IsRunning(s, me) && a < 4 * WORD
    ensures Inv(BlockOn(s, me, a))
  {
    hide Hash, InsertAt, Slot, DoSched;
    var h := s.hthread[me];
    RunRemoveKeeps(s, me);
    EditKeeps(RunRemove(s, me), me, s.prio[me], s.basePrio[me], a, h);
    var s1 := Edit(RunRemove(s, me), me, s.prio[me], s.basePrio[me], a);
    EnqueueKeeps(s1, me, h);
    DoSchedKeeps(Enqueue(s1, me), h);
    InvFrom(s, BlockOn(s, me, a));
  }

  lemma LockPiKeeps(s: State, me: Tid, a: nat)
    requires Inv(s) && IsRunning(s, me) && a < 4 * WORD
    ensures Inv(LockPi(s, me, a))
  {
    hide Hash, Raise, BlockOn;
    var w := SetBit0(Word(s, a));
    if w == 1 {
      NeutralKeeps(s, LockPi(s, me, a), NULL, NULL);
      InvFrom(s, LockPi(s, me, a));
    } else {
      var s1, dest := SetWord(s, a, w), NamedBy(s, w);
      NeutralKeeps(s, s1, NULL, NULL);
      RaiseKeeps(s1, s.prio[me], dest);
      RaiseColumns(s1, s.prio[me], dest);
      InvFrom(s, Raise(s1, s.prio[me], dest));
      BlockOnKeeps(Raise(s1, s.prio[me], dest), me, a);
    }
  }

  lemma VmSleepKeeps(s: State, me: Tid)
    requires Inv(s) && IsRunning(s, me)
    ensures Inv(VmSleep(s, me))
  {
    hide Hash, DoSched;
    RunRemoveKeeps(s, me);
    SetWaiting(RunRemove(s, me), me, s.hthread[me]);
    DoSchedKeeps(RunRemove(s, me).(status := s.status[me := VmWait]), s.hthread[me]);
    InvFrom(s, VmSleep(s, me));
  }

  lemma StopKeeps(s: State, me: Tid, parent: int, enabled: bool)
    requires Inv(s) && IsRunning(s, me) && NULL <= parent < |s.status|
    ensures Inv(Stop(s, me, parent, enabled))
  {
    hide Hash, DoSched, Retire, Deliver, ContextsOf;
    RetireKeeps(s, me);
    var s1, h := Retire(s, me), s.hthread[me];
    var s2 := if parent == NULL then s1 else Deliver(s1, parent, enabled, h);
    DoSchedKeeps(s2, h);
    SameContexts(s1, s2);
    SameContexts(s2, DoSched(s2, h));
  }

  lemma SameContexts(s: State, s1: State)
    requires Shape(s) && Shape(s1) && Counted(s) && SameVms(s, s1)
    ensures Counted(s1)
  {
    assert forall v :: 0 <= v < |s.maxCpus| ==> ContextsOf(s1, v) == ContextsOf(s, v);
  }

  /** Every kernel entry point keeps the placement invariant. */
  lemma StepKeeps(s: State, op: Op)
    requires Inv(s) && Enabled(s, op)
    ensures Inv(Step(s, op))
  {
    hide Hash, Resched, Requeue, BlockOn, Wake, LockPi, UnlockPi, VmSleep, Deliver, Create, Stop;
    match op
    case OpResched(h) => ReschedKeeps(s, h);
    case OpYield(me) => if s.lists[s.prio[me]] != [] { RequeueKeeps(s, me); }
    case OpWait(me, a) => BlockOnKeeps(s, me, a);
    case OpResume(a, n) => InvFrom(s, Wake(s, a, n));
    case OpLockPi(me, a) => LockPiKeeps(s, me, a);
    case OpUnlockPi(me, a) => UnlockPiKeeps(s, me, a);
    case OpVmSleep(me) => VmSleepKeeps(s, me);
    case OpDeliver(t, enabled) => InvFrom(s, Deliver(s, t, enabled, NULL));
    case OpCreate(v, prio, gotAsid) => CreateKeeps(s, v, prio, gotAsid);
    case OpStop(me, parent, enabled) => StopKeeps(s, me, parent, enabled);
    case OpStore(a, w) => NeutralKeeps(s, SetWord(s, a, w), NULL, NULL); InvFrom(s, SetWord(s, a, w));
  }

  /** The states of a run: each from the one before by an enabled entry point. */
  ghost predicate IsRun(states: seq<State>, ops: seq<Op>) {
    && |states| == |ops| + 1
    && forall i :: 0 <= i < |ops| ==> Leads(states[i], ops[i], states[i+1])
  }

  ghost predicate Leads(s: State, op: Op, s1: State) {
    Inv(s) ==> Enabled(s, op) && s1 == Step(s, op)
  }

  /** Placement holds in every state of every run. */
  lemma {:induction false} RunKeepsPlacement(states: seq<State>, ops: seq<Op>, i: nat)
    requires IsRun(states, ops) && Inv(states[0]) && i < |states|
    ensures Inv(states[i])
  {
    hide Step;
    if i == 0 {
    } else {
      RunKeepsPlacement(states, ops, i - 1);
      assert Leads(states[i-1], ops[i-1], states[i]);
      StepKeeps(states[i-1], ops[i-1]);
    }
  }

  /** What placement means: in any state of a run each thread is in at most one list,
      and never also running or asleep. */
  lemma OnePlace(s: State, t: Tid, j: nat, k: nat)
    requires Inv(s) && j < |s.lists| && k < |s.lists| && t in s.lists[j]
    ensures t < |s.status| && (t in s.lists[k] ==> j == k)
    ensures forall h :: 0 <= h < |s.run| ==> s.run[h] != t
    ensures j < FUTEX <==> s.status[t] == Ready
    ensures FUTEX <= j < FREE <==> s.status[t] == Blocked
  {
    hide Hash;
    assert Belongs(s, NULL, j, t);
    assert t in s.lists[k] <==> Belongs(s, NULL, k, t);
  }
}
