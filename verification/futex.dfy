/** What H2K_futex_resume wakes, and that no wakeup is lost. */
module Futex {
  import opened Lists
  import opened Sched

  ghost predicate Matches(futex: seq<nat>, a: nat, t: Tid) {
    t < |futex| && futex[t] == a
  }

  /** The first n threads of bucket r that wait on a, and the bucket without them. */
  ghost function Firsts(r: seq<Tid>, futex: seq<nat>, a: nat, n: nat): seq<Tid> {
    if r == [] || n == 0 then []
    else if Matches(futex, a, r[0]) then [r[0]] + Firsts(r[1..], futex, a, n - 1)
    else Firsts(r[1..], futex, a, n)
  }

  ghost function Rest(r: seq<Tid>, futex: seq<nat>, a: nat, n: nat): seq<Tid> {
    if r == [] || n == 0 then r
    else if Matches(futex, a, r[0]) then Rest(r[1..], futex, a, n - 1)
    else [r[0]] + Rest(r[1..], futex, a, n)
  }

  ghost function Waiters(r: seq<Tid>, futex: seq<nat>, a: nat): nat {
    if r == [] then 0 else (if Matches(futex, a, r[0]) then 1 else 0) + Waiters(r[1..], futex, a)
  }

  /** The threads of w that have priority p, in order. */
  ghost function OfPrio(w: seq<Tid>, prio: seq<nat>, p: nat): seq<Tid> {
    if w == [] then []
    else (if w[0] < |prio| && prio[w[0]] == p then [w[0]] else []) + OfPrio(w[1..], prio, p)
  }

  /** Taking out the first match and then n more is taking out the first n + 1. */
  lemma {:induction false} FirstThenRest(r: seq<Tid>, futex: seq<nat>, a: nat, n: nat)
    requires FirstMatch(r, futex, a) < |r|
    ensures var i := FirstMatch(r, futex, a);
            && Firsts(r, futex, a, n + 1) == [r[i]] + Firsts(RemoveAt(r, i), futex, a, n)
            && Rest(r, futex, a, n + 1) == Rest(RemoveAt(r, i), futex, a, n)
            && Waiters(r, futex, a) == 1 + Waiters(RemoveAt(r, i), futex, a)
  {
    var i := FirstMatch(r, futex, a);
    if Matches(futex, a, r[0]) {
      assert RemoveAt(r, 0) == r[1..];
    } else {
      FirstThenRest(r[1..], futex, a, n);
      var q := RemoveAt(r, i);
      assert q == [r[0]] + RemoveAt(r[1..], i - 1);
      assert q[1..] == RemoveAt(r[1..], i - 1);
    }
  }

  lemma {:induction false} NoMatch(r: seq<Tid>, futex: seq<nat>, a: nat, n: nat)
    requires FirstMatch(r, futex, a) == |r|
    ensures Firsts(r, futex, a, n) == [] && Rest(r, futex, a, n) == r && Waiters(r, futex, a) == 0
  {
    if r == [] {
    } else {
      NoMatch(r[1..], futex, a, n);
    }
  }

  lemma WithoutFirst(r: seq<Tid>, i: nat)
    requires Distinct(r) && i < |r|
    ensures Without(r, r[i]) == RemoveAt(r, i)
  {
  }

  /** One wakeup: the columns it keeps and the lists it changes. */
  lemma MakeReadyLists(s: State, t: Tid)
    requires WF(s, NULL, NULL) && t < |s.status| && s.status[t] == Blocked
    ensures var s', k := MakeReady(s, t, NULL), Home(s, t);
            && s' == s.(status := s.status[t := Ready], lists := s'.lists) && |s'.lists| == |s.lists|
            && s'.lists[k] == Without(s.lists[k], t)
            && s'.lists[s.prio[t]] == s.lists[s.prio[t]] + [t]
            && forall j :: 0 <= j < |s.lists| && j != k && j != s.prio[t] ==> s'.lists[j] == s.lists[j]
  {
    hide Hash, Without;
  }

  /** s1 is s after the threads w of bucket k became ready, in that order, and the bucket
      became rest: each is at the tail of the ready ring of its priority; every other
      bucket and every other thread is as it was. */
  ghost predicate Woke(s: State, s1: State, k: nat, w: seq<Tid>, rest: seq<Tid>) {
    && s1 == s.(status := s1.status, lists := s1.lists)
    && |s1.status| == |s.status| && |s1.lists| == |s.lists| && FUTEX <= k < FREE <= |s.lists|
    && s1.lists[k] == rest
    && (forall p :: 0 <= p < PRIOS ==> s1.lists[p] == s.lists[p] + OfPrio(w, s.prio, p))
    && (forall j :: FUTEX <= j < |s.lists| && j != k ==> s1.lists[j] == s.lists[j])
    && (forall t :: 0 <= t < |s.status| ==> s1.status[t] == if t in w then Ready else s.status[t])
  }

  lemma WokeNothing(s: State, k: nat)
    requires Shape(s) && FUTEX <= k < FREE
    ensures Woke(s, s, k, [], s.lists[k])
  {
    forall p | 0 <= p < PRIOS
      ensures s.lists[p] == s.lists[p] + OfPrio([], s.prio, p)
    {
    }
  }

  lemma WokeStep(s: State, t: Tid, s1: State, w: seq<Tid>, rest: seq<Tid>)
    requires WF(s, NULL, NULL) && t < |s.status| && s.status[t] == Blocked
    requires Woke(MakeReady(s, t, NULL), s1, Home(s, t), w, rest)
    ensures Woke(s, s1, Home(s, t), [t] + w, rest)
  {
    hide Hash, OfPrio, MakeReady;
    MakeReadyLists(s, t);
    forall p | 0 <= p < PRIOS
      ensures s1.lists[p] == s.lists[p] + OfPrio([t] + w, s.prio, p)
    {
      OfPrioCons(t, w, s.prio, p);
    }
  }

  /** The first wakeup of a resume: its thread comes first, the bucket without it serves the rest. */
  lemma WakeFirst(s: State, a: nat, n: nat)
    requires WF(s, NULL, NULL) && a < 4 * WORD && n > 0 && Woken(s, a) != NULL
    ensures var t, k, r := Woken(s, a), FUTEX + Hash(a), s.lists[FUTEX + Hash(a)];
            && 0 <= t < |s.status| && s.status[t] == Blocked && Home(s, t) == k
            && WF(MakeReady(s, t, NULL), NULL, NULL)
            && var s1 := MakeReady(s, t, NULL);
            && s1.futex == s.futex
            && Firsts(r, s.futex, a, n) == [t] + Firsts(s1.lists[k], s.futex, a, n - 1)
            && Rest(r, s.futex, a, n) == Rest(s1.lists[k], s.futex, a, n - 1)
  {
    hide Hash, FirstMatch, Without, MakeReady, RemoveAt, Firsts, Rest, Waiters;
    var t, r := Woken(s, a), s.lists[FUTEX + Hash(a)];
    WokenIsWaiter(s, a);
    MakeReadyKeeps(s, t, NULL);
    MakeReadyLists(s, t);
    WithoutFirst(r, FirstMatch(r, s.futex, a));
    FirstThenRest(r, s.futex, a, n - 1);
  }

  /** resume(n) on a takes exactly the first min(n, k) of the k threads that wait on a
      and keeps the rest of the bucket in order. */
  lemma {:induction false} WakeExact(s: State, a: nat, n: nat)
    requires WF(s, NULL, NULL) && a < 4 * WORD
    ensures var k, r := FUTEX + Hash(a), s.lists[FUTEX + Hash(a)];
            Woke(s, Wake(s, a, n), k, Firsts(r, s.futex, a, n), Rest(r, s.futex, a, n))
    decreases n
  {
    hide Hash, OfPrio, MakeReady, Firsts, Rest, Woken;
    var t, k, r := Woken(s, a), FUTEX + Hash(a), s.lists[FUTEX + Hash(a)];
    if n == 0 || t == NULL {
      WakesNone(s, a, n);
      WokeNothing(s, k);
    } else {
      WakeFirst(s, a, n);
      WakeExact(MakeReady(s, t, NULL), a, n - 1);
      WokeStep(s, t, Wake(s, a, n), Firsts(MakeReady(s, t, NULL).lists[k], s.futex, a, n - 1), Rest(r, s.futex, a, n));
    }
  }

  lemma WakesNone(s: State, a: nat, n: nat)
    requires WF(s, NULL, NULL) && a < 4 * WORD && (n == 0 || Woken(s, a) == NULL)
    ensures var r := s.lists[FUTEX + Hash(a)];
            Firsts(r, s.futex, a, n) == [] && Rest(r, s.futex, a, n) == r
  {
    hide Hash, FirstMatch;
    if n > 0 { NoMatch(s.lists[FUTEX + Hash(a)], s.futex, a, n); }
  }

  lemma OfPrioCons(t: Tid, w: seq<Tid>, prio: seq<nat>, p: nat)
    requires t < |prio|
    ensures OfPrio([t] + w, prio, p) == if prio[t] == p then [t] + OfPrio(w, prio, p) else OfPrio(w, prio, p)
  {
    assert ([t] + w)[1..] == w;
  }

  /** The number woken, and what is left. */
  lemma {:induction false} WakeCounts(r: seq<Tid>, futex: seq<nat>, a: nat, n: nat)
    ensures |Firsts(r, futex, a, n)| == if n <= Waiters(r, futex, a) then n else Waiters(r, futex, a)
    ensures |Rest(r, futex, a, n)| == |r| - |Firsts(r, futex, a, n)|
    ensures n >= Waiters(r, futex, a) ==> forall t :: t in Rest(r, futex, a, n) ==> !Matches(futex, a, t)
  {
    if r == [] {
    } else {
      if n == 0 {
        WakeCounts(r[1..], futex, a, 0);
        assert r == [r[0]] + r[1..];
        assert Rest(r[1..], futex, a, 0) == r[1..];
      } else {
        WakeCounts(r[1..], futex, a, if Matches(futex, a, r[0]) then n - 1 else n);
      }
    }
  }

  /** After a resume of at least as many threads as wait on a, nobody waits on a. */
  lemma WakeAll(s: State, a: nat, n: nat, t: Tid)
    requires WF(s, NULL, NULL) && a < 4 * WORD && n >= Waiters(s.lists[FUTEX + Hash(a)], s.futex, a)
    ensures !WaitsOn(Wake(s, a, n), a, t)
  {
    hide Hash, Wake, Firsts, Rest, Waiters;
    WakeExact(s, a, n);
    WakeCounts(s.lists[FUTEX + Hash(a)], s.futex, a, n);
    WaiterInBucket(Wake(s, a, n), NULL, NULL, a, t);
  }

  ghost predicate WaitsOn(s: State, a: nat, t: Tid) {
    t < |s.status| && t < |s.futex| && s.status[t] == Blocked && s.futex[t] == a
  }

  lemma SchedWaiters(s: State, h: nat, a: nat, t: Tid)
    requires WF(s, NULL, h) && h < |s.run|
    ensures WaitsOn(DoSched(s, h), a, t) ==> WaitsOn(s, a, t)
    ensures |DoSched(s, h).status| == |s.status|
  {
    hide Hash, Without, Best;
    var b := Best(s.lists, 0);
    if b < PRIOS { HeadIsReady(s, NULL, h, b); }
  }

  lemma RequeueWaiters(s: State, me: Tid, a: nat, t: Tid)
    requires Inv(s) && IsRunning(s, me)
    ensures WaitsOn(Requeue(s, me), a, t) ==> WaitsOn(s, a, t)
    ensures |Requeue(s, me).status| == |s.status|
  {
    hide Hash, InsertAt, DoSched;
    RunRemoveKeeps(s, me);
    ReadyKeeps(RunRemove(s, me), me, s.hthread[me]);
    SchedWaiters(ReadyAppend(RunRemove(s, me), me), s.hthread[me], a, t);
  }

  lemma BlockOnWaiters(s: State, me: Tid, b: nat, a: nat, t: Tid)
    requires Inv(s) && IsRunning(s, me) && b < 4 * WORD
    ensures WaitsOn(BlockOn(s, me, b), a, t) ==> WaitsOn(s, a, t) || (t == me && a == b)
    ensures |BlockOn(s, me, b).status| == |s.status|
  {
    hide Hash, InsertAt, Slot, DoSched;
    var h := s.hthread[me];
    RunRemoveKeeps(s, me);
    EditKeeps(RunRemove(s, me), me, s.prio[me], s.basePrio[me], b, h);
    var s1 := Edit(RunRemove(s, me), me, s.prio[me], s.basePrio[me], b);
    EnqueueKeeps(s1, me, h);
    SchedWaiters(Enqueue(s1, me), h, a, t);
  }

  lemma DeliverWaiters(s: State, u: Tid, enabled: bool, x: int, a: nat, t: Tid)
    requires WF(s, NULL, x) && u < |s.status|
    ensures WaitsOn(Deliver(s, u, enabled, x), a, t) ==> WaitsOn(s, a, t)
    ensures |Deliver(s, u, enabled, x).status| == |s.status|
  {
    hide Hash, Without, InsertAt;
  }

  lemma StopWaiters(s: State, me: Tid, parent: int, enabled: bool, a: nat, t: Tid)
    requires Inv(s) && IsRunning(s, me) && NULL <= parent < |s.status|
    ensures WaitsOn(Stop(s, me, parent, enabled), a, t) ==> WaitsOn(s, a, t)
    ensures |Stop(s, me, parent, enabled).status| == |s.status|
  {
    hide Hash, InsertAt, DoSched, Deliver;
    RetireKeeps(s, me);
    var s1, h := Retire(s, me), s.hthread[me];
    assert WaitsOn(s1, a, t) ==> WaitsOn(s, a, t);
    if parent == NULL {
      SchedWaiters(s1, h, a, t);
    } else {
      DeliverWaiters(s1, parent, enabled, h, a, t);
      SchedWaiters(Deliver(s1, parent, enabled, h), h, a, t);
    }
  }

  lemma ReschedWaiters(s: State, h: nat, a: nat, t: Tid)
    requires Inv(s) && h < |s.run|
    ensures WaitsOn(Resched(s, h), a, t) ==> WaitsOn(s, a, t)
    ensures |Resched(s, h).status| == |s.status|
  {
    hide Hash, DoSched, Requeue;
    if s.run[h] != NULL {
      RequeueWaiters(s, s.run[h], a, t);
    } else {
      WakesUp(s, h);
      SchedWaiters(s.(waiting := s.waiting[h := false]), h, a, t);
    }
  }

  lemma LockPiWaiters(s: State, me: Tid, b: nat, a: nat, t: Tid)
    requires Inv(s) && IsRunning(s, me) && b < 4 * WORD
    ensures WaitsOn(LockPi(s, me, b), a, t) ==> WaitsOn(s, a, t) || (t == me && a == b)
    ensures |LockPi(s, me, b).status| == |s.status|
  {
    hide Hash, Raise, BlockOn;
    var w := SetBit0(Word(s, b));
    if w != 1 {
      var s1, dest := SetWord(s, b, w), NamedBy(s, w);
      NeutralKeeps(s, s1, NULL, NULL);
      RaiseKeeps(s1, s.prio[me], dest);
      RaiseColumns(s1, s.prio[me], dest);
      InvFrom(s, Raise(s1, s.prio[me], dest));
      BlockOnWaiters(Raise(s1, s.prio[me], dest), me, b, a, t);
    }
  }

  lemma CreateWaiters(s: State, v: nat, prio: nat, gotAsid: bool, a: nat, t: Tid)
    requires Inv(s) && v < |s.maxCpus|
    ensures WaitsOn(Create(s, v, prio, gotAsid), a, t) ==> WaitsOn(s, a, t)
    ensures |Create(s, v, prio, gotAsid).status| == |s.status|
  {
    hide Hash, Without, InsertAt;
    if prio < PRIOS && s.lists[FREE + v] != [] {
      HeadIsReady(s, NULL, NULL, FREE + v);
      ClaimKeeps(s, s.lists[FREE + v][0], prio);
    }
  }

  lemma WakeWaiters(s: State, b: nat, n: nat, a: nat, t: Tid)
    requires WF(s, NULL, NULL) && b < 4 * WORD
    ensures WaitsOn(Wake(s, b, n), a, t) ==> WaitsOn(s, a, t)
    ensures |Wake(s, b, n).status| == |s.status|
  {
    hide Hash, Wake, Firsts, Rest;
    WakeExact(s, b, n);
  }

  lemma UnlockPiWaiters(s: State, me: Tid, b: nat, a: nat, t: Tid)
    requires Inv(s) && IsRunning(s, me) && b < 4 * WORD
    ensures WaitsOn(UnlockPi(s, me, b), a, t) ==> WaitsOn(s, a, t)
    ensures |UnlockPi(s, me, b).status| == |s.status|
  {
    hide Hash, Without, InsertAt, Woken;
    WokenIsWaiter(s, b);
  }

  lemma VmSleepWaiters(s: State, me: Tid, a: nat, t: Tid)
    requires Inv(s) && IsRunning(s, me)
    ensures WaitsOn(VmSleep(s, me), a, t) ==> WaitsOn(s, a, t)
    ensures |VmSleep(s, me).status| == |s.status|
  {
    hide Hash, DoSched;
    RunRemoveKeeps(s, me);
    SetWaiting(RunRemove(s, me), me, s.hthread[me]);
    SchedWaiters(RunRemove(s, me).(status := s.status[me := VmWait]), s.hthread[me], a, t);
  }

  /** Only the two blocking entry points make a thread wait, and only the caller on its address. */
  lemma StepWaiters(s: State, op: Op, a: nat, t: Tid)
    requires Inv(s) && Enabled(s, op)
    ensures WaitsOn(Step(s, op), a, t) ==> WaitsOn(s, a, t) || op == OpWait(t, a) || op == OpLockPi(t, a)
    ensures |Step(s, op).status| == |s.status|
  {
    hide Hash, Resched, Requeue, BlockOn, Wake, LockPi, UnlockPi, VmSleep, Deliver, Create, Stop;
    match op
    case OpResched(h) => ReschedWaiters(s, h, a, t);
    case OpYield(me) => RequeueWaiters(s, me, a, t);
    case OpWait(me, b) => BlockOnWaiters(s, me, b, a, t);
    case OpResume(b, n) => WakeWaiters(s, b, n, a, t);
    case OpLockPi(me, b) => LockPiWaiters(s, me, b, a, t);
    case OpUnlockPi(me, b) => UnlockPiWaiters(s, me, b, a, t);
    case OpVmSleep(me) => VmSleepWaiters(s, me, a, t);
    case OpDeliver(u, enabled) => DeliverWaiters(s, u, enabled, NULL, a, t);
    case OpCreate(v, prio, gotAsid) => CreateWaiters(s, v, prio, gotAsid, a, t);
    case OpStop(me, parent, enabled) => StopWaiters(s, me, parent, enabled, a, t);
    case OpStore(b, w) =>
  }
}
