/** What each kernel entry point does to its caller, to the thread it touches and to the
    hardware thread it reschedules. */
module Effects {
  import opened Lists
  import opened Sched
  import opened Futex

  /** Hardware thread h runs a thread as good as every ready one, or sleeps because none is. */
  ghost predicate RunsBest(s: State, h: nat) {
    && h < |s.run| && h < |s.waiting|
    && if s.run[h] == NULL then s.waiting[h] && forall u :: 0 <= u < |s.status| ==> s.status[u] != Ready
       else
         && 0 <= s.run[h] < |s.prio|
         && forall u :: 0 <= u < |s.status| && u < |s.prio| && s.status[u] == Ready ==> s.prio[s.run[h]] <= s.prio[u]
  }

  /** Nobody but the thread x and the thread now on h changed status. */
  ghost predicate OthersStay(s: State, s1: State, x: int, h: nat) {
    && |s1.status| == |s.status| && h < |s1.run|
    && forall u :: 0 <= u < |s.status| && u != x && u != s1.run[h] ==> s1.status[u] == s.status[u]
  }

  /** Thread t is ready and last in the ring of its priority. */
  ghost predicate LastReady(s: State, t: Tid) {
    && t < |s.status| && t < |s.prio| && s.status[t] == Ready && s.prio[t] < |s.lists|
    && var r := s.lists[s.prio[t]]; r != [] && r[|r|-1] == t
  }

  /** Thread t is next in s: ready, first in its ring, and at least as good as every ready thread. */
  ghost predicate IsNext(s: State, t: int) {
    && 0 <= t < |s.status| && t < |s.prio| && s.status[t] == Ready
    && s.prio[t] < |s.lists| && s.lists[s.prio[t]] != [] && s.lists[s.prio[t]][0] == t
    && forall u :: 0 <= u < |s.status| && u < |s.prio| && s.status[u] == Ready ==> s.prio[t] <= s.prio[u]
  }

  /** s with the next thread t moved from its ring to hardware thread h. */
  ghost function Installed(s: State, t: Tid, h: nat): State
    requires IsNext(s, t) && t < |s.hthread| && h < |s.run|
  {
    s.(run := s.run[h := t], status := s.status[t := Running], hthread := s.hthread[t := h],
       lists := s.lists[s.prio[t] := s.lists[s.prio[t]][1..]])
  }

  /** s1 is s after hardware thread h took the next thread, or went into wait mode because
      nothing is ready; nothing else changed. */
  ghost predicate Picks(s: State, s1: State, h: nat) {
    && h < |s.run| && h < |s.waiting|
    && if forall u :: 0 <= u < |s.status| ==> s.status[u] != Ready then s1 == s.(waiting := s.waiting[h := true])
       else exists t: Tid :: IsNext(s, t) && t < |s.hthread| && s1 == Installed(s, t, h)
  }

  lemma DoSchedPicks(s: State, h: nat)
    requires WF(s, NULL, h) && h < |s.run|
    ensures Picks(s, DoSched(s, h), h)
  {
    hide Hash, Without;
    Sizes(s, NULL, h);
    var b := Best(s.lists, 0);
    DoSchedPicksBest(s, h);
    if b < PRIOS {
      HeadIsReady(s, NULL, h, b);
      WithoutHead(s.lists[b]);
      assert IsNext(s, s.lists[b][0]) && DoSched(s, h) == Installed(s, s.lists[b][0], h);
    }
  }

  // The states before the pick: the caller at the tail of its ring, in a bucket at position i,
  // asleep, or dead.

  ghost function Requeued(s: State, me: Tid): State
    requires Shape(s) && me < |s.status| && s.hthread[me] < |s.run|
  {
    s.(run := s.run[s.hthread[me] := NULL], status := s.status[me := Ready],
       lists := s.lists[s.prio[me] := s.lists[s.prio[me]] + [me]])
  }

  ghost function BlockedAt(s: State, me: Tid, a: nat, i: nat): State
    requires Shape(s) && me < |s.status| && s.hthread[me] < |s.run| && a < 4 * WORD
    requires i <= |s.lists[FUTEX + Hash(a)]|
  {
    var k := FUTEX + Hash(a);
    s.(run := s.run[s.hthread[me] := NULL], status := s.status[me := Blocked], futex := s.futex[me := a],
       lists := s.lists[k := s.lists[k][..i] + [me] + s.lists[k][i..]])
  }

  ghost function Asleep(s: State, me: Tid): State
    requires Shape(s) && me < |s.status| && s.hthread[me] < |s.run|
  {
    s.(run := s.run[s.hthread[me] := NULL], status := s.status[me := VmWait])
  }

  ghost function Retired(s: State, me: Tid): State
    requires Shape(s) && me < |s.status| && s.hthread[me] < |s.run| && s.numCpus[s.vm[me]] > 0
  {
    var k := FREE + s.vm[me];
    s.(run := s.run[s.hthread[me] := NULL], status := s.status[me := Dead], hthread := s.hthread[me := 0],
       prio := s.prio[me := 0], basePrio := s.basePrio[me := 0], futex := s.futex[me := 0],
       lists := s.lists[k := [me] + s.lists[k]], numCpus := s.numCpus[s.vm[me] := s.numCpus[s.vm[me]] - 1])
  }

  /** The state after an interrupt to t: out of its bucket, if it was in one, and last in its ring. */
  ghost function Interrupted(s: State, t: Tid): State
    requires Shape(s) && t < |s.status|
  {
    var k := FUTEX + Hash(s.futex[t]);
    var lists := if s.status[t] == Blocked then s.lists[k := Without(s.lists[k], t)] else s.lists;
    s.(status := s.status[t := Ready], lists := lists[s.prio[t] := s.lists[s.prio[t]] + [t]])
  }

  /** A waiter enters r behind exactly those at least as good as p. */
  ghost predicate Behind(r: seq<Tid>, prio: seq<nat>, p: nat, i: nat) {
    i <= |r| && forall j :: 0 <= j < |r| ==> r[j] < |prio| && (j < i <==> prio[r[j]] <= p)
  }

  /** dosched: the thread it installs was ready and first in the best ring. */
  lemma DoSchedEffect(s: State, h: nat)
    requires WF(s, NULL, h) && h < |s.run|
    ensures var s', b := DoSched(s, h), Best(s.lists, 0);
            && RunsBest(s', h) && OthersStay(s, s', NULL, h)
            && s'.prio == s.prio && s'.futex == s.futex && s'.vm == s.vm && s'.numCpus == s.numCpus
            && s'.basePrio == s.basePrio
            && |s'.lists| == |s.lists| && |s.lists| >= PRIOS
            && (s'.run[h] != NULL ==>
                  && b < PRIOS && s.lists[b] != [] && s'.run[h] == s.lists[b][0] && 0 <= s'.run[h] < |s.status|
                  && s.status[s'.run[h]] == Ready && s'.lists[b] == Without(s.lists[b], s.lists[b][0]))
            && (s'.run[h] == NULL ==> s'.lists == s.lists)
            && (forall k :: 0 <= k < |s.lists| && k != b ==> s'.lists[k] == s.lists[k])
  {
    hide Hash, Without, Best;
    var b := Best(s.lists, 0);
    Sizes(s, NULL, h);
    DoSchedPicksBest(s, h);
    if b < PRIOS { HeadIsReady(s, NULL, h, b); }
  }

  /** A thread at the tail of its ring, or in none, stays so unless it is picked. */
  lemma TailStays(s: State, h: nat, t: Tid)
    requires WF(s, NULL, h) && h < |s.run| && LastReady(s, t)
    ensures DoSched(s, h).run[h] == t || LastReady(DoSched(s, h), t)
    ensures |s.lists[s.prio[t]]| > 1 ==> DoSched(s, h).run[h] != t
  {
    hide Hash, Without, DoSched;
    DoSchedEffect(s, h);
    var r, b := s.lists[s.prio[t]], Best(s.lists, 0);
    assert Distinct(r);
    if DoSched(s, h).run[h] != NULL {
      HeadIsReady(s, NULL, h, b);
      WithoutHead(s.lists[b]);
    }
  }

  lemma WithoutHead(r: seq<Tid>)
    requires Distinct(r) && r != []
    ensures Without(r, r[0]) == r[1..]
  {
    WithoutFirst(r, 0);
  }

  lemma AppendedIsLast(s: State, t: Tid, x: int)
    requires WF(s, t, x) && t < |s.status|
    ensures var s' := ReadyAppend(s, t);
            && LastReady(s', t) && |s'.lists[s.prio[t]]| == |s.lists[s.prio[t]]| + 1
            && s' == s.(status := s.status[t := Ready], lists := s.lists[s.prio[t] := s.lists[s.prio[t]] + [t]])
  {
    hide Hash, InsertAt, WF;
    Sizes(s, t, x);
    PushBack(s.lists[s.prio[t]], t);
  }

  lemma PushBack(r: seq<Tid>, t: Tid)
    ensures InsertAt(r, |r|, t) == r + [t]
  {
  }

  lemma RequeueEffect(s: State, me: Tid)
    requires Inv(s) && IsRunning(s, me)
    ensures var s', h := Requeue(s, me), s.hthread[me];
            && RunsBest(s', h) && OthersStay(s, s', me, h)
            && (s'.run[h] == me || LastReady(s', me))
            && (s.lists[s.prio[me]] != [] ==> s'.run[h] != me)
  {
    hide Hash, InsertAt, DoSched, ReadyAppend, WF;
    Sizes(s, NULL, NULL);
    var h := s.hthread[me];
    RunRemoveKeeps(s, me);
    Sizes(RunRemove(s, me), me, h);
    ReadyKeeps(RunRemove(s, me), me, h);
    AppendedIsLast(RunRemove(s, me), me, h);
    var s1 := ReadyAppend(RunRemove(s, me), me);
    DoSchedEffect(s1, h);
    TailStays(s1, h, me);
  }

  lemma RequeuePicks(s: State, me: Tid)
    requires Inv(s) && IsRunning(s, me)
    ensures s.hthread[me] < |s.run| && s.run[s.hthread[me]] == me
    ensures Picks(Requeued(s, me), Requeue(s, me), s.hthread[me])
  {
    hide Hash, DoSched, WF, Picks;
    Sizes(s, NULL, NULL);
    var h := s.hthread[me];
    RunRemoveKeeps(s, me);
    Sizes(RunRemove(s, me), me, h);
    ReadyKeeps(RunRemove(s, me), me, h);
    AppendedIsLast(RunRemove(s, me), me, h);
    DoSchedPicks(Requeued(s, me), h);
  }

  /** Somebody is ready who is at least as good as p. */
  ghost predicate Rival(s: State, p: nat) {
    exists u :: 0 <= u < |s.status| && u < |s.prio| && s.status[u] == Ready && s.prio[u] <= p
  }

  /** Round robin: a requeued thread gives way exactly when somebody as good is ready, to the
      thread that was next; otherwise nothing at all changes. */
  lemma RequeueGivesWay(s: State, me: Tid)
    requires Inv(s) && IsRunning(s, me)
    ensures var s', h := Requeue(s, me), s.hthread[me];
            if Rival(s, s.prio[me]) then s'.run[h] != me && IsNext(s, s'.run[h]) && LastReady(s', me) else s' == s
  {
    hide Hash, Requeue, WF, Counted;
    Sizes(s, NULL, NULL);
    var s', h := Requeue(s, me), s.hthread[me];
    RequeuePicks(s, me);
    RequeueEffect(s, me);
    assert Requeued(s, me).status[me] == Ready;
    var t: Tid :| IsNext(Requeued(s, me), t) && s' == Installed(Requeued(s, me), t, h);
    if Rival(s, s.prio[me]) {
      GivesWay(s, me, t);
    } else {
      StaysOn(s, me, t);
    }
  }

  lemma GivesWay(s: State, me: Tid, t: Tid)
    requires Inv(s) && IsRunning(s, me) && s.hthread[me] < |s.run|
    requires IsNext(Requeued(s, me), t) && Rival(s, s.prio[me])
    ensures t != me && IsNext(s, t)
  {
    hide Hash, Counted, RunOk, BucketsSorted, WaitOk;
    var q := Requeued(s, me);
    var u :| 0 <= u < |s.status| && s.status[u] == Ready && s.prio[u] <= s.prio[me];
    assert q.status[u] == Ready;
    assert Belongs(s, NULL, s.prio[u], u);
    assert !Belongs(s, NULL, s.prio[me], me);
    forall v | 0 <= v < |s.status| && s.status[v] == Ready
      ensures s.prio[t] <= s.prio[v]
    {
      assert q.status[v] == Ready;
    }
  }

  lemma StaysOn(s: State, me: Tid, t: Tid)
    requires Inv(s) && IsRunning(s, me) && s.hthread[me] < |s.run| && s.run[s.hthread[me]] == me
    requires IsNext(Requeued(s, me), t) && !Rival(s, s.prio[me])
    ensures Installed(Requeued(s, me), t, s.hthread[me]) == s
  {
    hide Hash, Counted, RunOk, BucketsSorted, WaitOk;
    var q, r := Requeued(s, me), s.lists[s.prio[me]];
    assert q.status[me] == Ready;
    assert t == me;
    assert !Belongs(s, NULL, s.prio[me], me);
    assert q.lists[s.prio[me]][1..] == r;
  }

  /** resched puts the running thread last in its ring and runs the next thread: the interrupted
      thread itself exactly when nobody as good is ready. */
  lemma ReschedEffect(s: State, h: nat)
    requires Inv(s) && h < |s.run|
    ensures var s', me := Resched(s, h), s.run[h];
            && RunsBest(s', h) && OthersStay(s, s', me, h)
            && if me == NULL then Picks(s.(waiting := s.waiting[h := false]), s', h)
               else
                 && 0 <= me < |s.status| && s.hthread[me] < |s.run| && Picks(Requeued(s, me), s', h)
                 && if Rival(s, s.prio[me]) then s'.run[h] != me && IsNext(s, s'.run[h]) && LastReady(s', me)
                    else s' == s
  {
    hide Hash, DoSched, Requeue, Picks, IsNext, Rival;
    if s.run[h] != NULL {
      RequeueEffect(s, s.run[h]);
      RequeuePicks(s, s.run[h]);
      RequeueGivesWay(s, s.run[h]);
    } else {
      WakesUp(s, h);
      DoSchedEffect(s.(waiting := s.waiting[h := false]), h);
      DoSchedPicks(s.(waiting := s.waiting[h := false]), h);
    }
  }

  /** yield gives way to another thread of the same priority, or better, if there is one. */
  lemma YieldEffect(s: State, me: Tid)
    requires Inv(s) && IsRunning(s, me)
    ensures var s', h := Yield(s, me), s.hthread[me];
            if exists u :: 0 <= u < |s.status| && s.status[u] == Ready && s.prio[u] == s.prio[me] then
              && RunsBest(s', h) && s'.run[h] != me && LastReady(s', me) && OthersStay(s, s', me, h)
              && h < |s.run| && Picks(Requeued(s, me), s', h)
            else s' == s
  {
    hide Hash, Requeue, Picks;
    var r := s.lists[s.prio[me]];
    if r != [] {
      HeadIsReady(s, NULL, NULL, s.prio[me]);
      RequeueEffect(s, me);
      RequeuePicks(s, me);
    } else {
      forall u | 0 <= u < |s.status| && s.status[u] == Ready
        ensures s.prio[u] != s.prio[me]
      {
        assert Belongs(s, NULL, s.prio[u], u);
      }
    }
  }

  /** s1 is s after me blocked on a, behind the waiters of its bucket that are at least as good,
      and its hardware thread took the next thread. */
  ghost predicate Blocks(s: State, s1: State, me: Tid, a: nat) {
    && Shape(s) && me < |s.status| && s.hthread[me] < |s.run| && a < 4 * WORD
    && exists i :: Behind(s.lists[FUTEX + Hash(a)], s.prio, s.prio[me], i) &&
                   Picks(BlockedAt(s, me, a, i), s1, s.hthread[me])
  }

  lemma BlockOnPicks(s: State, me: Tid, a: nat)
    requires Inv(s) && IsRunning(s, me) && a < 4 * WORD
    ensures Blocks(s, BlockOn(s, me, a), me, a)
  {
    hide Hash, Slot, DoSched, WF, Picks;
    Sizes(s, NULL, NULL);
    var h := s.hthread[me];
    RunRemoveKeeps(s, me);
    Sizes(RunRemove(s, me), me, h);
    EditKeeps(RunRemove(s, me), me, s.prio[me], s.basePrio[me], a, h);
    var s1, k := Edit(RunRemove(s, me), me, s.prio[me], s.basePrio[me], a), FUTEX + Hash(a);
    Sizes(s1, me, h);
    EnqueueKeeps(s1, me, h);
    assert s1.prio == s.prio && s1.basePrio == s.basePrio;
    var i := Slot(s.lists[k], s.prio, s.prio[me]);
    BucketSplits(s, k, s.prio[me]);
    assert Enqueue(s1, me) == BlockedAt(s, me, a, i);
    DoSchedPicks(Enqueue(s1, me), h);
  }

  lemma BucketSplits(s: State, k: nat, p: nat)
    requires WF(s, NULL, NULL) && FUTEX <= k < FREE
    ensures Behind(s.lists[k], s.prio, p, Slot(s.lists[k], s.prio, p))
  {
    hide Hash, Slot;
    SlotSplits(s.lists[k], s.prio, p);
  }

  /** A blocking wait leaves the caller waiting on its address, behind the waiters at least as
      good, and runs the next thread. */
  lemma BlockOnEffect(s: State, me: Tid, a: nat)
    requires Inv(s) && IsRunning(s, me) && a < 4 * WORD
    ensures var s', h := BlockOn(s, me, a), s.hthread[me];
            RunsBest(s', h) && OthersStay(s, s', me, h) && WaitsOn(s', a, me) && s'.run[h] != me && Blocks(s, s', me, a)
  {
    hide Hash, InsertAt, Slot, DoSched, WF, Blocks;
    BlockOnPicks(s, me, a);
    Sizes(s, NULL, NULL);
    var h := s.hthread[me];
    RunRemoveKeeps(s, me);
    Sizes(RunRemove(s, me), me, h);
    EditKeeps(RunRemove(s, me), me, s.prio[me], s.basePrio[me], a, h);
    var s1 := Edit(RunRemove(s, me), me, s.prio[me], s.basePrio[me], a);
    Sizes(s1, me, h);
    EnqueueKeeps(s1, me, h);
    DoSchedEffect(Enqueue(s1, me), h);
  }

  /** A VM wait leaves the caller asleep, in no list, and runs the best ready thread. */
  lemma VmSleepEffect(s: State, me: Tid)
    requires Inv(s) && IsRunning(s, me)
    ensures var s', h := VmSleep(s, me), s.hthread[me];
            && RunsBest(s', h) && OthersStay(s, s', me, h) && s'.run[h] != me && s'.status[me] == VmWait
            && h < |s.run| && Picks(Asleep(s, me), s', h)
  {
    hide Hash, DoSched, WF, Picks;
    Sizes(s, NULL, NULL);
    RunRemoveKeeps(s, me);
    SetWaiting(RunRemove(s, me), me, s.hthread[me]);
    DoSchedPicks(Asleep(s, me), s.hthread[me]);
    DoSchedEffect(RunRemove(s, me).(status := s.status[me := VmWait]), s.hthread[me]);
  }

  /** An interrupt makes its thread ready exactly when it slept in a VM wait, or was blocked
      with interrupts enabled; otherwise nothing moves. */
  lemma DeliverEffect(s: State, t: Tid, enabled: bool, x: int)
    requires WF(s, NULL, x) && t < |s.status|
    ensures var s' := Deliver(s, t, enabled, x);
            if s.status[t] == VmWait || (s.status[t] == Blocked && enabled) then
              s' == Interrupted(s, t) && LastReady(s', t) && s'.status == s.status[t := Ready]
            else s' == s
  {
    hide Hash, Without, InsertAt, WF, ReadyAppend, Unlink;
    Sizes(s, NULL, x);
    if s.status[t] == VmWait {
      WaitingIsDetached(s, t, x);
      AppendedIsLast(s, t, x);
    } else if s.status[t] == Blocked {
      UnlinkKeeps(s, t, x);
      UnlinkStays(s, t);
      AppendedIsLast(Unlink(s, t), t, x);
    }
  }

  lemma UnlinkStays(s: State, t: Tid)
    requires Shape(s) && t < |s.status| && Home(s, t) != NULL
    ensures var k := Home(s, t); Unlink(s, t) == s.(lists := s.lists[k := Without(s.lists[k], t)])
  {
  }

  /** create takes the first free context of the VM, if it may, and makes it ready last at the
      priority asked for; without an address space id every context stays free. */
  lemma CreateEffect(s: State, v: nat, prio: nat, gotAsid: bool)
    requires Inv(s) && v < |s.maxCpus|
    ensures var s', free := Create(s, v, prio, gotAsid), s.lists[FREE + v];
            if prio < PRIOS && free != [] then
              && free[0] < |s.status| && s.status[free[0]] == Dead
              && if gotAsid then s' == Started(s, v, prio) && LastReady(s', free[0])
                 else s' == s.(prio := s.prio[free[0] := prio], basePrio := s.basePrio[free[0] := prio])
            else s' == s
  {
    hide Hash, WF, Counted, InsertAt, Without;
    Sizes(s, NULL, NULL);
    var free := s.lists[FREE + v];
    if prio < PRIOS && free != [] {
      var t := free[0];
      HeadIsReady(s, NULL, NULL, FREE + v);
      ClaimKeeps(s, t, prio);
      FreeWithout(s, v);
      var s1 := Claim(s, t, prio);
      Sizes(s1, t, NULL);
      AppendedIsLast(s1, t, NULL);
      if !gotAsid { PutBack(free); }
    }
  }

  /** The first free context of VM v made ready at priority prio. */
  ghost function Started(s: State, v: nat, prio: nat): State
    requires Shape(s) && v < |s.maxCpus| && prio < PRIOS && s.lists[FREE + v] != [] && s.lists[FREE + v][0] < |s.status|
  {
    var t := s.lists[FREE + v][0];
    s.(prio := s.prio[t := prio], basePrio := s.basePrio[t := prio], status := s.status[t := Ready],
       lists := s.lists[FREE + v := s.lists[FREE + v][1..]][prio := s.lists[prio] + [t]],
       numCpus := s.numCpus[v := s.numCpus[v] + 1])
  }

  lemma FreeWithout(s: State, v: nat)
    requires WF(s, NULL, NULL) && v < |s.maxCpus| && s.lists[FREE + v] != []
    ensures Without(s.lists[FREE + v], s.lists[FREE + v][0]) == s.lists[FREE + v][1..]
  {
    hide Hash, Without;
    WithoutHead(s.lists[FREE + v]);
  }

  lemma PutBack(r: seq<Tid>)
    requires r != []
    ensures InsertAt(r[1..], 0, r[0]) == r
  {
  }

  /** stop leaves the caller dead and first in the free list of its VM, and its hardware thread
      runs the best ready thread; a parent that is told of it wakes as by any interrupt. */
  lemma StopEffect(s: State, me: Tid, parent: int, enabled: bool)
    requires Inv(s) && IsRunning(s, me) && NULL <= parent < |s.status|
    ensures s.numCpus[s.vm[me]] > 0 && |Stop(s, me, parent, enabled).lists| == |s.lists|
    ensures var s', h := Stop(s, me, parent, enabled), s.hthread[me];
            && RunsBest(s', h) && s'.status[me] == Dead && s'.run[h] != me
            && (forall u ::
                  0 <= u < |s.status| && u != me && u != parent && u != s'.run[h] ==> s'.status[u] == s.status[u])
            && (parent != NULL && parent != me && parent != s'.run[h] ==>
                  s'.status[parent] ==
                    if s.status[parent] == VmWait || (s.status[parent] == Blocked && enabled) then Ready
                    else s.status[parent])
            && s'.lists[FREE + s.vm[me]] == [me] + s.lists[FREE + s.vm[me]]
            && s'.numCpus == s.numCpus[s.vm[me] := s.numCpus[s.vm[me]] - 1]
            && h < |s.run| && Picks(Notified(s, me, parent, enabled), s', h)
  {
    hide Hash, WF, Counted, DoSched, Retire, Deliver, SameVms, Picks, Interrupted, Notified;
    Sizes(s, NULL, NULL);
    RetireKeeps(s, me);
    RetireEffect(s, me);
    var s1, h := Retire(s, me), s.hthread[me];
    Sizes(s1, NULL, h);
    var s2 := if parent == NULL then s1 else Deliver(s1, parent, enabled, h);
    if parent != NULL { DeliverEffect(s1, parent, enabled, h); }
    SameFree(s1, s2);
    DoSchedEffect(s2, h);
    StopPicks(s, me, parent, enabled);
  }

  lemma StopPicks(s: State, me: Tid, parent: int, enabled: bool)
    requires Inv(s) && IsRunning(s, me) && NULL <= parent < |s.status|
    ensures s.hthread[me] < |s.run| && s.numCpus[s.vm[me]] > 0
    ensures Picks(Notified(s, me, parent, enabled), Stop(s, me, parent, enabled), s.hthread[me])
  {
    hide Hash, WF, Counted, DoSched, Retire, Retired, Deliver, Picks, Interrupted;
    Sizes(s, NULL, NULL);
    RetireKeeps(s, me);
    RetireEffect(s, me);
    var s1, h := Retire(s, me), s.hthread[me];
    var s2 := if parent == NULL then s1 else Deliver(s1, parent, enabled, h);
    if parent != NULL { DeliverEffect(s1, parent, enabled, h); }
    DoSchedPicks(s2, h);
  }

  /** The caller retired, and its parent interrupted if it was told and waits for that. */
  ghost function Notified(s: State, me: Tid, parent: int, enabled: bool): State
    requires Inv(s) && IsRunning(s, me) && s.hthread[me] < |s.run| && s.numCpus[s.vm[me]] > 0
    requires NULL <= parent < |s.status|
  {
    RetireEffect(s, me);
    var s1 := Retired(s, me);
    if parent != NULL && (s1.status[parent] == VmWait || (s1.status[parent] == Blocked && enabled))
    then Interrupted(s1, parent) else s1
  }

  lemma SameFree(s: State, s1: State)
    requires s1 == s || SameVms(s, s1)
    ensures s1.numCpus == s.numCpus && |s1.lists| == |s.lists|
    ensures forall k :: FREE <= k < |s.lists| ==> s1.lists[k] == s.lists[k]
  {
  }

  lemma RetireEffect(s: State, me: Tid)
    requires Inv(s) && IsRunning(s, me)
    ensures s.numCpus[s.vm[me]] > 0 && s.hthread[me] < |s.run|
    ensures Retire(s, me) == Retired(s, me) && Shape(Retired(s, me))
  {
    hide Hash, WF, Counted, InsertAt;
    Sizes(s, NULL, NULL);
    LiveIsCounted(s, me);
    RunRemoveKeeps(s, me);
    Sizes(RunRemove(s, me), me, s.hthread[me]);
    EditKeeps(RunRemove(s, me), me, 0, 0, 0, s.hthread[me]);
    PushFront(s.lists[FREE + s.vm[me]], me);
    RetireKeeps(s, me);
    Sizes(Retire(s, me), NULL, s.hthread[me]);
  }

  /** unlock wakes the first waiter, if there is one, and no other; nobody runs or stops running,
      the word passes to the woken thread, and only the caller's priority changes. */
  lemma UnlockEffect(s: State, me: Tid, a: nat)
    requires Inv(s) && IsRunning(s, me) && a < 4 * WORD
    ensures var s', t, k := UnlockPi(s, me, a), Woken(s, a), FUTEX + Hash(a);
            if t == NULL then
              && s' == s.(prio := s.prio[me := s.basePrio[me]], mem := s.mem[a := 0])
              && forall u :: !WaitsOn(s, a, u)
            else
              && 0 <= t < |s.status| && WaitsOn(s, a, t)
              && s' == s.(prio := s.prio[me := s.basePrio[me]], status := s.status[t := Ready],
                          mem := s.mem[a := RawId(s, t) + 1],
                          lists := s.lists[k := Without(s.lists[k], t)][s.prio[t] := s.lists[s.prio[t]] + [t]])
  {
    hide Hash, WF, Counted, Woken, Without, MakeReady;
    Sizes(s, NULL, NULL);
    WokenIsWaiter(s, a);
    if Woken(s, a) != NULL { MakeReadyLists(s, Woken(s, a)); }
  }

  lemma PushFront(r: seq<Tid>, t: Tid)
    ensures InsertAt(r, 0, t) == [t] + r
  {
  }

  /** s1 is s with priority p lent to t: a ready thread is at the front of its new ring, a blocked
      one behind those of its bucket that are at least as good; a priority that is no better, a
      dead and a sleeping thread change nothing. */
  ghost predicate Raised(s: State, s1: State, p: nat, t: int)
    requires Shape(s) && p < PRIOS && NULL <= t < |s.status|
  {
    if t == NULL || s.prio[t] <= p || s.status[t] == Dead || s.status[t] == VmWait then s1 == s
    else
      && s1 == s.(prio := s.prio[t := p], lists := s1.lists)
      && (s.status[t] == Running ==> s1.lists == s.lists)
      && (s.status[t] == Ready ==>
            s1.lists == s.lists[s.prio[t] := Without(s.lists[s.prio[t]], t)][p := [t] + s.lists[p]])
      && (s.status[t] == Blocked ==>
            var k := FUTEX + Hash(s.futex[t]);
            var q := Without(s.lists[k], t);
            exists i :: Behind(q, s1.prio, p, i) && s1.lists == s.lists[k := InsertAt(q, i, t)])
  }

  lemma RaiseEffect(s: State, p: nat, t: int)
    requires WF(s, NULL, NULL) && p < PRIOS && NULL <= t < |s.status|
    ensures Raised(s, Raise(s, p, t), p, t)
  {
    hide Hash, Without, InsertAt, Slot, WF, Shape;
    Sizes(s, NULL, NULL);
    if t != NULL && s.prio[t] > p && s.status[t] == Ready {
      RaisedReady(s, p, t);
    }
    if t != NULL && s.prio[t] > p && s.status[t] == Blocked { RaisedBlocked(s, p, t); }
  }

  lemma RaisedReady(s: State, p: nat, t: Tid)
    requires WF(s, NULL, NULL) && p < PRIOS && t < |s.status| && s.prio[t] > p && s.status[t] == Ready
    ensures Raised(s, Raise(s, p, t), p, t)
  {
    hide Hash, Without, InsertAt, Slot, WF, Shape;
    Sizes(s, NULL, NULL);
    PushFront(s.lists[p], t);
  }

  lemma RaisedBlocked(s: State, p: nat, t: Tid)
    requires WF(s, NULL, NULL) && p < PRIOS && t < |s.status| && s.prio[t] > p && s.status[t] == Blocked
    ensures Raised(s, Raise(s, p, t), p, t)
  {
    hide Hash, Without, InsertAt, Slot, WF, Shape, Behind;
    Sizes(s, NULL, NULL);
    RaisedBehind(s, p, t);
  }

  lemma RaisedBehind(s: State, p: nat, t: Tid)
    requires WF(s, NULL, NULL) && p < PRIOS && t < |s.status| && s.status[t] == Blocked
    ensures var q := Without(s.lists[FUTEX + Hash(s.futex[t])], t);
            Behind(q, s.prio[t := p], p, Slot(q, s.prio[t := p], p))
  {
    hide Hash, Without, InsertAt, Slot;
    UnlinkKeeps(s, t, NULL);
    EditKeeps(Unlink(s, t), t, p, s.basePrio[t], s.futex[t], NULL);
    var k, s1 := FUTEX + Hash(s.futex[t]), Edit(Unlink(s, t), t, p, s.basePrio[t], s.futex[t]);
    assert Sorted(s1.lists[k], s1.prio);
    InsertSorted(s1.lists[k], s1.prio, t);
  }

  /** The thread whose priority a blocking lock call raises to its own: the one the word names,
      if it is worse and neither dead nor in a VM wait. */
  ghost predicate Lends(s: State, me: Tid, dest: int) {
    && me < |s.prio| && 0 <= dest < |s.prio| && dest < |s.status| && s.prio[me] < s.prio[dest]
    && s.status[dest] != Dead && s.status[dest] != VmWait
  }

  /** A lock call takes a free word at once; otherwise it sets bit 0 of the word, lends exactly
      its own priority to the owner, and its caller waits behind those at least as good. */
  lemma LockEffect(s: State, me: Tid, a: nat)
    requires Inv(s) && IsRunning(s, me) && a < 4 * WORD
    ensures var s', w := LockPi(s, me, a), SetBit0(Word(s, a));
            var dest := NamedBy(s, w);
            if Word(s, a) <= 1 then s' == SetWord(s, a, RawId(s, me))
            else
              && WaitsOn(s', a, me) && RunsBest(s', s.hthread[me]) && OthersStay(s, s', me, s.hthread[me])
              && s'.mem == s.mem[a := w] && s'.basePrio == s.basePrio
              && s'.prio == (if Lends(s, me, dest) then s.prio[dest := s.prio[me]] else s.prio)
              && exists r :: Raised(SetWord(s, a, w), r, s.prio[me], dest) && Blocks(r, s', me, a)
  {
    hide Hash, WF, Counted, Raise, BlockOn, Blocks, Raised, Lends;
    Sizes(s, NULL, NULL);
    var w := SetBit0(Word(s, a));
    if w != 1 {
      var s1, dest := SetWord(s, a, w), NamedBy(s, w);
      NeutralKeeps(s, s1, NULL, NULL);
      RaiseKeeps(s1, s.prio[me], dest);
      RaiseColumns(s1, s.prio[me], dest);
      RaiseEffect(s1, s.prio[me], dest);
      var r := Raise(s1, s.prio[me], dest);
      RaisedPrio(s1, r, me, dest);
      InvFrom(s, r);
      BlockOnEffect(r, me, a);
      BlockOnMem(r, me, a);
      LendsSame(s, s1, me, dest);
      assert Raised(SetWord(s, a, w), r, s.prio[me], dest) && Blocks(r, LockPi(s, me, a), me, a);
    }
  }

  lemma RaisedPrio(s: State, s1: State, me: Tid, dest: int)
    requires Shape(s) && me < |s.status| && NULL <= dest < |s.status| && Raised(s, s1, s.prio[me], dest)
    ensures s1.prio == if Lends(s, me, dest) then s.prio[dest := s.prio[me]] else s.prio
  {
    hide Hash, Without, InsertAt, Behind;
  }

  lemma LendsSame(s: State, s1: State, me: Tid, dest: int)
    requires s1 == s.(mem := s1.mem)
    ensures Lends(s1, me, dest) <==> Lends(s, me, dest)
  {
  }

  lemma BlockOnMem(s: State, me: Tid, a: nat)
    requires Inv(s) && IsRunning(s, me) && a < 4 * WORD
    ensures var s' := BlockOn(s, me, a); s'.mem == s.mem && s'.basePrio == s.basePrio && s'.prio == s.prio
  {
    hide Hash, InsertAt, Slot, WF, Counted, Best;
    Sizes(s, NULL, NULL);
    assert s.basePrio[me := s.basePrio[me]] == s.basePrio && s.prio[me := s.prio[me]] == s.prio;
  }

  // ---------------------------------------------------------------- every entry point

  /** A lock call of me on a, from s to s1. */
  ghost predicate Locks(s: State, s1: State, me: Tid, a: nat)
    requires Shape(s) && me < |s.status|
  {
    var w := SetBit0(Word(s, a));
    if Word(s, a) <= 1 then s1 == SetWord(s, a, RawId(s, me))
    else exists r :: Raised(SetWord(s, a, w), r, s.prio[me], NamedBy(s, w)) && Blocks(r, s1, me, a)
  }

  /** What each entry point does to the whole state. */
  ghost predicate Does(s: State, op: Op, s1: State)
    requires Inv(s) && Enabled(s, op)
  {
    match op
    case OpResched(h) =>
      if s.run[h] == NULL then Picks(s.(waiting := s.waiting[h := false]), s1, h)
      else 0 <= s.run[h] < |s.status| && s.hthread[s.run[h]] < |s.run| && Picks(Requeued(s, s.run[h]), s1, h)
    case OpYield(me) =>
      if exists u :: 0 <= u < |s.status| && s.status[u] == Ready && s.prio[u] == s.prio[me] then
        s.hthread[me] < |s.run| && Picks(Requeued(s, me), s1, s.hthread[me])
      else s1 == s
    case OpWait(me, a) => Blocks(s, s1, me, a)
    case OpResume(a, n) =>
      var k := FUTEX + Hash(a);
      Woke(s, s1, k, Firsts(s.lists[k], s.futex, a, n), Rest(s.lists[k], s.futex, a, n))
    case OpLockPi(me, a) => Locks(s, s1, me, a)
    case OpUnlockPi(me, a) =>
      if Woken(s, a) == NULL then s1 == s.(prio := s.prio[me := s.basePrio[me]], mem := s.mem[a := 0])
      else
        && 0 <= Woken(s, a) < |s.status|
        && s1 == Interrupted(s, Woken(s, a)).(prio := s.prio[me := s.basePrio[me]],
                                              mem := s.mem[a := RawId(s, Woken(s, a)) + 1])
    case OpVmSleep(me) => s.hthread[me] < |s.run| && Picks(Asleep(s, me), s1, s.hthread[me])
    case OpDeliver(t, enabled) =>
      s1 == if s.status[t] == VmWait || (s.status[t] == Blocked && enabled) then Interrupted(s, t) else s
    case OpCreate(v, prio, gotAsid) =>
      var free := s.lists[FREE + v];
      if prio < PRIOS && free != [] then
        && free[0] < |s.status|
        && s1 == if gotAsid then Started(s, v, prio)
                 else s.(prio := s.prio[free[0] := prio], basePrio := s.basePrio[free[0] := prio])
      else s1 == s
    case OpStop(me, parent, enabled) =>
      && s.hthread[me] < |s.run| && s.numCpus[s.vm[me]] > 0
      && Picks(Notified(s, me, parent, enabled), s1, s.hthread[me])
    case OpStore(a, w) => s1 == s.(mem := s.mem[a := w])
  }

  /** The entry points, built from the moves of the lists, do exactly that. */
  lemma StepEffect(s: State, op: Op)
    requires Inv(s) && Enabled(s, op)
    ensures Does(s, op, Step(s, op))
  {
    hide Hash, WF, Counted, Resched, Yield, BlockOn, Wake, LockPi, UnlockPi, VmSleep, Deliver, Create, Stop;
    hide Picks, Blocks, Woke, Firsts, Rest, Raised, Requeued, Asleep, Notified, Started, Woken;
    Sizes(s, NULL, NULL);
    match op
    case OpResched(h) => ReschedEffect(s, h);
    case OpYield(me) => YieldEffect(s, me);
    case OpWait(me, a) => BlockOnEffect(s, me, a);
    case OpResume(a, n) => WakeExact(s, a, n);
    case OpLockPi(me, a) => LockEffect(s, me, a);
    case OpUnlockPi(me, a) => UnlockEffect(s, me, a); WokenIsWaiter(s, a);
    case OpVmSleep(me) => VmSleepEffect(s, me);
    case OpDeliver(t, enabled) => DeliverEffect(s, t, enabled, NULL);
    case OpCreate(v, prio, gotAsid) => CreateEffect(s, v, prio, gotAsid);
    case OpStop(me, parent, enabled) => StopEffect(s, me, parent, enabled);
    case OpStore(a, w) =>
  }
}
