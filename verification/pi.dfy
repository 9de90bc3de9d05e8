/** The protocol of the priority-inheritance locks, over runs in which the lock words are
    touched by the kernel entry points only and only the holder unlocks. */
module PiLocks {
  import opened Lists
  import opened Sched
  import opened Futex
  import opened Effects

  /** The kernel state, and the thread each lock was granted to: by a lock call that
      returned at once, or by the unlock that woke it. */
  datatype System = System(s: State, owner: map<nat, Tid>)

  /** The grants after one entry point. */
  ghost function Grants(y: System, op: Op): map<nat, Tid>
    requires Inv(y.s) && Enabled(y.s, op)
  {
    match op
    case OpLockPi(me, a) => if SetBit0(Word(y.s, a)) == 1 then y.owner[a := me] else y.owner
    case OpUnlockPi(me, a) =>
      WokenIsWaiter(y.s, a);
      if Woken(y.s, a) == NULL then y.owner - {a} else y.owner[a := Woken(y.s, a)]
    case _ => y.owner
  }

  ghost function Next(y: System, op: Op): System
    requires Inv(y.s) && Enabled(y.s, op)
  {
    System(Step(y.s, op), Grants(y, op))
  }

  ghost predicate Owns(y: System, t: Tid) {
    exists a :: a in y.owner && y.owner[a] == t
  }

  /** The words in locks are used as locks only; holders unlock, and do not stop. */
  ghost predicate Legal(y: System, locks: set<nat>, op: Op) {
    && Enabled(y.s, op)
    && match op
       case OpLockPi(me, a) => a in locks
       case OpUnlockPi(me, a) => a in locks && a in y.owner && y.owner[a] == me
       case OpWait(me, a) => a !in locks
       case OpResume(a, n) => a !in locks
       case OpStore(a, w) => a !in locks
       case OpStop(me, parent, enabled) => !Owns(y, me)
       case _ => true
  }

  /** A free lock has word 0 and no waiter; the word of a taken lock names exactly the
      granted thread, which is alive, and has bit 0 set if anybody waits. */
  ghost predicate LockOk(y: System, a: nat) {
    if a in y.owner then
      && y.owner[a] < |y.s.status| && y.owner[a] < |y.s.id| && y.s.status[y.owner[a]] != Dead
      && Word(y.s, a) in {RawId(y.s, y.owner[a]), RawId(y.s, y.owner[a]) + 1}
      && (forall t :: WaitsOn(y.s, a, t) ==> Word(y.s, a) == RawId(y.s, y.owner[a]) + 1)
    else
      && Word(y.s, a) == 0
      && (forall t :: !WaitsOn(y.s, a, t))
  }

  ghost predicate Protocol(y: System, locks: set<nat>) {
    && Inv(y.s)
    && (forall a :: a in locks ==> a < 4 * WORD && LockOk(y, a))
    && (forall a :: a in y.owner ==> a in locks)
  }

  // ---------------------------------------------------------------- what an entry point leaves alone

  /** Memory and ids are as before, and so is the priority of every thread but x; no thread
      but x has died or gone into a VM wait. */
  ghost predicate QuietBut(s: State, s1: State, x: int) {
    && s1.mem == s.mem && s1.id == s.id && s1.contexts == s.contexts
    && |s1.status| == |s.status| && |s1.prio| == |s.prio|
    && (forall t :: 0 <= t < |s.prio| && t != x ==> s1.prio[t] == s.prio[t])
    && (forall t :: 0 <= t < |s.status| && t != x && s1.status[t] == Dead ==> s.status[t] == Dead)
    && (forall t :: 0 <= t < |s.status| && t != x && s1.status[t] == VmWait ==> s.status[t] == VmWait)
  }

  lemma SchedQuiet(s: State, h: nat)
    requires WF(s, NULL, h) && h < |s.run|
    ensures QuietBut(s, DoSched(s, h), NULL)
  {
    hide Hash, Without, Best;
    var b := Best(s.lists, 0);
    if b < PRIOS { HeadIsReady(s, NULL, h, b); }
  }

  lemma RequeueQuiet(s: State, me: Tid)
    requires Inv(s) && IsRunning(s, me)
    ensures QuietBut(s, Requeue(s, me), NULL)
  {
    hide Hash, InsertAt, DoSched, WF, Shape, Counted;
    Sizes(s, NULL, NULL);
    RunRemoveKeeps(s, me);
    Sizes(RunRemove(s, me), me, s.hthread[me]);
    ReadyKeeps(RunRemove(s, me), me, s.hthread[me]);
    SchedQuiet(ReadyAppend(RunRemove(s, me), me), s.hthread[me]);
  }

  lemma ReschedQuiet(s: State, h: nat)
    requires Inv(s) && h < |s.run|
    ensures QuietBut(s, Resched(s, h), NULL)
  {
    hide Hash, DoSched, Requeue;
    if s.run[h] != NULL {
      RequeueQuiet(s, s.run[h]);
    } else {
      WakesUp(s, h);
      SchedQuiet(s.(waiting := s.waiting[h := false]), h);
    }
  }

  lemma BlockOnQuiet(s: State, me: Tid, a: nat)
    requires Inv(s) && IsRunning(s, me) && a < 4 * WORD
    ensures QuietBut(s, BlockOn(s, me, a), NULL)
  {
    hide Hash, InsertAt, Slot, DoSched, WF, Shape, Counted;
    Sizes(s, NULL, NULL);
    var h := s.hthread[me];
    RunRemoveKeeps(s, me);
    Sizes(RunRemove(s, me), me, h);
    EditKeeps(RunRemove(s, me), me, s.prio[me], s.basePrio[me], a, h);
    var s1 := Edit(RunRemove(s, me), me, s.prio[me], s.basePrio[me], a);
    Sizes(s1, me, h);
    EnqueueKeeps(s1, me, h);
    SchedQuiet(Enqueue(s1, me), h);
  }

  lemma QuietAlone(s: State)
    ensures QuietBut(s, s, NULL)
  {
  }

  lemma QuietTwice(s: State, s1: State, s2: State)
    requires QuietBut(s, s1, NULL) && QuietBut(s1, s2, NULL)
    ensures QuietBut(s, s2, NULL)
  {
  }

  lemma ReadyQuiet(s: State, t: Tid)
    requires WF(s, NULL, NULL) && t < |s.status| && s.status[t] == Blocked
    ensures QuietBut(s, MakeReady(s, t, NULL), NULL)
  {
    hide Hash;
    MakeReadyLists(s, t);
  }

  lemma {:induction false} WakeQuiet(s: State, a: nat, n: nat)
    requires WF(s, NULL, NULL) && a < 4 * WORD
    ensures QuietBut(s, Wake(s, a, n), NULL)
    decreases n
  {
    hide Hash, MakeReady, Woken, Shape, Placed, RunOk, BucketsSorted, WaitOk, QuietBut;
    var t := Woken(s, a);
    if n == 0 || t == NULL {
      QuietAlone(s);
    } else {
      WokenIsWaiter(s, a);
      MakeReadyKeeps(s, t, NULL);
      ReadyQuiet(s, t);
      WakeQuiet(MakeReady(s, t, NULL), a, n - 1);
      QuietTwice(s, MakeReady(s, t, NULL), Wake(s, a, n));
    }
  }

  lemma DeliverQuiet(s: State, t: Tid, enabled: bool, x: int)
    requires WF(s, NULL, x) && t < |s.status|
    ensures QuietBut(s, Deliver(s, t, enabled, x), NULL)
  {
    hide Hash, Without, InsertAt, WF, Shape;
    Sizes(s, NULL, x);
  }

  lemma StopQuiet(s: State, me: Tid, parent: int, enabled: bool)
    requires Inv(s) && IsRunning(s, me) && NULL <= parent < |s.status|
    ensures QuietBut(s, Stop(s, me, parent, enabled), me)
  {
    hide Hash, InsertAt, DoSched, Deliver;
    RetireKeeps(s, me);
    var s1, h := Retire(s, me), s.hthread[me];
    assert QuietBut(s, s1, me);
    if parent == NULL {
      SchedQuiet(s1, h);
    } else {
      DeliverQuiet(s1, parent, enabled, h);
      SchedQuiet(Deliver(s1, parent, enabled, h), h);
    }
  }

  lemma VmSleepQuiet(s: State, me: Tid)
    requires Inv(s) && IsRunning(s, me)
    ensures QuietBut(s, VmSleep(s, me), me) && VmSleep(s, me).status[me] != Dead
    ensures VmSleep(s, me).prio == s.prio && Step(s, OpVmSleep(me)) == VmSleep(s, me)
  {
    hide Hash, DoSched;
    RunRemoveKeeps(s, me);
    SetWaiting(RunRemove(s, me), me, s.hthread[me]);
    SchedQuiet(RunRemove(s, me).(status := s.status[me := VmWait]), s.hthread[me]);
  }

  /** The thread an entry point may end, put to sleep or give a fresh priority. */
  ghost function Subject(s: State, op: Op): int
    requires Inv(s) && Enabled(s, op)
  {
    match op
    case OpVmSleep(me) => me
    case OpStop(me, parent, enabled) => me
    case OpCreate(v, prio, gotAsid) => if s.lists[FREE + v] == [] then NULL else s.lists[FREE + v][0]
    case _ => NULL
  }

  lemma CreateQuiet(s: State, v: nat, prio: nat, gotAsid: bool)
    requires Inv(s) && v < |s.maxCpus|
    ensures QuietBut(s, Create(s, v, prio, gotAsid), Subject(s, OpCreate(v, prio, gotAsid)))
    ensures s.lists[FREE + v] != [] ==> s.lists[FREE + v][0] < |s.status| && s.status[s.lists[FREE + v][0]] == Dead
  {
    hide Hash, Without, InsertAt;
    if s.lists[FREE + v] != [] {
      HeadIsReady(s, NULL, NULL, FREE + v);
      if prio < PRIOS { ClaimKeeps(s, s.lists[FREE + v][0], prio); }
    }
  }

  lemma StepQuiet(s: State, op: Op)
    requires Inv(s) && Enabled(s, op) && !op.OpLockPi? && !op.OpUnlockPi? && !op.OpStore?
    ensures QuietBut(s, Step(s, op), Subject(s, op))
  {
    hide Hash, Resched, Requeue, BlockOn, Wake, VmSleep, Deliver, Create, Stop;
    match op
    case OpResched(h) => ReschedQuiet(s, h);
    case OpYield(me) => RequeueQuiet(s, me);
    case OpWait(me, b) => BlockOnQuiet(s, me, b);
    case OpResume(b, n) => WakeQuiet(s, b, n);
    case OpVmSleep(me) => VmSleepQuiet(s, me);
    case OpDeliver(u, enabled) => DeliverQuiet(s, u, enabled, NULL);
    case OpCreate(v, prio, gotAsid) => CreateQuiet(s, v, prio, gotAsid);
    case OpStop(me, parent, enabled) => StopQuiet(s, me, parent, enabled);
  }

  /** A lock call that blocks: it sets bit 0 and lends its priority to the named thread. */
  lemma LockPiEffect(s: State, me: Tid, a: nat)
    requires Inv(s) && IsRunning(s, me) && a < 4 * WORD && SetBit0(Word(s, a)) != 1
    ensures var s', w := LockPi(s, me, a), SetBit0(Word(s, a));
            var dest := NamedBy(s, w);
            && QuietBut(s, s'.(mem := s.mem), dest)
            && s'.mem == s.mem[a := w]
            && s'.prio == (if Lends(s, me, dest) then s.prio[dest := s.prio[me]] else s.prio)
            && (dest != NULL ==>
                  && s'.prio[dest] <= s.prio[dest]
                  && (s'.status[dest] == Dead ==> s.status[dest] == Dead)
                  && (s'.status[dest] == VmWait ==> s.status[dest] == VmWait)
                  && (s.status[dest] != Dead && s.status[dest] != VmWait ==> s'.prio[dest] <= s.prio[me]))
  {
    hide Hash, Raise, BlockOn;
    var w := SetBit0(Word(s, a));
    var s1, dest := SetWord(s, a, w), NamedBy(s, w);
    NeutralKeeps(s, s1, NULL, NULL);
    RaiseKeeps(s1, s.prio[me], dest);
    RaiseColumns(s1, s.prio[me], dest);
    InvFrom(s, Raise(s1, s.prio[me], dest));
    BlockOnQuiet(Raise(s1, s.prio[me], dest), me, a);
    LentExactly(s, me, a);
  }

  lemma LentExactly(s: State, me: Tid, a: nat)
    requires Inv(s) && IsRunning(s, me) && a < 4 * WORD && SetBit0(Word(s, a)) != 1
    ensures var dest := NamedBy(s, SetBit0(Word(s, a)));
            LockPi(s, me, a).prio == if Lends(s, me, dest) then s.prio[dest := s.prio[me]] else s.prio
  {
    hide Hash, LockPi, Raised, Blocks, Lends, Inv;
    LockEffect(s, me, a);
  }

  /** An unlock passes the word on and gives the caller its base priority back. */
  lemma UnlockPiEffect(s: State, me: Tid, a: nat)
    requires Inv(s) && IsRunning(s, me) && a < 4 * WORD
    ensures var s', t := UnlockPi(s, me, a), Woken(s, a);
            && (t != NULL ==> 0 <= t < |s.status| && WaitsOn(s, a, t) && !WaitsOn(s', a, t))
            && (t == NULL ==> forall u :: !WaitsOn(s, a, u))
            && QuietBut(s, s'.(mem := s.mem), me)
            && s'.mem == s.mem[a := if t == NULL then 0 else RawId(s, t) + 1]
            && s'.prio[me] == s.basePrio[me]
            && s'.status[me] == Running
  {
    hide Hash, Without, InsertAt, Woken;
    WokenIsWaiter(s, a);
  }

  /** The thread an unlock wakes is the best of those that wait on the lock. */
  lemma UnlockWakesBest(s: State, a: nat, u: Tid)
    requires Inv(s) && a < 4 * WORD && WaitsOn(s, a, u)
    ensures 0 <= Woken(s, a) < |s.status| && WaitsOn(s, a, Woken(s, a)) && s.prio[Woken(s, a)] <= s.prio[u]
  {
    hide Hash, FirstMatch;
    WokenIsWaiter(s, a);
    WaiterInBucket(s, NULL, NULL, a, u);
    var k, r := FUTEX + Hash(a), s.lists[FUTEX + Hash(a)];
    var i, j := FirstMatch(r, s.futex, a), IndexOf(r, u);
    assert Sorted(r, s.prio);
    assert i <= j;
  }

  /** A word names its owner. */
  lemma WordNamesOwner(y: System, a: nat)
    requires Shape(y.s) && a in y.owner && LockOk(y, a)
    ensures Word(y.s, a) != 0 && SetBit0(Word(y.s, a)) == RawId(y.s, y.owner[a]) + 1
    ensures NamedBy(y.s, SetBit0(Word(y.s, a))) == y.owner[a]
  {
    var j := y.s.id[y.owner[a]];
    assert RawId(y.s, y.owner[a]) % 2 == 0;
    assert (1024 * j + 1) / 1024 == j;
  }

  // ---------------------------------------------------------------- the protocol is kept

  lemma LockOkQuiet(y: System, y1: System, a: nat, x: int)
    requires LockOk(y, a) && QuietBut(y.s, y1.s, x) && y1.owner == y.owner
    requires a in y.owner ==> y.owner[a] != x || (x < |y1.s.status| && y1.s.status[x] != Dead)
    requires forall t :: WaitsOn(y1.s, a, t) ==> WaitsOn(y.s, a, t)
    ensures LockOk(y1, a)
  {
  }

  lemma OtherStepKeeps(y: System, locks: set<nat>, op: Op, a: nat)
    requires Protocol(y, locks) && Legal(y, locks, op) && a in locks
    requires !op.OpLockPi? && !op.OpUnlockPi?
    ensures LockOk(Next(y, op), a)
  {
    hide Hash, Step, Subject, Placed, RunOk, BucketsSorted, WaitOk;
    assert LockOk(y, a);
    forall t
      ensures WaitsOn(Step(y.s, op), a, t) ==> WaitsOn(y.s, a, t)
    {
      StepWaiters(y.s, op, a, t);
    }
    if op.OpStore? {
      StoreStep(y.s, op);
    } else {
      StepQuiet(y.s, op);
      if op.OpVmSleep? {
        VmSleepQuiet(y.s, op.me);
      } else if a in y.owner {
        SubjectOwnsNothing(y, locks, op, a);
      }
      LockOkQuiet(y, Next(y, op), a, Subject(y.s, op));
    }
  }

  lemma StoreStep(s: State, op: Op)
    requires Inv(s) && Enabled(s, op) && op.OpStore?
    ensures Step(s, op) == SetWord(s, op.a, op.w)
  {
  }

  /** Owners do not stop, and a context about to be created owns nothing; VM waits do not
      matter here. */
  lemma SubjectOwnsNothing(y: System, locks: set<nat>, op: Op, a: nat)
    requires Protocol(y, locks) && Legal(y, locks, op) && a in locks && a in y.owner
    requires !op.OpLockPi? && !op.OpUnlockPi? && !op.OpStore? && !op.OpVmSleep?
    ensures y.owner[a] != Subject(y.s, op)
  {
    hide Hash;
    assert LockOk(y, a);
    if op.OpCreate? { CreateQuiet(y.s, op.v, op.prio, op.gotAsid); }
  }

  lemma LockStepKeeps(y: System, locks: set<nat>, me: Tid, b: nat, a: nat)
    requires Protocol(y, locks) && Legal(y, locks, OpLockPi(me, b)) && a in locks
    ensures LockOk(Next(y, OpLockPi(me, b)), a)
  {
    hide Hash, LockPi, Placed, RunOk, BucketsSorted, WaitOk;
    assert LockOk(y, a) && LockOk(y, b);
    var y1, w := Next(y, OpLockPi(me, b)), SetBit0(Word(y.s, b));
    forall t
      ensures WaitsOn(y1.s, a, t) ==> WaitsOn(y.s, a, t) || (t == me && a == b)
    {
      LockPiWaiters(y.s, me, b, a, t);
    }
    if w == 1 {
      TakeFree(y.s, me, b);
    } else {
      assert b in y.owner;
      WordNamesOwner(y, b);
      LockPiEffect(y.s, me, b);
    }
  }

  /** A lock call on a free word only writes the caller's id. */
  lemma TakeFree(s: State, me: Tid, a: nat)
    requires Inv(s) && IsRunning(s, me) && a < 4 * WORD && SetBit0(Word(s, a)) == 1
    ensures LockPi(s, me, a) == SetWord(s, a, RawId(s, me))
  {
  }

  lemma UnlockStepKeeps(y: System, locks: set<nat>, me: Tid, b: nat, a: nat)
    requires Protocol(y, locks) && Legal(y, locks, OpUnlockPi(me, b)) && a in locks
    ensures LockOk(Next(y, OpUnlockPi(me, b)), a)
  {
    hide Hash, UnlockPi, Woken;
    assert LockOk(y, a) && LockOk(y, b);
    var y1 := Next(y, OpUnlockPi(me, b));
    forall t
      ensures WaitsOn(y1.s, a, t) ==> WaitsOn(y.s, a, t)
    {
      UnlockPiWaiters(y.s, me, b, a, t);
    }
    UnlockPiEffect(y.s, me, b);
  }

  /** Every legal entry point keeps the protocol. */
  lemma NextKeeps(y: System, locks: set<nat>, op: Op)
    requires Protocol(y, locks) && Legal(y, locks, op)
    ensures Protocol(Next(y, op), locks)
  {
    hide Hash, Step, Woken;
    StepKeeps(y.s, op);
    forall a | a in locks
      ensures LockOk(Next(y, op), a)
    {
      match op
      case OpLockPi(me, b) => LockStepKeeps(y, locks, me, b, a);
      case OpUnlockPi(me, b) => UnlockStepKeeps(y, locks, me, b, a);
      case _ => OtherStepKeeps(y, locks, op, a);
    }
  }

  ghost predicate IsRun(ys: seq<System>, locks: set<nat>, ops: seq<Op>) {
    && |ys| == |ops| + 1
    && Protocol(ys[0], locks)
    && forall i :: 0 <= i < |ops| ==> Follows(ys[i], locks, ops[i], ys[i+1])
  }

  ghost predicate Follows(y: System, locks: set<nat>, op: Op, y1: System) {
    Protocol(y, locks) ==> Legal(y, locks, op) && y1 == Next(y, op)
  }

  /** The protocol holds in every state of every legal run. */
  lemma {:induction false} RunKeepsProtocol(ys: seq<System>, locks: set<nat>, ops: seq<Op>, i: nat)
    requires IsRun(ys, locks, ops) && i < |ys|
    ensures Protocol(ys[i], locks)
  {
    hide Next;
    if i == 0 {
    } else {
      RunKeepsProtocol(ys, locks, ops, i - 1);
      assert Follows(ys[i-1], locks, ops[i-1], ys[i]);
      NextKeeps(ys[i-1], locks, ops[i-1]);
    }
  }

  // ---------------------------------------------------------------- priorities

  /** No holder has a worse priority than a thread that waits for its lock. */
  ghost predicate PrioOkAt(y: System, a: nat, t: Tid) {
    a in y.owner && WaitsOn(y.s, a, t) ==>
      t < |y.s.prio| && y.owner[a] < |y.s.prio| && y.s.prio[y.owner[a]] <= y.s.prio[t]
  }

  ghost predicate PrioOk(y: System) {
    forall a, t :: PrioOkAt(y, a, t)
  }

  /** No thread waits for a lock while it holds one, and no holder is in a VM wait. */
  ghost predicate Disciplined(y: System) {
    && (forall a, b :: a in y.owner && b in y.owner ==> !WaitsOn(y.s, a, y.owner[b]))
    && (forall a :: a in y.owner ==> y.owner[a] < |y.s.status| && y.s.status[y.owner[a]] != VmWait)
  }

  /** Entry points of threads that keep that discipline. */
  ghost predicate Careful(y: System, op: Op) {
    match op
    case OpLockPi(me, a) => Owns(y, me) ==> SetBit0(Word(y.s, a)) == 1
    case OpVmSleep(me) => !Owns(y, me)
    case _ => true
  }

  /** An unlock whose caller's base priority is at least as good as every waiter on the other
      locks it holds. */
  ghost predicate Fits(y: System, op: Op) {
    op.OpUnlockPi? ==>
      forall a, t: Tid :: a in y.owner && a != op.a && y.owner[a] == op.me && WaitsOn(y.s, a, t) ==>
        op.me < |y.s.basePrio| && t < |y.s.prio| && y.s.basePrio[op.me] <= y.s.prio[t]
  }

  lemma OtherStepPrio(y: System, locks: set<nat>, op: Op)
    requires Protocol(y, locks) && Legal(y, locks, op) && Careful(y, op)
    requires !op.OpLockPi? && !op.OpUnlockPi?
    requires Disciplined(y) && PrioOk(y)
    ensures Disciplined(Next(y, op)) && PrioOk(Next(y, op))
  {
    hide Hash, Step, Subject, WF, Shape, Counted, Placed, RunOk, BucketsSorted, WaitOk;
    Sizes(y.s, NULL, NULL);
    var y1 := Next(y, op);
    assert forall a :: a in y.owner ==> LockOk(y, a);
    forall a, t: Tid
      ensures WaitsOn(y1.s, a, t) && a in y.owner ==> WaitsOn(y.s, a, t)
    {
      StepWaiters(y.s, op, a, t);
    }
    if op.OpStore? {
      StoreStep(y.s, op);
      assert forall a, t :: PrioOkAt(y, a, t) ==> PrioOkAt(y1, a, t);
    } else {
      StepQuiet(y.s, op);
      SubjectIdle(y, locks, op);
      var x := Subject(y.s, op);
      forall a, t: Tid
        ensures PrioOkAt(y1, a, t)
      {
        assert PrioOkAt(y, a, t);
      }
    }
  }

  /** The subject of an entry point neither owns a lock nor waits. */
  lemma SubjectIdle(y: System, locks: set<nat>, op: Op)
    requires Protocol(y, locks) && Legal(y, locks, op) && Careful(y, op)
    requires !op.OpLockPi? && !op.OpUnlockPi? && !op.OpStore?
    ensures forall a :: a in y.owner ==> y.owner[a] != Subject(y.s, op)
    ensures forall a, t :: WaitsOn(y.s, a, t) ==> t != Subject(y.s, op)
  {
    hide Hash;
    assert forall a :: a in y.owner ==> LockOk(y, a);
    if op.OpCreate? { CreateQuiet(y.s, op.v, op.prio, op.gotAsid); }
  }

  lemma TakePrio(y: System, locks: set<nat>, me: Tid, b: nat)
    requires Protocol(y, locks) && Legal(y, locks, OpLockPi(me, b))
    requires Disciplined(y) && PrioOk(y) && SetBit0(Word(y.s, b)) == 1
    ensures Disciplined(Next(y, OpLockPi(me, b))) && PrioOk(Next(y, OpLockPi(me, b)))
  {
    hide Hash, LockPi;
    assert LockOk(y, b);
    var y1 := Next(y, OpLockPi(me, b));
    TakeFree(y.s, me, b);
    assert b !in y.owner by { if b in y.owner { WordNamesOwner(y, b); } }
    assert y1 == System(SetWord(y.s, b, RawId(y.s, me)), y.owner[b := me]);
    forall a, t: Tid
      ensures PrioOkAt(y1, a, t)
    {
      assert PrioOkAt(y, a, t);
      assert WaitsOn(y1.s, a, t) <==> WaitsOn(y.s, a, t);
    }
    forall a, c | a in y1.owner && c in y1.owner
      ensures !WaitsOn(y1.s, a, y1.owner[c])
    {
      assert WaitsOn(y1.s, a, y1.owner[c]) <==> WaitsOn(y.s, a, y1.owner[c]);
    }
  }

  lemma BlockPrio(y: System, locks: set<nat>, me: Tid, b: nat)
    requires Protocol(y, locks) && Legal(y, locks, OpLockPi(me, b)) && !Owns(y, me)
    requires Disciplined(y) && PrioOk(y) && SetBit0(Word(y.s, b)) != 1
    ensures Disciplined(Next(y, OpLockPi(me, b))) && PrioOk(Next(y, OpLockPi(me, b)))
  {
    hide Hash, LockPi, Placed, RunOk, BucketsSorted, WaitOk;
    var y1 := Next(y, OpLockPi(me, b));
    assert LockOk(y, b) && b in y.owner;
    WordNamesOwner(y, b);
    LockPiEffect(y.s, me, b);
    forall a, t: Tid
      ensures WaitsOn(y1.s, a, t) ==> WaitsOn(y.s, a, t) || (t == me && a == b)
    {
      LockPiWaiters(y.s, me, b, a, t);
    }
    forall a, t: Tid
      ensures PrioOkAt(y1, a, t)
    {
      BlockPrioAt(y, locks, me, b, a, t);
    }
  }

  lemma BlockPrioAt(y: System, locks: set<nat>, me: Tid, b: nat, a: nat, t: Tid)
    requires Protocol(y, locks) && Legal(y, locks, OpLockPi(me, b)) && !Owns(y, me)
    requires Disciplined(y) && PrioOk(y) && SetBit0(Word(y.s, b)) != 1
    ensures PrioOkAt(Next(y, OpLockPi(me, b)), a, t)
  {
    hide Hash, LockPi, Placed, RunOk, BucketsSorted, WaitOk, Counted;
    assert LockOk(y, b) && b in y.owner;
    assert a in y.owner ==> LockOk(y, a);
    WordNamesOwner(y, b);
    LockPiEffect(y.s, me, b);
    LockPiWaiters(y.s, me, b, a, t);
    assert PrioOkAt(y, a, t);
  }

  /** An unlock keeps every holder at least as good as its waiters exactly when the caller's
      base priority is at least as good as every waiter on the other locks it still holds. */
  lemma UnlockPrioIff(y: System, locks: set<nat>, me: Tid, b: nat)
    requires Protocol(y, locks) && Legal(y, locks, OpUnlockPi(me, b)) && PrioOk(y)
    ensures PrioOk(Next(y, OpUnlockPi(me, b))) <==>
            forall a, t: Tid :: a in y.owner && a != b && y.owner[a] == me && WaitsOn(y.s, a, t) ==>
              y.s.basePrio[me] <= y.s.prio[t]
  {
    hide Hash, Next, PrioOkAt, Placed, RunOk, BucketsSorted, WaitOk, Counted;
    forall a, t: Tid
      ensures PrioOkAt(Next(y, OpUnlockPi(me, b)), a, t) <==>
              (a in y.owner && a != b && y.owner[a] == me && WaitsOn(y.s, a, t) ==> y.s.basePrio[me] <= y.s.prio[t])
    {
      UnlockPrioAt(y, locks, me, b, a, t);
    }
  }

  lemma UnlockPrioAt(y: System, locks: set<nat>, me: Tid, b: nat, a: nat, t: Tid)
    requires Protocol(y, locks) && Legal(y, locks, OpUnlockPi(me, b)) && PrioOk(y)
    ensures PrioOkAt(Next(y, OpUnlockPi(me, b)), a, t) <==>
            (a in y.owner && a != b && y.owner[a] == me && WaitsOn(y.s, a, t) ==> y.s.basePrio[me] <= y.s.prio[t])
  {
    hide Hash, UnlockPi, Woken, Placed, RunOk, BucketsSorted, WaitOk, Counted;
    assert LockOk(y, b) && forall a :: a in y.owner ==> LockOk(y, a);
    UnlockPiEffect(y.s, me, b);
    assert PrioOkAt(y, a, t);
    UnlockPiWaiters(y.s, me, b, a, t);
    UnlockKeepsWaiters(y.s, me, b, a, t);
    if a == b && WaitsOn(y.s, b, t) { UnlockWakesBest(y.s, b, t); }
  }

  /** Only the woken thread stops waiting. */
  lemma UnlockKeepsWaiters(s: State, me: Tid, b: nat, a: nat, t: Tid)
    requires Inv(s) && IsRunning(s, me) && b < 4 * WORD
    ensures WaitsOn(s, a, t) ==> WaitsOn(UnlockPi(s, me, b), a, t) || t == Woken(s, b)
  {
    hide Hash, Without, InsertAt, Woken;
    WokenIsWaiter(s, b);
  }

  lemma UnlockDisciplined(y: System, locks: set<nat>, me: Tid, b: nat)
    requires Protocol(y, locks) && Legal(y, locks, OpUnlockPi(me, b)) && Disciplined(y)
    ensures Disciplined(Next(y, OpUnlockPi(me, b)))
  {
    hide Hash, UnlockPi, Woken, WF, Counted, LockOk;
    var y1 := Next(y, OpUnlockPi(me, b));
    UnlockPiEffect(y.s, me, b);
    OneWait(y.s);
    forall a, t: Tid
      ensures WaitsOn(y1.s, a, t) ==> WaitsOn(y.s, a, t)
    {
      UnlockPiWaiters(y.s, me, b, a, t);
    }
  }

  /** A thread waits on one address at a time. */
  lemma OneWait(s: State)
    ensures forall a, b, t: Tid :: WaitsOn(s, a, t) && WaitsOn(s, b, t) ==> a == b
  {
  }

  /** Under the discipline an entry point keeps holders at least as good as their waiters
      exactly when it fits. */
  lemma NextPrioIff(y: System, locks: set<nat>, op: Op)
    requires Protocol(y, locks) && Legal(y, locks, op) && Careful(y, op)
    requires Disciplined(y) && PrioOk(y)
    ensures Disciplined(Next(y, op)) && (PrioOk(Next(y, op)) <==> Fits(y, op))
  {
    hide Hash, Step, Woken, Grants, PrioOk, Disciplined;
    match op
    case OpLockPi(me, b) =>
      if SetBit0(Word(y.s, b)) == 1 { TakePrio(y, locks, me, b); } else { BlockPrio(y, locks, me, b); }
    case OpUnlockPi(me, b) =>
      UnlockPrioIff(y, locks, me, b);
      UnlockDisciplined(y, locks, me, b);
      FitsIs(y, locks, me, b);
    case _ => OtherStepPrio(y, locks, op);
  }

  lemma FitsIs(y: System, locks: set<nat>, me: Tid, b: nat)
    requires Protocol(y, locks) && Legal(y, locks, OpUnlockPi(me, b))
    ensures Fits(y, OpUnlockPi(me, b)) <==>
            forall a, t: Tid :: a in y.owner && a != b && y.owner[a] == me && WaitsOn(y.s, a, t) ==>
              y.s.basePrio[me] <= y.s.prio[t]
  {
    hide Hash, LockOk;
  }

  /** A caller that holds no other lock fits. */
  lemma OneLockFits(y: System, op: Op)
    requires op.OpUnlockPi? && forall a :: a in y.owner && y.owner[a] == op.me ==> a == op.a
    ensures Fits(y, op)
  {
  }

  lemma {:induction false} RunKeepsPrio(ys: seq<System>, locks: set<nat>, ops: seq<Op>, i: nat)
    requires IsRun(ys, locks, ops) && i < |ys| && Disciplined(ys[0]) && PrioOk(ys[0])
    requires forall j :: 0 <= j < |ops| ==> Careful(ys[j], ops[j])
    requires forall j :: 0 <= j < i ==> Fits(ys[j], ops[j])
    ensures Disciplined(ys[i]) && PrioOk(ys[i])
  {
    hide Next, PrioOk, Disciplined, Fits;
    if i == 0 {
    } else {
      RunKeepsPrio(ys, locks, ops, i - 1);
      RunKeepsProtocol(ys, locks, ops, i - 1);
      assert Follows(ys[i-1], locks, ops[i-1], ys[i]);
      NextPrioIff(ys[i-1], locks, ops[i-1]);
    }
  }

  /** Over every disciplined run: no holder is ever worse than a waiter if and only if every
      unlock in the run fits. */
  lemma {:induction false} RunPrioIff(ys: seq<System>, locks: set<nat>, ops: seq<Op>, n: nat)
    requires IsRun(ys, locks, ops) && n <= |ops| && Disciplined(ys[0]) && PrioOk(ys[0])
    requires forall j :: 0 <= j < |ops| ==> Careful(ys[j], ops[j])
    ensures (forall i :: 0 <= i <= n ==> PrioOk(ys[i])) <==> (forall j :: 0 <= j < n ==> Fits(ys[j], ops[j]))
  {
    hide Next, PrioOk, Disciplined, Fits;
    if n == 0 {
    } else {
      RunPrioIff(ys, locks, ops, n - 1);
      if forall j :: 0 <= j < n - 1 ==> Fits(ys[j], ops[j]) {
        RunKeepsPrio(ys, locks, ops, n - 1);
        RunKeepsProtocol(ys, locks, ops, n - 1);
        assert Follows(ys[n-1], locks, ops[n-1], ys[n]);
        NextPrioIff(ys[n-1], locks, ops[n-1]);
      }
    }
  }

  /** Over every disciplined run in which a thread unlocks only while it holds no other lock, no
      holder is ever worse than a waiter. */
  lemma RunOneLock(ys: seq<System>, locks: set<nat>, ops: seq<Op>, i: nat)
    requires IsRun(ys, locks, ops) && i < |ys| && Disciplined(ys[0]) && PrioOk(ys[0])
    requires forall j :: 0 <= j < |ops| ==> Careful(ys[j], ops[j])
    requires forall j :: 0 <= j < |ops| && ops[j].OpUnlockPi? ==>
               forall a :: a in ys[j].owner && ys[j].owner[a] == ops[j].me ==> a == ops[j].a
    ensures PrioOk(ys[i])
  {
    hide PrioOk, Disciplined, Fits, Follows;
    forall j | 0 <= j < i
      ensures Fits(ys[j], ops[j])
    {
      if ops[j].OpUnlockPi? { OneLockFits(ys[j], ops[j]); } else { OthersFit(ys[j], ops[j]); }
    }
    RunKeepsPrio(ys, locks, ops, i);
  }

  lemma OthersFit(y: System, op: Op)
    requires !op.OpUnlockPi?
    ensures Fits(y, op)
  {
  }

  // ---------------------------------------------------------------- holding two locks

  /** Two running threads of priorities 5 and 1, and no lock taken. */
  ghost function Unlocked(): System {
    System(State([5, 1], [5, 1], [Running, Running], [0, 1], [0, 0], [0, 0], [1, 2], seq(FREE + 1, k => []),
                 [0, 1], [false, false], [2], [2], map[1 := 0, 2 := 1], map[]),
           map[])
  }

  lemma UnlockedPlaced()
    ensures var s := Unlocked().s; Shape(s) && Placed(s, NULL)
  {
    hide Hash;
    var s := Unlocked().s;
    assert Home(s, 0) == NULL && Home(s, 1) == NULL;
  }

  lemma UnlockedCounted()
    ensures Shape(Unlocked().s) && Counted(Unlocked().s)
  {
    hide Hash, Shape, Placed;
    UnlockedPlaced();
    assert ContextsOf(Unlocked().s, 0) == {0, 1};
  }

  lemma UnlockedInv()
    ensures Inv(Unlocked().s)
  {
    hide Hash, Shape, Placed, Counted;
    UnlockedPlaced();
    UnlockedCounted();
  }

  lemma UnlockedOk()
    ensures Protocol(Unlocked(), {0, 4})
  {
    hide Inv;
    UnlockedInv();
  }

  /** The priority property fails in a legal run: thread 0 takes two locks, thread 1 waits for
      the second, and releasing the first drops thread 0 below the thread that waits. */
  lemma TwoLocksBreak() returns (ys: seq<System>)
    ensures IsRun(ys, {0, 4}, [OpLockPi(0, 4), OpLockPi(0, 0), OpLockPi(1, 0), OpUnlockPi(0, 4)])
    ensures ys[0] == Unlocked() && PrioOk(ys[3]) && !PrioOk(ys[4])
  {
    hide Hash, Next, Protocol, Legal;
    UnlockedOk();
    var y0 := Unlocked();
    var y1, y2 := TakesTwo();
    var y3 := SecondWaits(y2);
    var y4 := FirstReleased(y3);
    ys := [y0, y1, y2, y3, y4];
  }

  lemma TakesTwo() returns (y1: System, y2: System)
    requires Protocol(Unlocked(), {0, 4})
    ensures Follows(Unlocked(), {0, 4}, OpLockPi(0, 4), y1) && Follows(y1, {0, 4}, OpLockPi(0, 0), y2) &&
            Protocol(y2, {0, 4})
    ensures y2.s == SetWord(SetWord(Unlocked().s, 4, 1024), 0, 1024) && y2.owner == map[4 := 0, 0 := 0]
  {
    hide Hash, LockPi, WF, Counted, LockOk, Raised, Blocks, Lends;
    var y0 := Unlocked();
    y1 := Next(y0, OpLockPi(0, 4));
    NextKeeps(y0, {0, 4}, OpLockPi(0, 4));
    LockEffect(y0.s, 0, 4);
    y2 := Next(y1, OpLockPi(0, 0));
    NextKeeps(y1, {0, 4}, OpLockPi(0, 0));
    LockEffect(y1.s, 0, 0);
  }

  lemma FirstReleased(y3: System) returns (y4: System)
    requires Protocol(y3, {0, 4}) && PrioOk(y3) && IsRunning(y3.s, 0) && y3.owner == map[4 := 0, 0 := 0]
    requires WaitsOn(y3.s, 0, 1) && y3.s.basePrio == [5, 1] && |y3.s.prio| == 2 && y3.s.prio[1] == 1
    ensures Follows(y3, {0, 4}, OpUnlockPi(0, 4), y4) && !PrioOk(y4)
  {
    hide Hash, UnlockPi, WF, Counted, LockOk, PrioOk;
    y4 := Next(y3, OpUnlockPi(0, 4));
    UnlockPrioIff(y3, {0, 4}, 0, 4);
  }

  lemma SecondWaits(y2: System) returns (y3: System)
    requires Protocol(y2, {0, 4}) && y2.s == SetWord(SetWord(Unlocked().s, 4, 1024), 0, 1024) &&
             y2.owner == map[4 := 0, 0 := 0]
    ensures Follows(y2, {0, 4}, OpLockPi(1, 0), y3) && Protocol(y3, {0, 4})
    ensures WaitsOn(y3.s, 0, 1) && y3.s.basePrio == [5, 1] && |y3.s.prio| == 2 && y3.s.prio[1] == 1 && PrioOk(y3)
    ensures IsRunning(y3.s, 0) && y3.owner == y2.owner
  {
    hide Hash, LockPi, WF, Counted, LockOk, Raised, Blocks, Lends;
    y3 := Next(y2, OpLockPi(1, 0));
    NextKeeps(y2, {0, 4}, OpLockPi(1, 0));
    LockEffect(y2.s, 1, 0);
    LockPiEffect(y2.s, 1, 0);
    if y3.s.run[1] == 0 { StillRuns(y3.s, 0, 1); }
    forall a, t: Tid
      ensures PrioOkAt(y3, a, t)
    {
      LockPiWaiters(y2.s, 1, 0, a, t);
    }
  }

  lemma StillRuns(s: State, t: Tid, h: nat)
    requires WF(s, NULL, NULL) && h < |s.run| && s.run[h] == t
    ensures IsRunning(s, t)
  {
  }
}
