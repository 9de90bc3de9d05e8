/** No lost wakeup.  futex_wait is split into its steps: it takes the big kernel lock,
    reads the word, and only then queues itself; user stores may come at any point. */
module Wakeup {
  import opened Lists
  import opened Sched
  import opened Futex
  import E = Effects
  import P = PiLocks

  datatype Phase = Idle | Reading(a: nat, val: nat) | Queueing(a: nat)

  /** The kernel state, the thread that holds the big kernel lock, and how far each
      thread has come inside futex_wait. */
  datatype System = System(s: State, bkl: int, phase: seq<Phase>)

  datatype Event =
    | Enter(me: Tid, a: nat, val: nat)
    | Read(me: Tid)
    | Queue(me: Tid)
    | Store(a: nat, w: nat)
    | Kernel(op: Op)

  ghost predicate Possible(y: System, e: Event) {
    match e
    case Enter(me, a, val) => IsRunning(y.s, me) && y.bkl == NULL && a < 4 * WORD
    case Read(me) => me < |y.phase| && y.phase[me].Reading?
    case Queue(me) => me < |y.phase| && y.phase[me].Queueing?
    case Store(a, w) => a < 4 * WORD
    case Kernel(op) => y.bkl == NULL && Enabled(y.s, op) && !op.OpWait? && !op.OpStore?
  }

  ghost predicate WellPhased(y: System) {
    && Inv(y.s)
    && |y.phase| == |y.s.status|
    && forall t ::
         0 <= t < |y.phase| && !y.phase[t].Idle? ==> y.bkl == t && IsRunning(y.s, t) && y.phase[t].a < 4 * WORD
  }

  ghost function Next(y: System, e: Event): System
    requires WellPhased(y) && Possible(y, e)
  {
    match e
    case Enter(me, a, val) => System(y.s, me, y.phase[me := Reading(a, val)])
    case Read(me) =>
      if Word(y.s, y.phase[me].a) == y.phase[me].val then System(y.s, y.bkl, y.phase[me := Queueing(y.phase[me].a)])
      else System(y.s, NULL, y.phase[me := Idle])
    case Queue(me) => System(BlockOn(y.s, me, y.phase[me].a), NULL, y.phase[me := Idle])
    case Store(a, w) => y.(s := SetWord(y.s, a, w))
    case Kernel(op) => y.(s := Step(y.s, op))
  }

  /** The lock keeps a thread running from its read to its queueing. */
  lemma NextKeeps(y: System, e: Event)
    requires WellPhased(y) && Possible(y, e)
    ensures WellPhased(Next(y, e))
  {
    hide Step, BlockOn;
    match e
    case Enter(me, a, val) =>
    case Read(me) =>
    case Queue(me) =>
      BlockOnKeeps(y.s, me, y.phase[me].a);
      BlockOnWaiters(y.s, me, y.phase[me].a, 0, 0);
    case Store(a, w) => NeutralKeeps(y.s, SetWord(y.s, a, w), NULL, NULL); InvFrom(y.s, SetWord(y.s, a, w));
    case Kernel(op) =>
      StepKeeps(y.s, op);
      StepWaiters(y.s, op, 0, 0);
  }

  ghost predicate IsTrace(ys: seq<System>, es: seq<Event>) {
    && |ys| == |es| + 1
    && WellPhased(ys[0])
    && forall i :: 0 <= i < |es| ==> Follows(ys[i], es[i], ys[i+1])
  }

  ghost predicate Follows(y: System, e: Event, y1: System) {
    WellPhased(y) ==> Possible(y, e) && y1 == Next(y, e)
  }

  lemma {:induction false} TraceKeeps(ys: seq<System>, es: seq<Event>, i: nat)
    requires IsTrace(ys, es) && i < |ys|
    ensures WellPhased(ys[i])
  {
    hide Next;
    if i == 0 {
    } else {
      TraceKeeps(ys, es, i - 1);
      assert Follows(ys[i-1], es[i-1], ys[i]);
      NextKeeps(ys[i-1], es[i-1]);
    }
  }

  /** At event i thread t, inside futex_wait on a, read the value it expected. */
  ghost predicate ReadsExpected(ys: seq<System>, es: seq<Event>, i: nat, a: nat, t: Tid)
    requires |ys| == |es| + 1 && i < |es|
  {
    && es[i] == Read(t) && t < |ys[i].phase| && ys[i].phase[t].Reading?
    && ys[i].phase[t].a == a && Word(ys[i].s, a) == ys[i].phase[t].val
  }

  /** t waits on a, or holds the lock and is about to. */
  ghost predicate Waits(y: System, a: nat, t: Tid) {
    WaitsOn(y.s, a, t) || (t < |y.phase| && y.phase[t] == Queueing(a))
  }

  lemma NextWaits(y: System, e: Event, a: nat, t: Tid)
    requires WellPhased(y) && Possible(y, e) && Waits(Next(y, e), a, t)
    requires e.Kernel? && e.op.OpLockPi? ==> e.op.a != a
    ensures Waits(y, a, t) || (e == Read(t) && t < |y.phase| && y.phase[t].Reading? && y.phase[t].a == a
                               && Word(y.s, a) == y.phase[t].val)
  {
    hide Step, BlockOn;
    match e
    case Enter(me, b, val) =>
    case Read(me) =>
    case Queue(me) => BlockOnWaiters(y.s, me, y.phase[me].a, a, t);
    case Store(b, w) =>
    case Kernel(op) => StepWaiters(y.s, op, a, t);
  }

  /** After a resume on a that asks for at least as many wakeups as there are waiters, a
      thread can wait on a only because of a read it did after that resume: one that read
      the word earlier, before the store that the resume announces, waits no more.  The
      word a is not also used as a priority-inheritance lock. */
  lemma {:induction false} NoLostWakeup(ys: seq<System>, es: seq<Event>, e: nat, n: nat, a: nat, j: nat, t: Tid)
    requires IsTrace(ys, es) && e < j < |ys| && a < 4 * WORD
    requires es[e] == Kernel(OpResume(a, n))
    requires WellPhased(ys[e]) ==> n >= Waiters(ys[e].s.lists[FUTEX + Hash(a)], ys[e].s.futex, a)
    requires forall i :: 0 <= i < |es| && es[i].Kernel? && es[i].op.OpLockPi? ==> es[i].op.a != a
    requires Waits(ys[j], a, t)
    ensures exists i :: e < i < j && ReadsExpected(ys, es, i, a, t)
    decreases j
  {
    hide Next, Hash, Waiters;
    TraceKeeps(ys, es, j - 1);
    assert Follows(ys[j-1], es[j-1], ys[j]);
    if j - 1 == e {
      TraceKeeps(ys, es, e);
      ResumeClears(ys[e], n, a, t);
      assert false;
    } else {
      NextWaits(ys[j-1], es[j-1], a, t);
      if Waits(ys[j-1], a, t) {
        NoLostWakeup(ys, es, e, n, a, j - 1, t);
      } else {
        assert ReadsExpected(ys, es, j - 1, a, t);
      }
    }
  }

  lemma ResumeClears(y: System, n: nat, a: nat, t: Tid)
    requires WellPhased(y) && Possible(y, Kernel(OpResume(a, n)))
    requires n >= Waiters(y.s.lists[FUTEX + Hash(a)], y.s.futex, a)
    ensures !Waits(Next(y, Kernel(OpResume(a, n))), a, t)
  {
    hide Hash, Wake, Waiters;
    WakeAll(y.s, a, n, t);
  }

  /** A wait with nobody in between is the one-step wait if the word has the value it expects, and
      nothing if it has another. */
  lemma WaitAlone(y: System, me: Tid, a: nat, val: nat)
    requires WellPhased(y) && Possible(y, Enter(me, a, val)) && y.phase[me].Idle?
    ensures var y1 := Next(y, Enter(me, a, val));
            && WellPhased(y1) && Possible(y1, Read(me))
            && var y2 := Next(y1, Read(me));
            && WellPhased(y2)
            && if Word(y.s, a) == val then
                 Possible(y2, Queue(me)) && Next(y2, Queue(me)) == y.(s := Step(y.s, OpWait(me, a)))
               else y2 == y
  {
    hide BlockOn, Inv;
    NextKeeps(y, Enter(me, a, val));
    var y1 := Next(y, Enter(me, a, val));
    NextKeeps(y1, Read(me));
    var y2 := Next(y1, Read(me));
    assert y1.phase[me := Idle] == y.phase && y2.phase[me := Idle] == y.phase;
  }

  // ---------------------------------------------------------------- what a waiter expects

  /** Event e writes word a. */
  ghost predicate Writes(e: Event, a: nat) {
    match e
    case Store(b, w) => b == a
    case Kernel(op) => (op.OpLockPi? || op.OpUnlockPi?) && op.a == a
    case _ => false
  }

  lemma StepWord(s: State, op: Op, a: nat)
    requires Inv(s) && Enabled(s, op) && !op.OpStore? && !((op.OpLockPi? || op.OpUnlockPi?) && op.a == a)
    ensures Word(Step(s, op), a) == Word(s, a)
  {
    hide Step, Inv;
    if op.OpLockPi? {
      LockWord(s, op.me, op.a, a);
    } else if op.OpUnlockPi? {
      UnlockWord(s, op.me, op.a, a);
    } else {
      P.StepQuiet(s, op);
    }
  }

  lemma LockWord(s: State, me: Tid, b: nat, a: nat)
    requires Inv(s) && Enabled(s, OpLockPi(me, b)) && a != b
    ensures Word(Step(s, OpLockPi(me, b)), a) == Word(s, a)
  {
    hide LockPi, Inv, E.Raised, E.Blocks, E.Lends;
    E.LockEffect(s, me, b);
  }

  lemma UnlockWord(s: State, me: Tid, b: nat, a: nat)
    requires Inv(s) && Enabled(s, OpUnlockPi(me, b)) && a != b
    ensures Word(Step(s, OpUnlockPi(me, b)), a) == Word(s, a)
  {
    hide UnlockPi, Inv, Hash, Woken;
    E.UnlockEffect(s, me, b);
  }

  lemma NextWord(y: System, e: Event, a: nat)
    requires WellPhased(y) && Possible(y, e) && !Writes(e, a)
    ensures Word(Next(y, e).s, a) == Word(y.s, a)
  {
    hide Step, BlockOn, Inv;
    match e
    case Queue(me) => E.BlockOnMem(y.s, me, y.phase[me].a);
    case Kernel(op) => StepWord(y.s, op, a);
    case _ =>
  }

  /** A store is what every read sees until the word is next written. */
  lemma {:induction false} StoreStays(ys: seq<System>, es: seq<Event>, i: nat, j: nat, a: nat, w: nat)
    requires IsTrace(ys, es) && i < j < |ys| && es[i] == Store(a, w)
    requires forall n :: i < n < j ==> !Writes(es[n], a)
    ensures Word(ys[j].s, a) == w
  {
    hide Next;
    TraceKeeps(ys, es, j - 1);
    assert Follows(ys[j-1], es[j-1], ys[j]);
    if j == i + 1 {
      StoredWord(ys[i], a, w);
    } else {
      StoreStays(ys, es, i, j - 1, a, w);
      NextWord(ys[j-1], es[j-1], a);
    }
  }

  lemma StoredWord(y: System, a: nat, w: nat)
    requires WellPhased(y) && Possible(y, Store(a, w))
    ensures Word(Next(y, Store(a, w)).s, a) == w
  {
  }

  /** A store announced by a resume that asks for enough wakeups leaves nobody asleep on the old
      value: until the word is next written, whoever waits on it called wait expecting the value
      stored. */
  lemma WaitersExpectStore(ys: seq<System>, es: seq<Event>, i: nat, e: nat, n: nat, a: nat, w: nat, j: nat, t: Tid)
    requires IsTrace(ys, es) && i < e < j < |ys| && a < 4 * WORD
    requires es[i] == Store(a, w) && es[e] == Kernel(OpResume(a, n))
    requires WellPhased(ys[e]) ==> n >= Waiters(ys[e].s.lists[FUTEX + Hash(a)], ys[e].s.futex, a)
    requires forall m :: 0 <= m < |es| && es[m].Kernel? && es[m].op.OpLockPi? ==> es[m].op.a != a
    requires forall m :: i < m < j ==> !Writes(es[m], a)
    requires Waits(ys[j], a, t)
    ensures exists m :: e < m < j && es[m] == Read(t) && t < |ys[m].phase| && ys[m].phase[t] == Reading(a, w)
  {
    hide Next, Hash, Waiters, Writes;
    NoLostWakeup(ys, es, e, n, a, j, t);
    var m :| e < m < j && ReadsExpected(ys, es, m, a, t);
    StoreStays(ys, es, i, m, a, w);
  }
}
