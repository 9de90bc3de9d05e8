/** The ticket lock behind the big kernel lock: a word whose upper half is the next ticket and
    whose lower half is the ticket served, each counting modulo 2^16, changed by
    load-locked/store-conditional. */
module Ticket {
  import opened Lists

  const HALF: nat := 0x1_0000

  /** Where a hardware thread stands: link is the number of stores its link has seen. */
  datatype Pc =
    | Out
    | Locking(upper: nat, lower: nat, link: nat)
    | Spinning(ticket: nat)
    | Holding
    | Unlocking(upper: nat, lower: nat, link: nat)

  datatype State = State(
    upper: nat, lower: nat, pc: seq<Pc>,
    // stores to the word so far; releases so far; who holds and waits, in the order of tickets
    stores: nat, served: nat, queue: seq<Tid>)

  /** Begin a lock or an unlock, go on, or have a store-conditional fail. */
  datatype Event = Lock | Unlock | Go | Fail

  ghost predicate Enabled(s: State, t: Tid, ev: Event) {
    && t < |s.pc|
    && match s.pc[t]
       case Out => ev == Lock
       case Locking(_, _, link) => ev == Fail || (ev == Go && link == s.stores)
       case Spinning(_) => ev == Go
       case Holding => ev == Unlock
       case Unlocking(_, _, link) => ev == Fail || (ev == Go && link == s.stores)
  }

  ghost function Step(s: State, t: Tid, ev: Event): State
    requires Enabled(s, t, ev)
  {
    match s.pc[t]
    case Out => s.(pc := s.pc[t := Locking(s.upper, s.lower, s.stores)])
    case Locking(upper, lower, _) =>
      if ev == Fail then s.(pc := s.pc[t := Out])
      else s.(upper := (upper + 1) % HALF, lower := lower, stores := s.stores + 1, queue := s.queue + [t],
              pc := s.pc[t := if lower == upper then Holding else Spinning(upper)])
    case Spinning(ticket) => if s.lower == ticket then s.(pc := s.pc[t := Holding]) else s
    case Holding => s.(pc := s.pc[t := Unlocking(s.upper, s.lower, s.stores)])
    case Unlocking(upper, lower, _) =>
      if ev == Fail then s.(pc := s.pc[t := Holding])
      else s.(upper := upper, lower := (lower + 1) % HALF, stores := s.stores + 1, served := s.served + 1,
              queue := if s.queue == [] then [] else s.queue[1..], pc := s.pc[t := Out])
  }

  // ---------------------------------------------------------------- the invariant

  ghost function Wrap(n: nat): (h: nat)
    ensures h < HALF
  {
    n % HALF
  }

  ghost predicate Contends(p: Pc) {
    p.Spinning? || p.Holding? || p.Unlocking?
  }

  ghost predicate Holds(p: Pc) {
    p.Holding? || p.Unlocking?
  }

  /** What a thread remembers is right. */
  ghost predicate PcOk(s: State, t: Tid)
    requires t < |s.pc|
  {
    && (t in s.queue <==> Contends(s.pc[t]))
    && match s.pc[t]
       case Locking(u, l, link) => link <= s.stores && (link == s.stores ==> u == s.upper && l == s.lower)
       case Unlocking(u, l, link) => link <= s.stores && (link == s.stores ==> u == s.upper && l == s.lower)
       case _ => true
  }

  /** The thread at position i has the i-th ticket after the one served. */
  ghost predicate PlaceOk(s: State, i: nat)
    requires i < |s.queue|
  {
    && s.queue[i] < |s.pc|
    && match s.pc[s.queue[i]]
       case Spinning(ticket) => ticket == Wrap(s.served + i)
       case _ => i == 0
  }

  ghost predicate Inv(s: State) {
    && |s.pc| < HALF
    && s.lower == Wrap(s.served) && s.upper == Wrap(s.served + |s.queue|)
    && Distinct(s.queue)
    && (forall t :: 0 <= t < |s.pc| ==> PcOk(s, t))
    && (forall i :: 0 <= i < |s.queue| ==> PlaceOk(s, i))
  }

  /** Fewer than 2^16 threads contend, so equal halves mean equal counts. */
  lemma {:induction false} QueueFits(q: seq<Tid>, n: nat)
    requires Distinct(q) && forall i :: 0 <= i < |q| ==> q[i] < n
    ensures |q| <= n
  {
    if q == [] {
    } else {
      assert q[0] < n;
      var last: nat := n - 1;
      if last in q {
        var i := IndexOf(q, last);
        RemoveIndex(q, i);
        QueueFits(RemoveAt(q, i), n - 1);
      } else {
        forall i | 0 <= i < |q| ensures q[i] < n - 1 { assert q[i] in q; }
        QueueFits(q, n - 1);
      }
    }
  }

  lemma Residues(a: nat, i: nat, j: nat)
    requires i < HALF && j < HALF
    ensures Wrap(a + i) == Wrap(a + j) <==> i == j
    ensures (Wrap(a + i) + 1) % HALF == Wrap(a + i + 1)
  {
  }

  lemma FitsNow(s: State)
    requires Inv(s)
    ensures |s.queue| < HALF
  {
    forall i | 0 <= i < |s.queue| ensures s.queue[i] < |s.pc| { assert PlaceOk(s, i); }
    QueueFits(s.queue, |s.pc|);
  }

  lemma Acquire(s: State, t: Tid, ev: Event)
    requires Inv(s) && Enabled(s, t, ev) && (s.pc[t].Out? || s.pc[t].Locking?)
    ensures Inv(Step(s, t, ev))
  {
    hide Wrap;
    var s' := Step(s, t, ev);
    FitsNow(s);
    assert PcOk(s, t);
    Residues(s.served, |s.queue|, 0);
    forall u | 0 <= u < |s'.pc| ensures PcOk(s', u) { assert PcOk(s, u); }
    forall i | 0 <= i < |s'.queue|
      ensures PlaceOk(s', i)
    {
      if i < |s.queue| {
        assert PlaceOk(s, i) && s.queue[i] in s.queue;
      }
    }
  }

  lemma Wait(s: State, t: Tid, ev: Event)
    requires Inv(s) && Enabled(s, t, ev) && (s.pc[t].Spinning? || s.pc[t].Holding? || ev == Fail)
    ensures Inv(Step(s, t, ev))
  {
    hide Wrap;
    if s.pc[t].Locking? { Acquire(s, t, ev); return; }
    var s' := Step(s, t, ev);
    FitsNow(s);
    assert PcOk(s, t);
    var k := IndexOf(s.queue, t);
    assert PlaceOk(s, k);
    Residues(s.served, k, 0);
    forall u | 0 <= u < |s'.pc| ensures PcOk(s', u) { assert PcOk(s, u); }
    forall i | 0 <= i < |s'.queue| ensures PlaceOk(s', i) { assert PlaceOk(s, i); }
  }

  lemma Release(s: State, t: Tid)
    requires Inv(s) && Enabled(s, t, Go) && s.pc[t].Unlocking?
    ensures Inv(Step(s, t, Go)) && s.queue != [] && s.queue[0] == t
  {
    hide Wrap;
    var s' := Step(s, t, Go);
    Residues(s.served, 0, 0);
    assert PcOk(s, t);
    var k := IndexOf(s.queue, t);
    assert PlaceOk(s, k);
    forall u: nat | 0 <= u < |s'.pc|
      ensures PcOk(s', u)
    {
      assert PcOk(s, u);
      assert s.queue == [t] + s.queue[1..];
    }
    forall i | 0 <= i < |s'.queue|
      ensures PlaceOk(s', i)
    {
      assert PlaceOk(s, i + 1) && s.queue[i + 1] != t;
    }
  }

  /** Every step keeps the invariant. */
  lemma StepKeeps(s: State, t: Tid, ev: Event)
    requires Inv(s) && Enabled(s, t, ev)
    ensures Inv(Step(s, t, ev))
  {
    hide Inv, Step;
    if s.pc[t].Out? || s.pc[t].Locking? {
      Acquire(s, t, ev);
    } else if s.pc[t].Unlocking? && ev == Go {
      Release(s, t);
    } else {
      Wait(s, t, ev);
    }
  }

  // ---------------------------------------------------------------- runs

  ghost predicate Leads(s: State, e: (Tid, Event), s1: State) {
    Enabled(s, e.0, e.1) && s1 == Step(s, e.0, e.1)
  }

  /** A run of fewer than 2^16 threads from an unlocked word of any value. */
  ghost predicate IsRun(states: seq<State>, events: seq<(Tid, Event)>) {
    && |states| == |events| + 1
    && (var s := states[0];
        && |s.pc| < HALF && s.lower == s.upper == Wrap(s.served) && s.queue == []
        && forall t :: 0 <= t < |s.pc| ==> s.pc[t] == Out)
    && forall i :: 0 <= i < |events| ==> Leads(states[i], events[i], states[i+1])
  }

  lemma {:induction false} RunKeeps(states: seq<State>, events: seq<(Tid, Event)>, i: nat)
    requires IsRun(states, events) && i < |states|
    ensures Inv(states[i])
  {
    hide Step;
    if i == 0 {
    } else {
      RunKeeps(states, events, i - 1);
      assert Leads(states[i-1], events[i-1], states[i]);
      StepKeeps(states[i-1], events[i-1].0, events[i-1].1);
    }
  }

  /** At most one thread holds the lock. */
  lemma MutualExclusion(states: seq<State>, events: seq<(Tid, Event)>, i: nat, t: Tid, u: Tid)
    requires IsRun(states, events) && i < |states| && t < |states[i].pc| && u < |states[i].pc|
    requires Holds(states[i].pc[t]) && Holds(states[i].pc[u])
    ensures t == u
  {
    hide Step;
    RunKeeps(states, events, i);
    var s := states[i];
    assert PcOk(s, t) && PcOk(s, u);
    assert PlaceOk(s, IndexOf(s.queue, t)) && PlaceOk(s, IndexOf(s.queue, u));
  }

  /** The halves differ exactly when somebody holds or waits. */
  lemma LockedIff(states: seq<State>, events: seq<(Tid, Event)>, i: nat)
    requires IsRun(states, events) && i < |states|
    ensures var s := states[i];
            s.upper != s.lower <==> exists t :: 0 <= t < |s.pc| && Contends(s.pc[t])
  {
    hide Step;
    RunKeeps(states, events, i);
    var s := states[i];
    FitsNow(s);
    Residues(s.served, |s.queue|, 0);
    if s.queue != [] {
      assert PlaceOk(s, 0) && PcOk(s, s.queue[0]);
      assert s.queue[0] in s.queue;
    } else {
      forall t | 0 <= t < |s.pc| ensures !Contends(s.pc[t]) { assert PcOk(s, t); }
    }
  }

  /** Service is strictly in ticket order: a step appends to the queue, takes its first
      thread out, or leaves it alone; the thread taken out is the one that held the lock. */
  lemma InOrder(s: State, t: Tid, ev: Event)
    requires Inv(s) && Enabled(s, t, ev)
    ensures var s' := Step(s, t, ev);
            || (s'.queue == s.queue && s'.served == s.served)
            || (s'.queue == s.queue + [t] && s'.served == s.served && s.pc[t].Locking?)
            || (s.queue != [] && s.queue[0] == t && Holds(s.pc[t]) && s'.queue == s.queue[1..] &&
                s'.served == s.served + 1)
  {
    if s.pc[t].Unlocking? && ev == Go { Release(s, t); }
  }

  /** A spinning thread gets the lock at its next read exactly when it is first. */
  lemma SpinEndsIff(s: State, t: Tid)
    requires Inv(s) && Enabled(s, t, Go) && s.pc[t].Spinning?
    ensures Step(s, t, Go).pc[t] == Holding <==> s.queue != [] && s.queue[0] == t
  {
    FitsNow(s);
    assert PcOk(s, t);
    var k := IndexOf(s.queue, t);
    assert PlaceOk(s, k);
    Residues(s.served, k, 0);
  }

  // ---------------------------------------------------------------- service over a run

  /** Step i is the successful store-conditional by which t draws a ticket. */
  ghost predicate Draws(states: seq<State>, events: seq<(Tid, Event)>, i: nat, t: Tid) {
    i < |events| && i < |states| && events[i] == (t, Go) && t < |states[i].pc| && states[i].pc[t].Locking?
  }

  /** Step i is the successful store-conditional by which t releases the lock. */
  ghost predicate Releases(states: seq<State>, events: seq<(Tid, Event)>, i: nat, t: Tid) {
    i < |events| && i < |states| && events[i] == (t, Go) && t < |states[i].pc| && states[i].pc[t].Unlocking?
  }

  /** The number of the ticket drawn at step i, without wrap-around. */
  ghost function Number(states: seq<State>, i: nat): nat
    requires i < |states|
  {
    states[i].served + |states[i].queue|
  }

  lemma OneStep(states: seq<State>, events: seq<(Tid, Event)>, i: nat)
    requires IsRun(states, events) && i < |events|
    ensures Leads(states[i], events[i], states[i+1]) && Inv(states[i])
    ensures var s, s', t := states[i], states[i+1], events[i].0;
            || (s'.queue == s.queue && s'.served == s.served && !Draws(states, events, i, t) &&
                !Releases(states, events, i, t))
            || (s'.queue == s.queue + [t] && s'.served == s.served && Draws(states, events, i, t))
            || (s.queue != [] && s.queue[0] == t && s'.queue == s.queue[1..] && s'.served == s.served + 1 &&
                Releases(states, events, i, t))
  {
    RunKeeps(states, events, i);
    assert Leads(states[i], events[i], states[i+1]);
    InOrder(states[i], events[i].0, events[i].1);
  }

  lemma {:induction false} ServedGrows(states: seq<State>, events: seq<(Tid, Event)>, i: nat, k: nat)
    requires IsRun(states, events) && i <= k < |states|
    ensures states[i].served <= states[k].served && Number(states, i) <= Number(states, k)
  {
    hide IsRun;
    if i == k {
    } else {
      ServedGrows(states, events, i, k - 1);
      Sized(states, events);
      OneStep(states, events, k - 1);
    }
  }

  lemma Sized(states: seq<State>, events: seq<(Tid, Event)>)
    requires IsRun(states, events)
    ensures |states| == |events| + 1
  {
  }

  /** Until it is served, a ticket keeps its owner and stands as many places back as there are
      tickets to serve before it. */
  lemma {:induction false} HasTicket(states: seq<State>, events: seq<(Tid, Event)>, i: nat, k: nat, t: Tid)
    requires IsRun(states, events) && Draws(states, events, i, t) && i < k < |states|
    requires states[k].served <= Number(states, i)
    ensures var p := Number(states, i) - states[k].served;
            p < |states[k].queue| && states[k].queue[p] == t
  {
    hide IsRun;
    Sized(states, events);
    OneStep(states, events, k - 1);
    if k == i + 1 {
    } else {
      HasTicket(states, events, i, k - 1, t);
    }
  }

  /** The step at which ticket n is served to the end. */
  lemma {:induction false} ServedAt(states: seq<State>, events: seq<(Tid, Event)>, n: nat, i: nat, k: nat)
    returns (m: nat)
    requires IsRun(states, events) && i < k < |states| && states[i].served <= n < states[k].served
    ensures i <= m < k && states[m].served == n && states[m+1].served == n + 1
  {
    hide IsRun;
    Sized(states, events);
    OneStep(states, events, k - 1);
    if n < states[k-1].served {
      m := ServedAt(states, events, n, i, k - 1);
    } else {
      m := k - 1;
    }
  }

  /** A holder is first in the queue, and stands nowhere else. */
  lemma HolderFirst(s: State, t: Tid, p: nat)
    requires Inv(s) && t < |s.pc| && Holds(s.pc[t]) && p < |s.queue| && s.queue[p] == t
    ensures p == 0
  {
    assert PlaceOk(s, p);
  }

  /** If t draws its ticket before u, then t's hold has started and ended, with a release at some
      step m, before u's hold starts: u does not hold at any time up to m. */
  lemma ServedInOrder(states: seq<State>, events: seq<(Tid, Event)>, i: nat, j: nat, k: nat, t: Tid, u: Tid)
    returns (m: nat)
    requires IsRun(states, events) && Draws(states, events, i, t) && Draws(states, events, j, u) && i < j < k < |states|
    requires u < |states[k].pc| && Holds(states[k].pc[u]) && forall n :: j < n < k ==> !Releases(states, events, n, u)
    ensures i < m < k && Releases(states, events, m, t) && forall n :: i < n < m ==> !Releases(states, events, n, t)
    ensures forall n :: j < n <= m && u < |states[n].pc| ==> !Holds(states[n].pc[u])
  {
    hide IsRun, Draws, Releases, Inv, Holds;
    Sized(states, events);
    var nt, nu := Number(states, i), Number(states, j);
    DrawsLater(states, events, i, j, t);
    NotYetServed(states, events, j, k, u);
    RunKeeps(states, events, k);
    HasTicket(states, events, j, k, u);
    HolderFirst(states[k], u, nu - states[k].served);
    m := ServedAt(states, events, nt, i, k);
    ReleasedBy(states, events, i, m, t);
    forall n | j < n <= m && u < |states[n].pc|
      ensures !Holds(states[n].pc[u])
    {
      ServedGrows(states, events, n, m);
      HasTicket(states, events, j, n, u);
      RunKeeps(states, events, n);
      if Holds(states[n].pc[u]) { HolderFirst(states[n], u, nu - states[n].served); }
    }
  }

  lemma DrawsLater(states: seq<State>, events: seq<(Tid, Event)>, i: nat, j: nat, t: Tid)
    requires IsRun(states, events) && Draws(states, events, i, t) && i < j < |states|
    ensures Number(states, i) < Number(states, j)
  {
    hide IsRun;
    OneStep(states, events, i);
    ServedGrows(states, events, i + 1, j);
  }

  /** The step that serves t's ticket to the end is t's release, and its first since it drew. */
  lemma ReleasedBy(states: seq<State>, events: seq<(Tid, Event)>, i: nat, m: nat, t: Tid)
    requires IsRun(states, events) && Draws(states, events, i, t) && i <= m < |states| - 1
    requires states[m].served == Number(states, i) && states[m+1].served == states[m].served + 1
    ensures i < m && Releases(states, events, m, t) && forall n :: i < n < m ==> !Releases(states, events, n, t)
  {
    hide IsRun;
    Sized(states, events);
    OneStep(states, events, i);
    OneStep(states, events, m);
    assert m != i;
    HasTicket(states, events, i, m, t);
    forall n | i < n < m
      ensures !Releases(states, events, n, t)
    {
      ServedGrows(states, events, n + 1, m);
      ServedGrows(states, events, n, m);
      OneStep(states, events, n);
      HasTicket(states, events, i, n, t);
      TwoPlaces(states[n], t, Number(states, i) - states[n].served);
    }
  }

  lemma TwoPlaces(s: State, t: Tid, p: nat)
    requires Inv(s) && p < |s.queue| && s.queue[p] == t
    ensures s.queue[0] == t ==> p == 0
  {
  }

  /** A ticket whose owner has not released since it drew is not served to the end. */
  lemma NotYetServed(states: seq<State>, events: seq<(Tid, Event)>, j: nat, k: nat, u: Tid)
    requires IsRun(states, events) && Draws(states, events, j, u) && j < k < |states|
    requires forall n :: j < n < k ==> !Releases(states, events, n, u)
    ensures states[k].served <= Number(states, j)
  {
    hide IsRun, Draws, Releases;
    Sized(states, events);
    if states[k].served > Number(states, j) {
      var m := ServedAt(states, events, Number(states, j), j, k);
      ReleasedBy(states, events, j, m, u);
      assert false;
    }
  }

  // ---------------------------------------------------------------- nobody is stuck

  /** Thread t takes the steps evs with nobody in between, from s to s1. */
  ghost predicate Reaches(s: State, t: Tid, evs: seq<Event>, s1: State)
    decreases |evs|
  {
    if evs == [] then s1 == s else Enabled(s, t, evs[0]) && Reaches(Step(s, t, evs[0]), t, evs[1..], s1)
  }

  lemma First(s: State, t: Tid, ev: Event, s1: State)
    requires Enabled(s, t, ev) && exists evs :: Reaches(Step(s, t, ev), t, evs, s1)
    ensures exists evs :: Reaches(s, t, evs, s1)
  {
    hide Step, Enabled;
    var evs :| Reaches(Step(s, t, ev), t, evs, s1);
    assert ([ev] + evs)[1..] == evs;
    assert Reaches(s, t, [ev] + evs, s1);
  }

  /** s after t drew a ticket, and after t, first in the queue, released the lock. */
  ghost function Drawn(s: State, t: Tid): State
    requires t < |s.pc|
  {
    s.(upper := Wrap(s.served + |s.queue| + 1), stores := s.stores + 1, queue := s.queue + [t],
       pc := s.pc[t := if s.queue == [] then Holding else Spinning(s.upper)])
  }

  ghost function Released(s: State, t: Tid): State
    requires t < |s.pc| && s.queue != []
  {
    s.(lower := Wrap(s.served + 1), stores := s.stores + 1, served := s.served + 1, queue := s.queue[1..],
       pc := s.pc[t := Out])
  }

  /** A thread that wants the lock can draw its ticket by its own steps: it has the lock at once
      exactly when nobody holds or waits, and spins for its ticket otherwise. */
  lemma CanDraw(s: State, t: Tid)
    requires Inv(s) && t < |s.pc| && (s.pc[t].Out? || s.pc[t].Locking?)
    ensures exists evs :: Reaches(s, t, evs, Drawn(s, t))
  {
    hide Wrap, Reaches;
    if s.pc[t].Out? {
      DrawsTicket(s, t);
    } else {
      Wait(s, t, Fail);
      var s1 := Step(s, t, Fail);
      assert s1.pc[t := Drawn(s, t).pc[t]] == s.pc[t := Drawn(s, t).pc[t]];
      DrawsTicket(s1, t);
      First(s, t, Fail, Drawn(s, t));
    }
  }

  lemma DrawsTicket(s: State, t: Tid)
    requires Inv(s) && t < |s.pc| && s.pc[t].Out?
    ensures exists evs :: Reaches(s, t, evs, Drawn(s, t))
  {
    hide Wrap;
    FitsNow(s);
    Residues(s.served, |s.queue|, 0);
    var s1 := Step(s, t, Lock);
    var s2 := Step(s1, t, Go);
    assert s2.pc == Drawn(s, t).pc;
    assert Reaches(s2, t, [], Drawn(s, t));
    First(s1, t, Go, s2);
    First(s, t, Lock, s2);
  }

  /** The first in the queue can get the lock and release it by its own steps, whatever happened
      to its link. */
  lemma CanRelease(s: State, t: Tid)
    requires Inv(s) && s.queue != [] && s.queue[0] == t
    ensures t < |s.pc| && exists evs :: Reaches(s, t, evs, Released(s, t))
  {
    hide Wrap, Reaches;
    assert PlaceOk(s, 0);
    assert t in s.queue;
    assert PcOk(s, t);
    if s.pc[t].Holding? {
      HoldsThenReleases(s, t);
    } else {
      var ev := if s.pc[t].Spinning? then Go else Fail;
      Wait(s, t, ev);
      var s1 := Step(s, t, ev);
      assert s1.pc[t := Out] == s.pc[t := Out];
      HoldsThenReleases(s1, t);
      First(s, t, ev, Released(s, t));
    }
  }

  lemma HoldsThenReleases(s: State, t: Tid)
    requires Inv(s) && t < |s.pc| && s.pc[t].Holding? && s.queue != []
    ensures exists evs :: Reaches(s, t, evs, Released(s, t))
  {
    hide Wrap;
    Residues(s.served, 0, 0);
    var s1 := Step(s, t, Unlock);
    var s2 := Step(s1, t, Go);
    assert s2.pc == s.pc[t := Out];
    assert Reaches(s2, t, [], Released(s, t));
    First(s1, t, Go, s2);
    First(s, t, Unlock, s2);
  }
}
