/** The bounded pipe, step by step, for any number of senders and receivers: two counting
    semaphores, a send mutex, and a receive index advanced by load-locked/store-conditional. */
module Pipe {

  /** Where a thread stands.  A sender takes an empty token and the mutex (h2_pipe_send) or
      the mutex and then a token (h2_pipe_trysend), reads and advances sendidx, writes the
      element, unlocks and raises howfull.  A receiver takes a full token, links recvidx,
      loads the element, stores the next index on condition, and raises howempty; link is
      the number of stores to recvidx its link has seen. */
  datatype Pc =
    | Out
    | Down(v: int)
    | Trying(v: int)
    | Locked(v: int)
    | Got(v: int, at: nat)
    | Moved(v: int, at: nat)
    | Wrote
    | Unlocked
    | Take
    | Linked(idx: nat, link: nat)
    | Loaded(idx: nat, link: nat, val: int)
    | Taken(val: int)

  datatype State = State(
    size: nat, howempty: nat, howfull: nat, mutex: int, sendidx: nat, recvidx: nat, data: seq<int>, pc: seq<Pc>,
    // the values in the order they were written, and in the order recvidx passed them
    written: seq<int>, taken: seq<int>)

  const FREE: int := -1

  // ---------------------------------------------------------------- steps

  /** A step of thread t: begin a call, or go on with it; a store-conditional may also fail
      without cause. */
  datatype Event = Send(v: int) | TrySend(v: int) | Recv | Go | Fail

  function Next(i: nat, size: nat): nat {
    if i + 1 < size then i + 1 else 0
  }

  ghost predicate Enabled(s: State, t: nat, ev: Event) {
    && t < |s.pc|
    && match s.pc[t]
       case Out =>
         (match ev
          case Send(v) => s.howempty > 0
          case TrySend(v) => s.mutex == FREE
          case Recv => s.howfull > 0
          case _ => false)
       case Down(v) => ev == Go && s.mutex == FREE
       case Loaded(idx, link, val) => ev == Fail || (ev == Go && link == |s.taken|)
       case _ => ev == Go
  }

  ghost function Step(s: State, t: nat, ev: Event): State
    requires Enabled(s, t, ev) && |s.data| == s.size > 0
  {
    match s.pc[t]
    case Out =>
      (match ev
       case Send(v) => s.(howempty := s.howempty - 1, pc := s.pc[t := Down(v)])
       case TrySend(v) => s.(mutex := t, pc := s.pc[t := Trying(v)])
       case _ => s.(howfull := s.howfull - 1, pc := s.pc[t := Take]))
    case Down(v) => s.(mutex := t, pc := s.pc[t := Locked(v)])
    case Trying(v) =>
      if s.howempty > 0 then s.(howempty := s.howempty - 1, pc := s.pc[t := Locked(v)])
      else s.(mutex := FREE, pc := s.pc[t := Out])
    case Locked(v) => s.(pc := s.pc[t := Got(v, s.sendidx)])
    case Got(v, at) => s.(sendidx := Next(at, s.size), pc := s.pc[t := Moved(v, at)])
    case Moved(v, at) =>
      s.(data := if at < s.size then s.data[at := v] else s.data, written := s.written + [v], pc := s.pc[t := Wrote])
    case Wrote => s.(mutex := FREE, pc := s.pc[t := Unlocked])
    case Unlocked => s.(howfull := s.howfull + 1, pc := s.pc[t := Out])
    case Take => s.(pc := s.pc[t := Linked(s.recvidx, |s.taken|)])
    case Linked(idx, link) => s.(pc := s.pc[t := Loaded(idx, link, if idx < s.size then s.data[idx] else 0)])
    case Loaded(idx, link, val) =>
      if ev == Fail then s.(pc := s.pc[t := Take])
      else s.(recvidx := Next(idx, s.size), taken := s.taken + [val], pc := s.pc[t := Taken(val)])
    case Taken(val) => s.(howempty := s.howempty + 1, pc := s.pc[t := Out])
  }

  // ---------------------------------------------------------------- the invariant

  /** Whether a thread accounts for an element that is written but not taken, and for a
      place that is free but not in howempty. */
  ghost function Fulls(p: Pc): nat {
    match p
    case Wrote => 1
    case Unlocked => 1
    case Take => 1
    case Linked(_, _) => 1
    case Loaded(_, _, _) => 1
    case _ => 0
  }

  ghost function Empties(p: Pc): nat {
    match p
    case Down(_) => 1
    case Locked(_) => 1
    case Got(_, _) => 1
    case Moved(_, _) => 1
    case Taken(_) => 1
    case _ => 0
  }

  ghost function SumFulls(pc: seq<Pc>): nat {
    if pc == [] then 0 else Fulls(pc[0]) + SumFulls(pc[1..])
  }

  ghost function SumEmpties(pc: seq<Pc>): nat {
    if pc == [] then 0 else Empties(pc[0]) + SumEmpties(pc[1..])
  }

  lemma {:induction false} SumUpdate(pc: seq<Pc>, t: nat, p: Pc)
    requires t < |pc|
    ensures SumFulls(pc[t := p]) == SumFulls(pc) - Fulls(pc[t]) + Fulls(p) && SumFulls(pc) >= Fulls(pc[t])
    ensures SumEmpties(pc[t := p]) == SumEmpties(pc) - Empties(pc[t]) + Empties(p) && SumEmpties(pc) >= Empties(pc[t])
  {
    if t > 0 {
      SumUpdate(pc[1..], t - 1, p);
      assert pc[t := p][1..] == pc[1..][t - 1 := p];
    } else {
      assert pc[t := p][1..] == pc[1..];
    }
  }

  /** The slot of the j-th element. */
  ghost function SlotOf(j: nat, size: nat): (i: nat)
    requires size > 0
    ensures i < size
  {
    j % size
  }

  ghost predicate HoldsMutex(p: Pc) {
    p.Trying? || p.Locked? || p.Got? || p.Moved? || p.Wrote?
  }

  /** What a thread remembers is right. */
  ghost predicate PcOk(s: State, t: nat)
    requires s.size > 0 && t < |s.pc|
  {
    && (HoldsMutex(s.pc[t]) <==> s.mutex == t)
    && match s.pc[t]
       case Got(v, at) => at == SlotOf(|s.written|, s.size)
       case Moved(v, at) => at == SlotOf(|s.written|, s.size)
       case Linked(idx, link) => link <= |s.taken| && (link == |s.taken| ==> idx == s.recvidx)
       case Loaded(idx, link, val) =>
         link <= |s.taken| && (link == |s.taken| ==> idx == s.recvidx && link < |s.written| && val == s.written[link])
       case _ => true
  }

  /** The holder of the mutex has advanced sendidx but not written yet. */
  ghost predicate Ahead(s: State) {
    0 <= s.mutex < |s.pc| && s.pc[s.mutex].Moved?
  }

  /** The elements written and not taken are in their slots. */
  ghost predicate InSlot(s: State, j: nat)
    requires |s.data| == s.size > 0
  {
    |s.taken| <= j < |s.written| ==> s.data[SlotOf(j, s.size)] == s.written[j]
  }

  ghost predicate Inv(s: State) {
    && |s.data| == s.size > 0 && FREE <= s.mutex < |s.pc|
    && |s.taken| <= |s.written|
    && s.taken == s.written[..|s.taken|]
    && s.howfull + SumFulls(s.pc) == |s.written| - |s.taken|
    && s.howempty + SumEmpties(s.pc) == s.size - (|s.written| - |s.taken|)
    && s.recvidx == SlotOf(|s.taken|, s.size)
    && s.sendidx == SlotOf(|s.written| + (if Ahead(s) then 1 else 0), s.size)
    && (forall t :: 0 <= t < |s.pc| ==> PcOk(s, t))
    && (forall j :: 0 <= j < |s.written| ==> InSlot(s, j))
  }

  lemma NextIs(n: nat, size: nat)
    requires size > 0
    ensures Next(SlotOf(n, size), size) == SlotOf(n + 1, size)
  {
    var q, r := n / size, n % size;
    assert n == q * size + r;
    if r + 1 < size {
      Unique(n + 1, q, r + 1, size);
    } else {
      assert n + 1 == (q + 1) * size;
      Unique(n + 1, q + 1, 0, size);
    }
  }

  lemma Unique(n: nat, q: nat, r: nat, size: nat)
    requires size > 0 && n == q * size + r && r < size
    ensures n % size == r
  {
    var d := n / size - q;
    assert n == (n / size) * size + n % size;
    assert d * size == r - n % size by { Spread(n / size, q, size); }
    if d >= 1 {
      Larger(d, size);
    } else if d <= -1 {
      Larger(-d, size);
    }
  }

  lemma Spread(a: int, b: int, c: int)
    ensures (a - b) * c == a * c - b * c
  {
  }

  lemma Larger(d: int, n: nat)
    requires d >= 1
    ensures d * n >= n
  {
  }

  /** Two positions less than size apart lie in different slots. */
  lemma SlotsDiffer(i: nat, j: nat, size: nat)
    requires size > 0 && i < j < i + size
    ensures SlotOf(i, size) != SlotOf(j, size)
  {
    if i % size == j % size {
      var d := j / size - i / size;
      assert j - i == d * size by { Spread(j / size, i / size, size); }
      if d >= 1 { Larger(d, size); }
    }
  }

  // ---------------------------------------------------------------- every step keeps it

  lemma TokensKept(s: State, t: nat, ev: Event)
    requires Inv(s) && Enabled(s, t, ev)
    ensures var s' := Step(s, t, ev);
            && s'.howfull + SumFulls(s'.pc) == |s'.written| - |s'.taken|
            && s'.howempty + SumEmpties(s'.pc) == s'.size - (|s'.written| - |s'.taken|)
  {
    hide SlotOf, SumFulls, SumEmpties, InSlot;
    SumUpdate(s.pc, t, Step(s, t, ev).pc[t]);
  }

  lemma PcsKept(s: State, t: nat, ev: Event, u: nat)
    requires Inv(s) && Enabled(s, t, ev) && u < |s.pc|
    ensures PcOk(Step(s, t, ev), u)
  {
    hide SlotOf, SumFulls, SumEmpties;
    assert PcOk(s, t) && PcOk(s, u);
    SumUpdate(s.pc, t, Out);
    if s.pc[t].Linked? { assert InSlot(s, |s.taken|); }
  }

  lemma SlotsKept(s: State, t: nat, ev: Event, j: nat)
    requires Inv(s) && Enabled(s, t, ev)
    ensures InSlot(Step(s, t, ev), j)
  {
    hide SlotOf, SumFulls, SumEmpties;
    assert PcOk(s, t);
    SumUpdate(s.pc, t, Out);
    if j < |s.written| {
      assert InSlot(s, j);
      if |s.taken| <= j && s.pc[t].Moved? { SlotsDiffer(j, |s.written|, s.size); }
    }
  }

  lemma IndexKept(s: State, t: nat, ev: Event)
    requires Inv(s) && Enabled(s, t, ev)
    ensures var s' := Step(s, t, ev);
            && s'.recvidx == SlotOf(|s'.taken|, s'.size)
            && s'.sendidx == SlotOf(|s'.written| + (if Ahead(s') then 1 else 0), s'.size)
  {
    hide SlotOf, SumFulls, SumEmpties, InSlot;
    assert PcOk(s, t);
    NextIs(|s.taken|, s.size);
    NextIs(|s.written|, s.size);
  }

  /** Every step of every thread keeps the invariant. */
  lemma StepKeeps(s: State, t: nat, ev: Event)
    requires Inv(s) && Enabled(s, t, ev)
    ensures Inv(Step(s, t, ev))
  {
    hide SlotOf, SumFulls, SumEmpties, InSlot, Ahead;
    var s' := Step(s, t, ev);
    TokensKept(s, t, ev);
    IndexKept(s, t, ev);
    assert PcOk(s, t);
    forall u | 0 <= u < |s'.pc|
      ensures PcOk(s', u)
    {
      PcsKept(s, t, ev, u);
    }
    forall j | 0 <= j < |s'.written|
      ensures InSlot(s', j)
    {
      SlotsKept(s, t, ev, j);
    }
  }

  // ---------------------------------------------------------------- runs

  /** h2_pipe_create over memory with arbitrary contents, before any call. */
  ghost predicate Created(s: State) {
    && |s.data| == s.size > 0 && s.howfull == 0 && s.howempty == s.size && s.mutex == FREE
    && s.sendidx == s.recvidx == 0 && s.written == s.taken == []
    && forall t :: 0 <= t < |s.pc| ==> s.pc[t] == Out
  }

  lemma {:induction false} NoTokensOut(pc: seq<Pc>)
    requires forall t :: 0 <= t < |pc| ==> pc[t] == Out
    ensures SumFulls(pc) == SumEmpties(pc) == 0
  {
    if pc == [] {
    } else {
      NoTokensOut(pc[1..]);
    }
  }

  ghost predicate IsRun(states: seq<State>, events: seq<(nat, Event)>) {
    && |states| == |events| + 1 && Created(states[0])
    && forall i :: 0 <= i < |events| ==> Leads(states[i], events[i], states[i+1])
  }

  ghost predicate Leads(s: State, e: (nat, Event), s1: State) {
    Enabled(s, e.0, e.1) && |s.data| == s.size > 0 && s1 == Step(s, e.0, e.1)
  }

  lemma {:induction false} RunKeeps(states: seq<State>, events: seq<(nat, Event)>, i: nat)
    requires IsRun(states, events) && i < |states|
    ensures Inv(states[i])
  {
    hide Step;
    if i == 0 {
      NoTokensOut(states[0].pc);
    } else {
      RunKeeps(states, events, i - 1);
      assert Leads(states[i-1], events[i-1], states[i]);
      StepKeeps(states[i-1], events[i-1].0, events[i-1].1);
    }
  }

  /** In every state of every run the values taken are the first values written, in order;
      at most size elements are in the pipe; and the tokens are conserved. */
  lemma Fifo(states: seq<State>, events: seq<(nat, Event)>, i: nat)
    requires IsRun(states, events) && i < |states|
    ensures var s := states[i];
            && |s.taken| <= |s.written| <= |s.taken| + s.size
            && s.taken == s.written[..|s.taken|]
            && s.howempty + s.howfull + SumFulls(s.pc) + SumEmpties(s.pc) == s.size
  {
    hide SlotOf, SumFulls, SumEmpties, InSlot, PcOk;
    RunKeeps(states, events, i);
  }

  /** The advance of recvidx that is the i-th in a run hands its thread the i-th value written. */
  lemma TakesInOrder(s: State, t: nat)
    requires Inv(s) && Enabled(s, t, Go) && s.pc[t].Loaded?
    ensures |s.taken| < |s.written| && Step(s, t, Go).pc[t] == Taken(s.written[|s.taken|])
  {
    hide SlotOf, SumFulls, SumEmpties, InSlot;
    assert PcOk(s, t);
  }

  /** A write never hits a slot whose element is still to be taken. */
  lemma NoOverwrite(s: State, t: nat, j: nat)
    requires Inv(s) && Enabled(s, t, Go) && s.pc[t].Moved? && |s.taken| <= j < |s.written|
    ensures s.pc[t].at < s.size && s.pc[t].at != SlotOf(j, s.size)
  {
    hide SlotOf, SumFulls, SumEmpties, InSlot;
    assert PcOk(s, t);
    SumUpdate(s.pc, t, Out);
    SlotsDiffer(j, |s.written|, s.size);
  }

  // ---------------------------------------------------------------- one call among others

  /** A sender that has not written yet, with the value it was given. */
  ghost predicate Carries(p: Pc, v: int) {
    match p
    case Down(x) => x == v
    case Trying(x) => x == v
    case Locked(x) => x == v
    case Got(x, _) => x == v
    case Moved(x, _) => x == v
    case _ => false
  }

  /** Thread t begins a send of v at step k and is in that call up to state i. */
  ghost predicate Sending(states: seq<State>, events: seq<(nat, Event)>, k: nat, i: nat, t: nat, v: int) {
    && |states| == |events| + 1 && k < i < |states| && (events[k] == (t, Send(v)) || events[k] == (t, TrySend(v)))
    && t < |states[k].pc| && states[k].pc[t] == Out
    && forall j :: k < j <= i ==> t < |states[j].pc| && states[j].pc[t] != Out
  }

  /** Step m is thread t's, and appends v to what was written. */
  ghost predicate Writes(states: seq<State>, events: seq<(nat, Event)>, m: nat, t: nat, v: int) {
    && |states| == |events| + 1 && m < |events| && events[m].0 == t
    && states[m+1].written == states[m].written + [v]
  }

  /** Step m is not a write by thread t. */
  ghost predicate Silent(states: seq<State>, events: seq<(nat, Event)>, m: nat, t: nat)
    requires |states| == |events| + 1 && m < |events|
  {
    events[m].0 == t ==> states[m+1].written == states[m].written
  }

  /** Between states k and i the call wrote nothing yet, or wrote v, once. */
  ghost predicate Progress(states: seq<State>, events: seq<(nat, Event)>, k: nat, i: nat, t: nat, v: int)
    requires |states| == |events| + 1 && k < i < |states| && t < |states[i].pc|
  {
    || (Carries(states[i].pc[t], v) && forall j :: k <= j < i ==> Silent(states, events, j, t))
    || ((states[i].pc[t] == Wrote || states[i].pc[t] == Unlocked) && WroteOnce(states, events, k, i, t, v))
  }

  ghost predicate WroteOnce(states: seq<State>, events: seq<(nat, Event)>, k: nat, i: nat, t: nat, v: int)
    requires |states| == |events| + 1 && k < i < |states|
  {
    exists m :: k < m < i && Writes(states, events, m, t, v) &&
                forall j :: k <= j < i && j != m ==> Silent(states, events, j, t)
  }

  lemma OneStep(s: State, d: nat, ev: Event, t: nat, v: int)
    requires Enabled(s, d, ev) && |s.data| == s.size > 0 && t < |s.pc|
    requires Carries(s.pc[t], v) || s.pc[t] == Wrote || s.pc[t] == Unlocked
    ensures var s' := Step(s, d, ev);
            && |s'.pc| == |s.pc|
            && (d != t ==> s'.pc[t] == s.pc[t])
            && (d == t ==>
                  || (Carries(s.pc[t], v) && Carries(s'.pc[t], v) && s'.written == s.written)
                  || (Carries(s.pc[t], v) && s'.pc[t] == Wrote && s'.written == s.written + [v])
                  || (s.pc[t].Trying? && s.howempty == 0 && s'.pc[t] == Out && s'.written == s.written)
                  || (s.pc[t] == Wrote && s'.pc[t] == Unlocked && s'.written == s.written)
                  || (s.pc[t] == Unlocked && s'.pc[t] == Out && s'.written == s.written))
  {
  }

  lemma Begins(s: State, t: nat, ev: Event, v: int)
    requires Enabled(s, t, ev) && |s.data| == s.size > 0 && s.pc[t] == Out && (ev == Send(v) || ev == TrySend(v))
    ensures Carries(Step(s, t, ev).pc[t], v) && Step(s, t, ev).written == s.written
  {
  }

  lemma {:induction false} CallProgress(states: seq<State>, events: seq<(nat, Event)>, k: nat, i: nat, t: nat, v: int)
    requires IsRun(states, events) && Sending(states, events, k, i, t, v)
    ensures Progress(states, events, k, i, t, v)
  {
    hide Step, Enabled;
    assert Leads(states[i-1], events[i-1], states[i]);
    if i == k + 1 {
      Begins(states[k], t, events[k].1, v);
    } else {
      CallProgress(states, events, k, i - 1, t, v);
      OneStep(states[i-1], events[i-1].0, events[i-1].1, t, v);
      if Silent(states, events, i - 1, t) {
        assert events[i-1].0 == t ==> |states[i].written| == |states[i-1].written|;
        if !Carries(states[i-1].pc[t], v) { StillOnce(states, events, k, i, t, v); }
      } else {
        assert Writes(states, events, i - 1, t, v);
      }
    }
  }

  lemma StillOnce(states: seq<State>, events: seq<(nat, Event)>, k: nat, i: nat, t: nat, v: int)
    requires |states| == |events| + 1 && k < i - 1 && i < |states|
    requires WroteOnce(states, events, k, i - 1, t, v) && Silent(states, events, i - 1, t)
    ensures WroteOnce(states, events, k, i, t, v)
  {
    hide Writes, Silent;
    var m :| k < m < i - 1 && Writes(states, events, m, t, v) &&
             forall j :: k <= j < i - 1 && j != m ==> Silent(states, events, j, t);
    assert forall j :: k <= j < i && j != m ==> Silent(states, events, j, t);
  }

  lemma CarriedBack(s: State, d: nat, ev: Event, t: nat, v: int)
    requires Enabled(s, d, ev) && |s.data| == s.size > 0 && t < |s.pc| && Carries(Step(s, d, ev).pc[t], v)
    ensures Carries(s.pc[t], v) || (d == t && s.pc[t] == Out && (ev == Send(v) || ev == TrySend(v)))
  {
  }

  lemma {:induction false} CallBegan(states: seq<State>, events: seq<(nat, Event)>, i: nat, t: nat, v: int)
    requires IsRun(states, events) && i < |states| && t < |states[i].pc| && Carries(states[i].pc[t], v)
    ensures exists k: nat :: Sending(states, events, k, i, t, v)
  {
    hide Step;
    assert i > 0;
    assert Leads(states[i-1], events[i-1], states[i]);
    SameThreads(states[i-1], events[i-1].0, events[i-1].1);
    CarriedBack(states[i-1], events[i-1].0, events[i-1].1, t, v);
    if Carries(states[i-1].pc[t], v) {
      CallBegan(states, events, i - 1, t, v);
      var k: nat :| Sending(states, events, k, i - 1, t, v);
      assert Sending(states, events, k, i, t, v);
    } else {
      assert Sending(states, events, i - 1, i, t, v);
    }
  }

  lemma SameThreads(s: State, d: nat, ev: Event)
    requires Enabled(s, d, ev) && |s.data| == s.size > 0
    ensures |Step(s, d, ev).pc| == |s.pc|
  {
  }

  /** In every run, a write puts down the value its thread was given by the send or trysend it is
      still in, and that call has written nothing before. */
  lemma WritesSent(states: seq<State>, events: seq<(nat, Event)>, i: nat, t: nat)
    requires IsRun(states, events) && i < |events| && events[i].0 == t
    requires t < |states[i].pc| && states[i].pc[t].Moved?
    ensures exists k: nat, v ::
              && Sending(states, events, k, i, t, v) && states[i+1].written == states[i].written + [v]
              && forall j :: k <= j < i ==> Silent(states, events, j, t)
  {
    var v := states[i].pc[t].v;
    assert Leads(states[i], events[i], states[i+1]);
    CallBegan(states, events, i, t, v);
    var k: nat :| Sending(states, events, k, i, t, v);
    CallProgress(states, events, k, i, t, v);
  }

  lemma {:induction false} OnlyTrying(states: seq<State>, events: seq<(nat, Event)>, k: nat, i: nat, t: nat, v: int)
    requires IsRun(states, events) && Sending(states, events, k, i, t, v) && states[i].pc[t].Trying?
    ensures events[k].1 == TrySend(v)
  {
    assert Leads(states[i-1], events[i-1], states[i]);
    if i == k + 1 {
    } else {
      OnlyTrying(states, events, k, i - 1, t, v);
    }
  }

  /** In every run, a send that returns has written its value exactly once; so has a trysend,
      unless it found no empty place, and then it has written nothing. */
  lemma SendReturns(states: seq<State>, events: seq<(nat, Event)>, k: nat, i: nat, t: nat, v: int)
    requires IsRun(states, events) && Sending(states, events, k, i, t, v)
    requires i < |events| && t < |states[i+1].pc| && states[i+1].pc[t] == Out
    ensures || WroteOnce(states, events, k, i, t, v)
            || (&& events[k].1 == TrySend(v) && states[i].pc[t].Trying? && states[i].howempty == 0
                && forall j :: k <= j <= i ==> Silent(states, events, j, t))
  {
    hide Step, Enabled, WroteOnce;
    assert Leads(states[i], events[i], states[i+1]);
    CallProgress(states, events, k, i, t, v);
    OneStep(states[i], events[i].0, events[i].1, t, v);
    if states[i].pc[t].Trying? { OnlyTrying(states, events, k, i, t, v); }
  }

  // ---------------------------------------------------------------- one call alone

  /** Thread t takes n steps of its call with nobody in between, from s to s1. */
  ghost predicate Goes(s: State, t: nat, n: nat, s1: State)
    decreases n
  {
    if n == 0 then s1 == s
    else Enabled(s, t, Go) && |s.data| == s.size > 0 && Goes(Step(s, t, Go), t, n - 1, s1)
  }

  /** Thread t begins a call with ev and takes n steps of it with nobody in between. */
  ghost predicate Alone(s: State, t: nat, ev: Event, n: nat, s1: State) {
    Enabled(s, t, ev) && |s.data| == s.size > 0 && Goes(Step(s, t, ev), t, n, s1)
  }

  /** s with v written into the next slot and a full token more. */
  ghost function Sent(s: State, v: int): State
    requires |s.data| == s.size > 0 && s.howempty > 0
  {
    s.(howempty := s.howempty - 1, howfull := s.howfull + 1, written := s.written + [v],
       data := s.data[SlotOf(|s.written|, s.size) := v], sendidx := SlotOf(|s.written| + 1, s.size))
  }

  /** s with the oldest element taken and an empty token more. */
  ghost function Received(s: State): State
    requires |s.taken| < |s.written| && s.size > 0 && s.howfull > 0
  {
    s.(howempty := s.howempty + 1, howfull := s.howfull - 1, taken := s.taken + [s.written[|s.taken|]],
       recvidx := SlotOf(|s.taken| + 1, s.size))
  }

  /** From the moment a sender has its token and the mutex. */
  lemma WriteAlone(s: State, t: nat, v: int)
    requires |s.data| == s.size > 0 && t < |s.pc| && s.pc[t] == Locked(v) && s.mutex == t
    requires s.sendidx == SlotOf(|s.written|, s.size)
    ensures var s1 := s.(howfull := s.howfull + 1, mutex := FREE, written := s.written + [v], pc := s.pc[t := Out],
                         data := s.data[s.sendidx := v], sendidx := SlotOf(|s.written| + 1, s.size));
            Goes(s, t, 5, s1)
  {
    hide SlotOf;
    NextIs(|s.written|, s.size);
    var a := Step(s, t, Go);
    var b := Step(a, t, Go);
    var c := Step(b, t, Go);
    var d := Step(c, t, Go);
    var e := Step(d, t, Go);
    assert Goes(e, t, 0, e);
    assert Goes(d, t, 1, e);
    assert Goes(c, t, 2, e);
    assert Goes(b, t, 3, e);
    assert Goes(a, t, 4, e);
    assert Goes(s, t, 5, e);
    assert e.pc == s.pc[t := Out];
  }

  /** A send with a free place and the mutex free writes its value at the end and returns. */
  lemma SendAlone(s: State, t: nat, v: int)
    requires Inv(s) && t < |s.pc| && s.pc[t] == Out && s.howempty > 0 && s.mutex == FREE
    ensures Alone(s, t, Send(v), 6, Sent(s, v))
  {
    hide SlotOf, SumFulls, SumEmpties, InSlot, PcOk;
    var a := Step(s, t, Send(v));
    var b := Step(a, t, Go);
    WriteAlone(b, t, v);
    assert b.pc[t := Out] == s.pc;
    assert Goes(a, t, 6, Sent(s, v));
  }

  /** A trysend with the mutex free does the same if there is a free place, and nothing if not. */
  lemma TrySendAlone(s: State, t: nat, v: int)
    requires Inv(s) && t < |s.pc| && s.pc[t] == Out && s.mutex == FREE
    ensures if s.howempty > 0 then Alone(s, t, TrySend(v), 6, Sent(s, v))
            else Alone(s, t, TrySend(v), 1, s)
  {
    hide SlotOf, SumFulls, SumEmpties, InSlot, PcOk;
    var a := Step(s, t, TrySend(v));
    var b := Step(a, t, Go);
    if s.howempty > 0 {
      WriteAlone(b, t, v);
      assert b.pc[t := Out] == s.pc;
      assert Goes(a, t, 6, Sent(s, v));
    } else {
      assert b.pc == s.pc;
      assert Goes(s, t, 0, s);
      assert Goes(a, t, 1, s);
    }
  }

  /** A receive with a full token to be had takes the oldest element and returns it. */
  lemma RecvAlone(s: State, t: nat)
    requires Inv(s) && t < |s.pc| && s.pc[t] == Out && s.howfull > 0
    ensures |s.taken| < |s.written|
    ensures var s1 := Received(s).(howempty := s.howempty, pc := s.pc[t := Taken(s.written[|s.taken|])]);
            Alone(s, t, Recv, 3, s1) && Goes(s1, t, 1, Received(s))
  {
    hide SlotOf, SumFulls, SumEmpties, PcOk;
    assert InSlot(s, |s.taken|);
    NextIs(|s.taken|, s.size);
    var a := Step(s, t, Recv);
    var b := Step(a, t, Go);
    var c := Step(b, t, Go);
    var d := Step(c, t, Go);
    assert Goes(d, t, 0, d);
    assert Goes(c, t, 1, d);
    assert Goes(b, t, 2, d);
    assert Goes(a, t, 3, d);
    assert d.pc == s.pc[t := Taken(s.written[|s.taken|])] && d.pc[t := Out] == s.pc;
    assert Goes(Received(s), t, 0, Received(s));
    assert Goes(d, t, 1, Received(s));
  }

  /** Nobody is stuck in a call: a thread can go on, unless it waits for a mutex whose holder can. */
  lemma SomebodyGoesOn(s: State, t: nat)
    requires Inv(s) && t < |s.pc| && s.pc[t] != Out
    ensures || Enabled(s, t, Go) || Enabled(s, t, Fail)
            || (s.pc[t].Down? && 0 <= s.mutex < |s.pc| && Enabled(s, s.mutex, Go))
  {
    hide SlotOf, SumFulls, SumEmpties, InSlot;
    if s.pc[t].Down? && s.mutex != FREE { assert PcOk(s, s.mutex); }
  }

  /** A receiver that has its token, before its store to recvidx. */
  ghost predicate Receiving(p: Pc) {
    p.Take? || p.Linked? || p.Loaded?
  }

  /** s with the oldest element taken by t, which has yet to raise howempty. */
  ghost function TakenBy(s: State, t: nat): State
    requires |s.taken| < |s.written| && s.size > 0 && t < |s.pc|
  {
    s.(taken := s.taken + [s.written[|s.taken|]], recvidx := SlotOf(|s.taken| + 1, s.size),
       pc := s.pc[t := Taken(s.written[|s.taken|])])
  }

  lemma HasElement(s: State, t: nat)
    requires Inv(s) && t < |s.pc| && Receiving(s.pc[t])
    ensures |s.taken| < |s.written|
  {
    hide SlotOf, SumFulls, SumEmpties, InSlot, PcOk;
    SumUpdate(s.pc, t, Out);
  }

  lemma TakesFrom(s: State, t: nat)
    requires Inv(s) && t < |s.pc| && s.pc[t] == Take && |s.taken| < |s.written|
    ensures Goes(s, t, 3, TakenBy(s, t))
  {
    hide SlotOf, SumFulls, SumEmpties, PcOk;
    assert InSlot(s, |s.taken|);
    NextIs(|s.taken|, s.size);
    var a := Step(s, t, Go);
    var b := Step(a, t, Go);
    var c := Step(b, t, Go);
    assert Goes(c, t, 0, c);
    assert Goes(b, t, 1, c);
    assert Goes(a, t, 2, c);
    assert c.pc == TakenBy(s, t).pc;
  }

  /** By its own steps, whatever happened to its link, a receiver with its token takes the oldest
      element: at once, or after its store-conditional has failed and it has started over. */
  lemma CanTake(s: State, t: nat)
    requires Inv(s) && t < |s.pc| && Receiving(s.pc[t])
    ensures |s.taken| < |s.written|
    ensures || Goes(s, t, 3, TakenBy(s, t))
            || (s.pc[t].Linked? &&
                exists s1, s2 :: Goes(s, t, 1, s1) && Fails(s1, t, s2) && Goes(s2, t, 3, TakenBy(s, t)))
            || (s.pc[t].Loaded? && exists s1 :: Fails(s, t, s1) && Goes(s1, t, 3, TakenBy(s, t)))
  {
    hide SlotOf, SumFulls, SumEmpties, InSlot, PcOk, Inv;
    HasElement(s, t);
    Sized(s);
    if s.pc[t].Take? {
      TakesFrom(s, t);
    } else if s.pc[t].Linked? {
      StepKeeps(s, t, Go);
      var s1 := Step(s, t, Go);
      Restarts(s1, t);
      var s2 := Step(s1, t, Fail);
      assert s2.pc[t := TakenBy(s, t).pc[t]] == TakenBy(s, t).pc;
      assert Goes(s1, t, 0, s1);
      assert Goes(s, t, 1, s1) && Fails(s1, t, s2) && Goes(s2, t, 3, TakenBy(s, t));
    } else {
      Restarts(s, t);
      var s1 := Step(s, t, Fail);
      assert s1.pc[t := TakenBy(s, t).pc[t]] == TakenBy(s, t).pc;
      assert Fails(s, t, s1) && Goes(s1, t, 3, TakenBy(s, t));
    }
  }

  ghost predicate Fails(s: State, t: nat, s1: State) {
    Enabled(s, t, Fail) && |s.data| == s.size > 0 && s1 == Step(s, t, Fail)
  }

  lemma Sized(s: State)
    requires Inv(s)
    ensures |s.data| == s.size > 0
  {
  }

  lemma Restarts(s: State, t: nat)
    requires Inv(s) && t < |s.pc| && s.pc[t].Loaded? && |s.taken| < |s.written|
    ensures Enabled(s, t, Fail) && |s.data| == s.size
    ensures Goes(Step(s, t, Fail), t, 3, TakenBy(Step(s, t, Fail), t))
  {
    hide SlotOf, SumFulls, SumEmpties, InSlot, PcOk, Goes, Inv;
    Sized(s);
    StepKeeps(s, t, Fail);
    TakesFrom(Step(s, t, Fail), t);
  }
}
