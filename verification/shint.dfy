/** Shared virtual interrupts: the pending and enable words of a VM, and the steps by which its
    CPUs post, clear, enable, disable and take them.  Each read of a word and each atomic bit
    operation is one step. */
module Shint {
  import Bits

  const BITS: nat := 32

  /** Where a CPU stands in a call.  Get reads the pending, enable and local mask words of word
      j, picks a bit that is set in all three, and clears it in enable and then in pending;
      when either clear finds the bit gone it reads word j again. */
  datatype Pc =
    | Out
    | Posting(n: nat)
    | Enabling(n: nat)
    | Disabling(n: nat)
    | GetPending(j: nat)
    | GetEnable(j: nat, p: seq<bool>)
    | GetMask(j: nat, p: seq<bool>, e: seq<bool>)
    | ClearEnable(n: nat)
    | ClearPending(n: nat)

  datatype State = State(
    // bit n of word j is entry 32 j + n
    pending: seq<bool>, enable: seq<bool>, mask: seq<seq<bool>>, pc: seq<Pc>,
    // per interrupt: how often each bit went from 0 to 1
    posts: seq<nat>, enables: seq<nat>,
    // per interrupt: gets that returned it; clears of pending by H2K_vm_shint_clear; clears of
    // enable by H2K_vm_shint_disable; and gets that cleared enable but found pending gone
    gets: seq<nat>, clears: seq<nat>, disables: seq<nat>, lost: seq<nat>)

  datatype Event =
    | Post(n: nat)
    | Clear(n: nat)
    | Enable(n: nat)
    | Disable(n: nat)
    | Local(cpu: nat, n: nat, b: bool)
    | Get
    | Go

  ghost function Bump(c: seq<nat>, n: nat, yes: bool): seq<nat>
    requires n < |c|
  {
    if yes then c[n := c[n] + 1] else c
  }

  ghost predicate Shape(s: State) {
    var n := |s.pending|;
    && n % BITS == 0
    && |s.enable| == |s.posts| == |s.enables| == |s.gets| == |s.clears| == |s.disables| == |s.lost| == n
    && |s.mask| == |s.pc| && (forall c :: 0 <= c < |s.mask| ==> |s.mask[c]| == n)
    && (forall c :: 0 <= c < |s.pc| ==> PcOk(s.pc[c], n))
  }

  ghost predicate PcOk(p: Pc, n: nat) {
    match p
    case Out => true
    case Posting(i) => i < n
    case Enabling(i) => i < n
    case Disabling(i) => i < n
    case GetPending(j) => BITS * j < n
    case GetEnable(j, p) => BITS * j < n && |p| == BITS
    case GetMask(j, p, e) => BITS * j < n && |p| == BITS && |e| == BITS
    case ClearEnable(i) => i < n
    case ClearPending(i) => i < n
  }

  ghost function Word(bits: seq<bool>, j: nat): (w: seq<bool>)
    requires |bits| % BITS == 0 && BITS * j < |bits|
    ensures |w| == BITS
  {
    bits[BITS * j..BITS * j + BITS]
  }

  ghost function And3(p: seq<bool>, e: seq<bool>, m: seq<bool>): (w: seq<bool>)
    requires |p| == |e| == |m| == BITS
    ensures |w| == BITS
  {
    seq(BITS, i requires 0 <= i < BITS => p[i] && e[i] && m[i])
  }

  ghost predicate Enabled(s: State, c: nat, ev: Event) {
    && c < |s.pc|
    && if s.pc[c] != Out then ev == Go
       else match ev
         case Post(n) => n < |s.pending|
         case Clear(n) => n < |s.pending|
         case Enable(n) => n < |s.pending|
         case Disable(n) => n < |s.pending|
         case Local(k, n, b) => k < |s.mask| && n < |s.pending|
         case Get => |s.pending| > 0
         case Go => false
  }

  /** Begin a call.  post, enable and disable first look at their bit and return when there
      is nothing to do. */
  ghost function Begin(s: State, c: nat, ev: Event): State
    requires Shape(s) && Enabled(s, c, ev) && s.pc[c] == Out
  {
    match ev
    case Post(n) => if s.pending[n] then s else s.(pc := s.pc[c := Posting(n)])
    case Clear(n) => s.(pending := s.pending[n := false], clears := Bump(s.clears, n, s.pending[n]))
    case Enable(n) => if s.enable[n] then s else s.(pc := s.pc[c := Enabling(n)])
    case Disable(n) => if !s.enable[n] then s else s.(pc := s.pc[c := Disabling(n)])
    case Local(k, n, b) => s.(mask := s.mask[k := s.mask[k][n := b]])
    case _ => s.(pc := s.pc[c := GetPending(0)])
  }

  ghost function Continue(s: State, c: nat): State
    requires Shape(s) && c < |s.pc| && s.pc[c] != Out
  {
    match s.pc[c]
    case Posting(n) => s.(pending := s.pending[n := true], posts := Bump(s.posts, n, !s.pending[n]),
                          pc := s.pc[c := Out])
    case Enabling(n) => s.(enable := s.enable[n := true], enables := Bump(s.enables, n, !s.enable[n]),
                           pc := s.pc[c := Out])
    case Disabling(n) => s.(enable := s.enable[n := false], disables := Bump(s.disables, n, s.enable[n]),
                            pc := s.pc[c := Out])
    case GetPending(j) => s.(pc := s.pc[c := GetEnable(j, Word(s.pending, j))])
    case GetEnable(j, p) => s.(pc := s.pc[c := GetMask(j, p, Word(s.enable, j))])
    case GetMask(j, p, e) =>
      var b := Bits.Ct0(And3(p, e, Word(s.mask[c], j)));
      if b < BITS then s.(pc := s.pc[c := ClearEnable(BITS * j + b)])
      else s.(pc := s.pc[c := if BITS * (j + 1) < |s.pending| then GetPending(j + 1) else Out])
    case ClearEnable(n) =>
      if !s.enable[n] then s.(pc := s.pc[c := GetPending(n / BITS)])
      else s.(enable := s.enable[n := false], pc := s.pc[c := ClearPending(n)])
    case ClearPending(n) =>
      if !s.pending[n] then s.(lost := Bump(s.lost, n, true), pc := s.pc[c := GetPending(n / BITS)])
      else s.(pending := s.pending[n := false], gets := Bump(s.gets, n, true), pc := s.pc[c := Out])
  }

  ghost function Step(s: State, c: nat, ev: Event): State
    requires Shape(s) && Enabled(s, c, ev)
  {
    if s.pc[c] == Out then Begin(s, c, ev) else Continue(s, c)
  }

  // ---------------------------------------------------------------- the invariant

  ghost function Takes(p: Pc, n: nat): nat {
    if p == ClearPending(n) then 1 else 0
  }

  /** The gets between their two clears of interrupt n. */
  ghost function Taking(pc: seq<Pc>, n: nat): nat {
    if pc == [] then 0 else Takes(pc[0], n) + Taking(pc[1..], n)
  }

  lemma {:induction false} TakingUpdate(pc: seq<Pc>, c: nat, p: Pc, n: nat)
    requires c < |pc|
    ensures Taking(pc[c := p], n) == Taking(pc, n) - Takes(pc[c], n) + Takes(p, n) && Taking(pc, n) >= Takes(pc[c], n)
  {
    if c > 0 {
      TakingUpdate(pc[1..], c - 1, p, n);
      assert pc[c := p][1..] == pc[1..][c - 1 := p];
    } else {
      assert pc[c := p][1..] == pc[1..];
    }
  }

  ghost function One(b: bool): nat { if b then 1 else 0 }

  /** Every rise of a bit is still there or was used up exactly once. */
  ghost predicate Balanced(s: State, n: nat)
    requires Shape(s) && n < |s.pending|
  {
    && s.posts[n] == One(s.pending[n]) + s.clears[n] + s.gets[n]
    && s.enables[n] == One(s.enable[n]) + s.disables[n] + Taking(s.pc, n) + s.gets[n] + s.lost[n]
  }

  ghost predicate Inv(s: State) {
    Shape(s) && forall n :: 0 <= n < |s.pending| ==> Balanced(s, n)
  }

  lemma ShapeKept(s: State, c: nat, ev: Event)
    requires Shape(s) && Enabled(s, c, ev)
    ensures Shape(Step(s, c, ev)) && |Step(s, c, ev).pending| == |s.pending| && |Step(s, c, ev).pc| == |s.pc|
  {
    hide And3, Word;
    assert PcOk(s.pc[c], |s.pending|);
    if s.pc[c].GetMask? { InWord(s.pc[c].j, |s.pending|); }
    if s.pc[c].ClearEnable? { WordOf(s.pc[c].n, |s.pending|); }
    if s.pc[c].ClearPending? { WordOf(s.pc[c].n, |s.pending|); }
  }

  lemma InWord(j: nat, n: nat)
    requires n % BITS == 0 && BITS * j < n
    ensures BITS * j + BITS <= n
  {
  }

  lemma WordOf(i: nat, n: nat)
    requires i < n
    ensures BITS * (i / BITS) < n
  {
  }

  lemma BalanceBegun(s: State, c: nat, ev: Event, n: nat)
    requires Inv(s) && Enabled(s, c, ev) && n < |s.pending| && s.pc[c] == Out
    requires Shape(Step(s, c, ev)) && |Step(s, c, ev).pending| == |s.pending|
    ensures Balanced(Step(s, c, ev), n)
  {
    hide And3, Word, Taking, Shape, Continue;
    assert Balanced(s, n);
    Known(s, c);
    TakingUpdate(s.pc, c, Step(s, c, ev).pc[c], n);
  }

  lemma BalanceContinued(s: State, c: nat, ev: Event, n: nat)
    requires Inv(s) && Enabled(s, c, ev) && n < |s.pending| && s.pc[c] != Out
    requires Shape(Step(s, c, ev)) && |Step(s, c, ev).pending| == |s.pending|
    ensures Balanced(Step(s, c, ev), n)
  {
    hide And3, Word, Taking, Shape, Begin;
    assert Balanced(s, n);
    Known(s, c);
    TakingUpdate(s.pc, c, Step(s, c, ev).pc[c], n);
  }

  lemma Known(s: State, c: nat)
    requires Shape(s) && c < |s.pc|
    ensures var n := |s.pending|;
            && PcOk(s.pc[c], n) && |s.mask| == |s.pc| && |s.mask[c]| == n && n % BITS == 0
            && |s.enable| == |s.posts| == |s.enables| == |s.gets| == |s.clears| == |s.disables| == |s.lost| == n
  {
  }

  /** Every step of every CPU keeps the books. */
  lemma StepKeeps(s: State, c: nat, ev: Event)
    requires Inv(s) && Enabled(s, c, ev)
    ensures Inv(Step(s, c, ev))
  {
    hide Step, Shape, Balanced;
    ShapeKept(s, c, ev);
    forall n | 0 <= n < |s.pending| ensures Balanced(Step(s, c, ev), n) {
      if s.pc[c] == Out { BalanceBegun(s, c, ev, n); } else { BalanceContinued(s, c, ev, n); }
    }
  }

  // ---------------------------------------------------------------- runs

  /** All bits clear, nobody in a call. */
  ghost predicate Start(s: State) {
    && Shape(s) && (forall c :: 0 <= c < |s.pc| ==> s.pc[c] == Out)
    && forall n :: 0 <= n < |s.pending| ==> Blank(s, n)
  }

  ghost predicate Blank(s: State, n: nat)
    requires Shape(s) && n < |s.pending|
  {
    !s.pending[n] && !s.enable[n] &&
    s.posts[n] == s.enables[n] == s.gets[n] == s.clears[n] == s.disables[n] == s.lost[n] == 0
  }

  lemma {:induction false} NoneTaking(pc: seq<Pc>, n: nat)
    requires forall c :: 0 <= c < |pc| ==> pc[c] == Out
    ensures Taking(pc, n) == 0
  {
    if pc == [] {
    } else {
      NoneTaking(pc[1..], n);
    }
  }

  ghost predicate Leads(s: State, e: (nat, Event), s1: State) {
    Shape(s) && Enabled(s, e.0, e.1) && s1 == Step(s, e.0, e.1)
  }

  ghost predicate IsRun(states: seq<State>, events: seq<(nat, Event)>) {
    && |states| == |events| + 1 && Start(states[0])
    && forall i :: 0 <= i < |events| ==> Leads(states[i], events[i], states[i+1])
  }

  lemma {:induction false} RunKeeps(states: seq<State>, events: seq<(nat, Event)>, i: nat)
    requires IsRun(states, events) && i < |states|
    ensures Inv(states[i])
  {
    hide Step, Taking;
    if i == 0 {
      var s := states[0];
      forall n | 0 <= n < |s.pending| ensures Balanced(s, n) { NoneTaking(s.pc, n); assert Blank(s, n); }
    } else {
      RunKeeps(states, events, i - 1);
      assert Leads(states[i-1], events[i-1], states[i]);
      StepKeeps(states[i-1], events[i-1].0, events[i-1].1);
    }
  }

  /** Under any interleaving, interrupt n is never taken more often than its enable bit rose,
      nor more often than its pending bit rose. */
  lemma TakenAtMost(states: seq<State>, events: seq<(nat, Event)>, i: nat, n: nat)
    requires IsRun(states, events) && i < |states| && n < |states[i].pending|
    ensures Shape(states[i]) && states[i].gets[n] <= states[i].enables[n] && states[i].gets[n] <= states[i].posts[n]
  {
    hide Step, Taking;
    RunKeeps(states, events, i);
    assert Balanced(states[i], n);
  }

  /** Two CPUs that both got past the clear of enable n used two different rises of it. */
  lemma OneEnableOneTaker(s: State, n: nat)
    requires Inv(s) && n < |s.pending|
    ensures Taking(s.pc, n) + s.gets[n] <= s.enables[n] - One(s.enable[n])
  {
    hide Taking;
    assert Balanced(s, n);
  }

  // ---------------------------------------------------------------- lost enables

  /** The CPU is in a get and read interrupt n as pending. */
  ghost predicate SawPending(p: Pc, n: nat) {
    match p
    case GetEnable(j, w) => j == n / BITS && |w| == BITS && w[n % BITS]
    case GetMask(j, w, e) => j == n / BITS && |w| == BITS && w[n % BITS]
    case ClearEnable(i) => i == n
    case ClearPending(i) => i == n
    case _ => false
  }

  ghost predicate ReadsPending(s: State, c: nat, n: nat) {
    c < |s.pc| && n < |s.pending| && s.pc[c] == GetPending(n / BITS) && s.pending[n]
  }

  /** At step k CPU c read interrupt n as pending, and it has been on the way to clear it since. */
  ghost predicate ReadSince(states: seq<State>, k: nat, i: nat, c: nat, n: nat) {
    && k < i < |states| && ReadsPending(states[k], c, n)
    && forall j :: k < j <= i ==> c < |states[j].pc| && SawPending(states[j].pc[c], n)
  }

  /** Step m takes the pending bit away: a clear, or the get of another CPU than c. */
  ghost predicate FallsAt(states: seq<State>, events: seq<(nat, Event)>, m: nat, c: nat, n: nat) {
    && |states| == |events| + 1 && m < |events|
    && n < |states[m].pending| && states[m].pending[n] && n < |states[m+1].pending| && !states[m+1].pending[n]
    && (events[m].1 == Clear(n) ||
        (events[m].0 != c && events[m].0 < |states[m].pc| && states[m].pc[events[m].0] == ClearPending(n)))
  }

  lemma SawBefore(s: State, d: nat, ev: Event, c: nat, n: nat)
    requires Shape(s) && Enabled(s, d, ev) && c < |s.pc| && n < |s.pending|
    requires c < |Step(s, d, ev).pc| && SawPending(Step(s, d, ev).pc[c], n)
    ensures SawPending(s.pc[c], n) || (d == c && ReadsPending(s, c, n))
  {
    Known(s, d);
    if d == c && s.pc[c].GetPending? {
      assert n == BITS * (n / BITS) + n % BITS;
    }
  }

  lemma {:induction false} ReadStarts(states: seq<State>, events: seq<(nat, Event)>, i: nat, c: nat, n: nat)
    requires IsRun(states, events) && i < |states|
    requires c < |states[i].pc| && n < |states[i].pending| && SawPending(states[i].pc[c], n)
    ensures exists k: nat :: ReadSince(states, k, i, c, n)
  {
    hide Step, SawPending, ReadsPending;
    if i == 0 {
      assert states[0].pc[c] == Out;
      NotOut(states[0].pc[c], n);
    } else {
      assert Leads(states[i-1], events[i-1], states[i]);
      ShapeKept(states[i-1], events[i-1].0, events[i-1].1);
      SawBefore(states[i-1], events[i-1].0, events[i-1].1, c, n);
      if SawPending(states[i-1].pc[c], n) {
        ReadStarts(states, events, i - 1, c, n);
        var k: nat :| ReadSince(states, k, i - 1, c, n);
        assert ReadSince(states, k, i, c, n);
      } else {
        assert ReadSince(states, i - 1, i, c, n);
      }
    }
  }

  lemma ReadPending(s: State, c: nat, n: nat)
    requires ReadsPending(s, c, n)
    ensures n < |s.pending| && s.pending[n]
  {
  }

  lemma NotOut(p: Pc, n: nat)
    requires SawPending(p, n)
    ensures p != Out
  {
  }

  /** Only a clear and a get take a pending bit away, and such a get then returns. */
  lemma FallCause(s: State, d: nat, ev: Event, n: nat)
    requires Shape(s) && Enabled(s, d, ev) && n < |s.pending| && s.pending[n]
    requires n < |Step(s, d, ev).pending| && !Step(s, d, ev).pending[n]
    ensures ev == Clear(n) || (s.pc[d] == ClearPending(n) && Step(s, d, ev).pc == s.pc[d := Out])
  {
    Known(s, d);
  }

  lemma {:induction false} Falls(states: seq<State>, events: seq<(nat, Event)>, k: nat, i: nat, c: nat, n: nat)
    requires IsRun(states, events) && k < i < |states| && n < |states[k].pending| && states[k].pending[n]
    requires n < |states[i].pending| && !states[i].pending[n]
    requires forall j :: k < j <= i ==> c < |states[j].pc| && SawPending(states[j].pc[c], n)
    ensures exists m :: k <= m < i && FallsAt(states, events, m, c, n)
    decreases i - k
  {
    hide Step, SawPending;
    assert Leads(states[k], events[k], states[k+1]);
    ShapeKept(states[k], events[k].0, events[k].1);
    if states[k+1].pending[n] {
      Falls(states, events, k + 1, i, c, n);
    } else {
      FallCause(states[k], events[k].0, events[k].1, n);
      NotOut(states[k+1].pc[c], n);
      assert FallsAt(states, events, k, c, n);
    }
  }

  lemma LostStep(s: State, d: nat, ev: Event, n: nat)
    requires Shape(s) && Enabled(s, d, ev) && n < |s.pending| && n < |Step(s, d, ev).lost|
    ensures Step(s, d, ev).lost[n] == s.lost[n] + if s.pc[d] == ClearPending(n) && !s.pending[n] then 1 else 0
    ensures Step(s, d, ev).lost[n] != s.lost[n] ==> SawPending(s.pc[d], n)
  {
    Known(s, d);
  }

  /** A get that cleared enable n and then finds it not pending used up an enable for nothing.
      That happens only when the pending bit fell, by a clear or by another CPU's get, between
      that get's read of it and its clear. */
  lemma LostMeansFell(states: seq<State>, events: seq<(nat, Event)>, i: nat, n: nat)
    requires IsRun(states, events) && i < |events| && n < |states[i].lost| && n < |states[i+1].lost|
    requires states[i+1].lost[n] != states[i].lost[n]
    ensures exists k: nat, m: nat ::
              k <= m < i && ReadSince(states, k, i, events[i].0, n) && FallsAt(states, events, m, events[i].0, n)
  {
    hide Step, SawPending, ReadsPending;
    var c := events[i].0;
    assert Leads(states[i], events[i], states[i+1]);
    LostStep(states[i], c, events[i].1, n);
    ReadStarts(states, events, i, c, n);
    var k: nat :| ReadSince(states, k, i, c, n);
    ReadPending(states[k], c, n);
    Falls(states, events, k, i, c, n);
  }

  /** So while nobody clears interrupt n and no CPU but c takes it, no enable of it is lost. */
  lemma {:induction false} NoneLost(states: seq<State>, events: seq<(nat, Event)>, i: nat, c: nat, n: nat)
    requires IsRun(states, events) && i < |states| && n < |states[0].pending|
    requires forall j :: 0 <= j < i ==> events[j].1 != Clear(n)
    requires forall j, d :: 0 <= j < i && 0 <= d < |states[j].pc| && d != c ==> states[j].pc[d] != ClearPending(n)
    ensures n < |states[i].lost| && states[i].lost[n] == 0
  {
    hide Step, SawPending, ReadsPending;
    if i == 0 {
      assert Blank(states[0], n);
    } else {
      NoneLost(states, events, i - 1, c, n);
      assert Leads(states[i-1], events[i-1], states[i]);
      ShapeKept(states[i-1], events[i-1].0, events[i-1].1);
      if states[i].lost[n] != states[i-1].lost[n] {
        LostStep(states[i-1], events[i-1].0, events[i-1].1, n);
        LostMeansFell(states, events, i - 1, n);
      }
    }
  }

  // ---------------------------------------------------------------- what a get takes

  /** The CPU is in a get and read interrupt n as enabled in the words it looks at now. */
  ghost predicate SawEnable(p: Pc, n: nat) {
    p.GetMask? && p.j == n / BITS && |p.e| == BITS && p.e[n % BITS]
  }

  ghost predicate ReadsEnable(s: State, c: nat, n: nat) {
    c < |s.pc| && n < |s.enable| && s.pc[c].GetEnable? && s.pc[c].j == n / BITS && s.enable[n]
  }

  /** At step k CPU c read interrupt n as enabled, and it has not taken another step since. */
  ghost predicate EnableSince(states: seq<State>, k: nat, i: nat, c: nat, n: nat) {
    && k < i < |states| && ReadsEnable(states[k], c, n)
    && forall j :: k < j <= i ==> c < |states[j].pc| && SawEnable(states[j].pc[c], n)
  }

  lemma SawEnableBefore(s: State, d: nat, ev: Event, c: nat, n: nat)
    requires Shape(s) && Enabled(s, d, ev) && c < |s.pc| && n < |s.pending|
    requires c < |Step(s, d, ev).pc| && SawEnable(Step(s, d, ev).pc[c], n)
    ensures SawEnable(s.pc[c], n) || (d == c && ReadsEnable(s, c, n))
  {
    hide And3;
    Known(s, d);
    if d == c && s.pc[c].GetEnable? {
      assert n == BITS * (n / BITS) + n % BITS;
    }
  }

  lemma {:induction false} EnableStarts(states: seq<State>, events: seq<(nat, Event)>, i: nat, c: nat, n: nat)
    requires IsRun(states, events) && i < |states|
    requires c < |states[i].pc| && n < |states[i].pending| && SawEnable(states[i].pc[c], n)
    ensures exists k: nat :: EnableSince(states, k, i, c, n)
  {
    hide Step, ReadsEnable;
    if i == 0 {
    } else {
      assert Leads(states[i-1], events[i-1], states[i]);
      ShapeKept(states[i-1], events[i-1].0, events[i-1].1);
      SawEnableBefore(states[i-1], events[i-1].0, events[i-1].1, c, n);
      if SawEnable(states[i-1].pc[c], n) {
        EnableStarts(states, events, i - 1, c, n);
        var k: nat :| EnableSince(states, k, i - 1, c, n);
        assert EnableSince(states, k, i, c, n);
      } else {
        assert EnableSince(states, i - 1, i, c, n);
      }
    }
  }

  /** The step that chooses an interrupt finds it in all three words. */
  lemma Chooses(s: State, c: nat, ev: Event, n: nat)
    requires Shape(s) && Enabled(s, c, ev) && c < |Step(s, c, ev).pc|
    requires Step(s, c, ev).pc[c] == ClearEnable(n)
    ensures n < |s.pending| && c < |s.mask| && n < |s.mask[c]| && s.mask[c][n]
    ensures SawPending(s.pc[c], n) && SawEnable(s.pc[c], n)
  {
    Known(s, c);
    InWord(s.pc[c].j, |s.pending|);
    assert n / BITS == s.pc[c].j;
  }

  /** In every run, a get goes for an interrupt only if the CPU's own mask lets it through at that
      step, and it was pending and then enabled when the get read the two words just before. */
  lemma TakesUnmasked(states: seq<State>, events: seq<(nat, Event)>, i: nat, n: nat)
    requires IsRun(states, events) && i < |events|
    requires events[i].0 < |states[i+1].pc| && states[i+1].pc[events[i].0] == ClearEnable(n)
    ensures var c := events[i].0;
            && c < |states[i].mask| && n < |states[i].mask[c]| && states[i].mask[c][n]
            && exists k: nat, m: nat :: k < m < i && ReadSince(states, k, i, c, n) && EnableSince(states, m, i, c, n)
  {
    hide Step, SawPending, ReadsPending, SawEnable, ReadsEnable;
    var c := events[i].0;
    assert Leads(states[i], events[i], states[i+1]);
    Chooses(states[i], c, events[i].1, n);
    ReadStarts(states, events, i, c, n);
    EnableStarts(states, events, i, c, n);
    var k: nat :| ReadSince(states, k, i, c, n);
    var m: nat :| EnableSince(states, m, i, c, n);
    ReadFirst(states, k, m, i, c, n);
  }

  lemma ReadFirst(states: seq<State>, k: nat, m: nat, i: nat, c: nat, n: nat)
    requires ReadSince(states, k, i, c, n) && EnableSince(states, m, i, c, n)
    ensures k < m
  {
  }

  // ---------------------------------------------------------------- what a get leaves

  /** The get has passed interrupt n by: it is at a later word, or read n as absent in this one. */
  ghost predicate Passed(p: Pc, n: nat) {
    match p
    case GetPending(j) => n / BITS < j
    case GetEnable(j, w) => n / BITS < j || (n / BITS == j && |w| == BITS && !w[n % BITS])
    case GetMask(j, w, e) =>
      n / BITS < j || (n / BITS == j && |w| == |e| == BITS && !(w[n % BITS] && e[n % BITS]))
    case ClearEnable(i) => n / BITS < i / BITS
    case ClearPending(i) => n / BITS < i / BITS
    case _ => false
  }

  /** CPU c reads interrupt n as not pending, not enabled, or masked. */
  ghost predicate ReadsAbsent(s: State, c: nat, n: nat) {
    && c < |s.pc| && c < |s.mask| && n < |s.pending| && n < |s.enable| && n < |s.mask[c]|
    && match s.pc[c]
       case GetPending(j) => j == n / BITS && !s.pending[n]
       case GetEnable(j, w) => j == n / BITS && !s.enable[n]
       case GetMask(j, w, e) => j == n / BITS && !s.mask[c][n]
       case _ => false
  }

  ghost predicate InGet(p: Pc) {
    p.GetPending? || p.GetEnable? || p.GetMask? || p.ClearEnable? || p.ClearPending?
  }

  /** CPU c begins a get at step k and is in it up to state i. */
  ghost predicate Getting(states: seq<State>, events: seq<(nat, Event)>, k: nat, i: nat, c: nat) {
    && |states| == |events| + 1 && k < i < |states| && events[k] == (c, Get)
    && c < |states[k].pc| && states[k].pc[c] == Out
    && forall j :: k < j <= i ==> c < |states[j].pc| && states[j].pc[c] != Out
  }

  lemma PassedBefore(s: State, d: nat, ev: Event, c: nat, n: nat)
    requires Shape(s) && Enabled(s, d, ev) && c < |s.pc| && n < |s.pending| && s.pc[c] != Out
    requires c < |Step(s, d, ev).pc| && Passed(Step(s, d, ev).pc[c], n)
    ensures Passed(s.pc[c], n) || (d == c && ReadsAbsent(s, c, n))
  {
    Known(s, d);
    if d == c && s.pc[c].GetMask? {
      WordBit(s, c, s.pc[c].j, n);
    } else if d == c && !s.pc[c].ClearEnable? && !s.pc[c].ClearPending? {
      assert n == BITS * (n / BITS) + n % BITS;
    }
  }

  /** A get at its third read of word j that does not choose interrupt n of that word has read it
      as absent, or goes for a bit of the word. */
  lemma WordBit(s: State, c: nat, j: nat, n: nat)
    requires Shape(s) && c < |s.pc| && s.pc[c].GetMask? && s.pc[c].j == j && n < |s.pending|
    ensures Enabled(s, c, Go) && c < |Step(s, c, Go).pc|
    ensures !Step(s, c, Go).pc[c].ClearEnable? && n / BITS == j ==> Passed(s.pc[c], n) || ReadsAbsent(s, c, n)
    ensures Step(s, c, Go).pc[c].ClearEnable? ==> Step(s, c, Go).pc[c].n / BITS == j
  {
    Known(s, c);
    var w := And3(s.pc[c].p, s.pc[c].e, Word(s.mask[c], j));
    assert n == BITS * (n / BITS) + n % BITS;
    if n / BITS == j { assert w[n % BITS] == (s.pc[c].p[n % BITS] && s.pc[c].e[n % BITS] && s.mask[c][n]); }
  }

  lemma {:induction false} PassedSeen(states: seq<State>, events: seq<(nat, Event)>, k: nat, i: nat, c: nat, n: nat)
    requires IsRun(states, events) && Getting(states, events, k, i, c) && n < |states[i].pending|
    requires Passed(states[i].pc[c], n)
    ensures exists m :: k < m < i && events[m].0 == c && ReadsAbsent(states[m], c, n)
  {
    hide Step, Passed, ReadsAbsent;
    assert Leads(states[i-1], events[i-1], states[i]);
    if i == k + 1 {
      GetBegins(states[k], c, n);
    } else {
      ShapeKept(states[i-1], events[i-1].0, events[i-1].1);
      PassedBefore(states[i-1], events[i-1].0, events[i-1].1, c, n);
      if Passed(states[i-1].pc[c], n) { PassedSeen(states, events, k, i - 1, c, n); }
    }
  }

  lemma GetBegins(s: State, c: nat, n: nat)
    requires Shape(s) && Enabled(s, c, Get) && s.pc[c] == Out
    ensures !Passed(Step(s, c, Get).pc[c], n)
  {
  }

  lemma GetEnds(s: State, d: nat, ev: Event, c: nat, n: nat)
    requires Shape(s) && Enabled(s, d, ev) && c < |s.pc| && n < |s.pending| && s.pc[c] != Out
    requires InGet(s.pc[c])
    requires c < |Step(s, d, ev).pc| && Step(s, d, ev).pc[c] == Out && Step(s, d, ev).gets == s.gets
    ensures d == c && (Passed(s.pc[c], n) || ReadsAbsent(s, c, n))
  {
    Known(s, d);
    Known(s, c);
    if s.pc[c].GetMask? {
      WordBit(s, c, s.pc[c].j, n);
      InWord(s.pc[c].j, |s.pending|);
    }
  }

  lemma {:induction false} StaysGet(states: seq<State>, events: seq<(nat, Event)>, k: nat, i: nat, c: nat)
    requires IsRun(states, events) && Getting(states, events, k, i, c)
    ensures InGet(states[i].pc[c])
  {
    hide And3, Word;
    assert Leads(states[i-1], events[i-1], states[i]);
    if i == k + 1 {
    } else {
      StaysGet(states, events, k, i - 1, c);
    }
  }

  /** In every run, a get that returns without an interrupt read each one, at some step of the call,
      as not pending, not enabled or masked. */
  lemma GetMisses(states: seq<State>, events: seq<(nat, Event)>, k: nat, i: nat, c: nat, n: nat)
    requires IsRun(states, events) && Getting(states, events, k, i, c) && i < |events| && n < |states[i].pending|
    requires c < |states[i+1].pc| && states[i+1].pc[c] == Out && states[i+1].gets == states[i].gets
    ensures exists m :: k < m <= i && events[m].0 == c && ReadsAbsent(states[m], c, n)
  {
    hide Step, Passed, ReadsAbsent;
    assert Leads(states[i], events[i], states[i+1]);
    StaysGet(states, events, k, i, c);
    GetEnds(states[i], events[i].0, events[i].1, c, n);
    if Passed(states[i].pc[c], n) { PassedSeen(states, events, k, i, c, n); }
  }

  // ---------------------------------------------------------------- one call alone

  /** CPU c takes k steps of its call with nobody in between, from s to s1. */
  ghost predicate Goes(s: State, c: nat, k: nat, s1: State)
    decreases k
  {
    if k == 0 then s1 == s else Shape(s) && Enabled(s, c, Go) && Goes(Step(s, c, Go), c, k - 1, s1)
  }

  lemma {:induction false} GoesOn(s: State, c: nat, k: nat, s1: State, m: nat, s2: State)
    requires Goes(s, c, k, s1) && Goes(s1, c, m, s2)
    ensures Goes(s, c, k + m, s2)
    decreases k
  {
    hide Step, Shape, Enabled;
    if k == 0 {
    } else {
      GoesOn(Step(s, c, Go), c, k - 1, s1, m, s2);
    }
  }

  ghost predicate Fires(s: State, c: nat, n: nat)
    requires Shape(s) && c < |s.pc|
  {
    n < |s.pending| && s.pending[n] && s.enable[n] && s.mask[c][n]
  }

  /** s after a get returned interrupt n. */
  ghost function Took(s: State, n: nat): State
    requires Shape(s) && n < |s.pending|
  {
    s.(pending := s.pending[n := false], enable := s.enable[n := false], gets := s.gets[n := s.gets[n] + 1])
  }

  ghost predicate Lowest(s: State, c: nat, n: nat)
    requires Shape(s) && c < |s.pc|
  {
    Fires(s, c, n) && forall i :: 0 <= i < n ==> !Fires(s, c, i)
  }

  /** The three reads of word j, one after the other. */
  lemma ReadsWord(s: State, c: nat, j: nat)
    requires Shape(s) && c < |s.pc| && s.pc[c] == GetPending(j)
    ensures BITS * j + BITS <= |s.pending|
    ensures var b := Bits.Ct0(And3(Word(s.pending, j), Word(s.enable, j), Word(s.mask[c], j)));
            Goes(s, c, 3, s.(pc := s.pc[c := if b < BITS then ClearEnable(BITS * j + b)
                                             else if BITS * (j + 1) < |s.pending| then GetPending(j + 1) else Out]))
  {
    hide And3, Word, Shape, Step, Goes, Enabled, PcOk;
    Known(s, c);
    FitsWord(s, c, j);
    var p, e := Word(s.pending, j), Word(s.enable, j);
    var a, b := s.(pc := s.pc[c := GetEnable(j, p)]), s.(pc := s.pc[c := GetMask(j, p, e)]);
    At(s, c, GetEnable(j, p));
    At(s, c, GetMask(j, p, e));
    ReadsPendingWord(s, c, j);
    ReadsEnableWord(a, c, j, p);
    assert a.pc[c := GetMask(j, p, e)] == b.pc;
    ReadsMaskWord(b, c, j, p, e);
    var d := Step(b, c, Go);
    assert d.pc == s.pc[c := d.pc[c]];
    OneGo(s, c);
    OneGo(a, c);
    OneGo(b, c);
    GoesOn(s, c, 1, a, 1, b);
    GoesOn(s, c, 2, b, 1, d);
  }

  lemma OneGo(s: State, c: nat)
    requires Shape(s) && Enabled(s, c, Go)
    ensures Goes(s, c, 1, Step(s, c, Go))
  {
    hide Step, Shape, Enabled;
    assert Goes(Step(s, c, Go), c, 0, Step(s, c, Go));
  }

  lemma FitsWord(s: State, c: nat, j: nat)
    requires Shape(s) && c < |s.pc| && s.pc[c] == GetPending(j)
    ensures BITS * j + BITS <= |s.pending|
    ensures forall p: seq<bool> :: |p| == BITS ==> PcOk(GetEnable(j, p), |s.pending|)
    ensures forall p: seq<bool>, e: seq<bool> :: |p| == |e| == BITS ==> PcOk(GetMask(j, p, e), |s.pending|)
  {
    Known(s, c);
    InWord(j, |s.pending|);
  }

  lemma At(s: State, c: nat, p: Pc)
    requires Shape(s) && c < |s.pc| && PcOk(p, |s.pending|)
    ensures Shape(s.(pc := s.pc[c := p]))
  {
    hide PcOk;
  }

  lemma ReadsPendingWord(s: State, c: nat, j: nat)
    requires Shape(s) && c < |s.pc| && s.pc[c] == GetPending(j) && BITS * j < |s.pending|
    ensures Enabled(s, c, Go) && Step(s, c, Go) == s.(pc := s.pc[c := GetEnable(j, Word(s.pending, j))])
  {
    hide Word;
  }

  lemma ReadsEnableWord(s: State, c: nat, j: nat, p: seq<bool>)
    requires Shape(s) && c < |s.pc| && s.pc[c] == GetEnable(j, p) && |s.enable| % BITS == 0 && BITS * j < |s.enable|
    ensures Enabled(s, c, Go) && Step(s, c, Go) == s.(pc := s.pc[c := GetMask(j, p, Word(s.enable, j))])
  {
    hide Word;
  }

  lemma ReadsMaskWord(s: State, c: nat, j: nat, p: seq<bool>, e: seq<bool>)
    requires Shape(s) && c < |s.pc| == |s.mask| && s.pc[c] == GetMask(j, p, e) && |p| == |e| == BITS
    requires |s.mask[c]| % BITS == 0 && BITS * j < |s.mask[c]|
    ensures Enabled(s, c, Go)
    ensures var b := Bits.Ct0(And3(p, e, Word(s.mask[c], j)));
            Step(s, c, Go) == s.(pc := s.pc[c := if b < BITS then ClearEnable(BITS * j + b)
                                                 else if BITS * (j + 1) < |s.pending| then GetPending(j + 1) else Out])
  {
    hide Word, And3;
  }

  /** The lowest bit of the three words is the lowest interrupt of the word that fires. */
  lemma LowestOfWord(s: State, c: nat, j: nat)
    requires Shape(s) && c < |s.pc| && BITS * j + BITS <= |s.pending|
    ensures var b := Bits.Ct0(And3(Word(s.pending, j), Word(s.enable, j), Word(s.mask[c], j)));
            && (b < BITS ==> Fires(s, c, BITS * j + b))
            && forall i :: BITS * j <= i < BITS * j + b ==> !Fires(s, c, i)
  {
    Known(s, c);
    var w := And3(Word(s.pending, j), Word(s.enable, j), Word(s.mask[c], j));
    forall i | BITS * j <= i < BITS * j + Bits.Ct0(w)
      ensures !Fires(s, c, i)
    {
      assert !w[i - BITS * j];
    }
  }

  /** The two clears of an interrupt that is still there. */
  lemma ClearsBoth(s: State, c: nat, n: nat)
    requires Shape(s) && c < |s.pc| && s.pc[c] == ClearEnable(n) && n < |s.pending| && s.enable[n] && s.pending[n]
    ensures Goes(s, c, 2, Took(s, n).(pc := s.pc[c := Out]))
  {
    ShapeKept(s, c, Go);
    var a := Step(s, c, Go);
    var b := Step(a, c, Go);
    assert Goes(b, c, 0, b);
    assert Goes(a, c, 1, b);
    assert b.pc == s.pc[c := Out];
  }

  lemma {:induction false} GetFrom(s: State, c: nat, j: nat) returns (k: nat, n: nat)
    requires Shape(s) && c < |s.pc| && s.pc[c] == GetPending(j)
    requires forall i :: 0 <= i < BITS * j ==> !Fires(s, c, i)
    ensures if n < |s.pending| then Lowest(s, c, n) && Goes(s, c, k, Took(s, n).(pc := s.pc[c := Out]))
            else (forall i :: 0 <= i < |s.pending| ==> !Fires(s, c, i)) && Goes(s, c, k, s.(pc := s.pc[c := Out]))
    decreases |s.pending| - BITS * j
  {
    hide And3, Word, Step;
    ReadsWord(s, c, j);
    LowestOfWord(s, c, j);
    var b := Bits.Ct0(And3(Word(s.pending, j), Word(s.enable, j), Word(s.mask[c], j)));
    if b < BITS {
      n := BITS * j + b;
      var s1 := s.(pc := s.pc[c := ClearEnable(n)]);
      ClearsBoth(s1, c, n);
      assert s1.pc[c := Out] == s.pc[c := Out];
      GoesOn(s, c, 3, s1, 2, Took(s, n).(pc := s.pc[c := Out]));
      k := 5;
    } else if BITS * (j + 1) < |s.pending| {
      var s1 := s.(pc := s.pc[c := GetPending(j + 1)]);
      forall i | 0 <= i < BITS * (j + 1)
        ensures !Fires(s1, c, i)
      {
        assert !Fires(s, c, i);
      }
      k, n := GetFrom(s1, c, j + 1);
      assert s1.pc[c := Out] == s.pc[c := Out];
      SameFires(s, s1, c);
      var s2 := if n < |s.pending| then Took(s1, n).(pc := s.pc[c := Out]) else s1.(pc := s.pc[c := Out]);
      GoesOn(s, c, 3, s1, k, s2);
      k := 3 + k;
    } else {
      k, n := 3, |s.pending|;
      WordsEnd(j, |s.pending|);
    }
  }

  lemma WordsEnd(j: nat, n: nat)
    requires n % BITS == 0 && BITS * j < n <= BITS * (j + 1)
    ensures n == BITS * j + BITS
  {
  }

  lemma SameFires(s: State, s1: State, c: nat)
    requires Shape(s) && Shape(s1) && c < |s.pc| && s1 == s.(pc := s1.pc) && |s1.pc| == |s.pc|
    ensures forall i :: 0 <= i < |s.pending| ==> (Fires(s1, c, i) <==> Fires(s, c, i))
    ensures forall n :: 0 <= n < |s.pending| ==> (Lowest(s1, c, n) <==> Lowest(s, c, n))
  {
  }

  /** A get with nobody in between returns the lowest interrupt that is pending, enabled and let
      through by the CPU's mask, and changes nothing else; it returns none iff there is none. */
  lemma GetAlone(s: State, c: nat)
    requires Shape(s) && c < |s.pc| && s.pc[c] == Out && |s.pending| > 0
    ensures Enabled(s, c, Get)
    ensures if exists n :: Fires(s, c, n) then
              exists k: nat, n: nat :: Lowest(s, c, n) && Goes(Step(s, c, Get), c, k, Took(s, n))
            else exists k: nat :: Goes(Step(s, c, Get), c, k, s)
  {
    hide Goes;
    var s1 := Step(s, c, Get);
    ShapeKept(s, c, Get);
    var k, n := GetFrom(s1, c, 0);
    assert s1.pc[c := Out] == s.pc;
    SameFires(s, s1, c);
    if n < |s.pending| {
      assert Fires(s, c, n);
      assert Goes(s1, c, k, Took(s, n));
    } else {
      assert Goes(s1, c, k, s);
    }
  }

  /** s after a call other than a get. */
  ghost function Done(s: State, ev: Event): State
    requires Shape(s) && !ev.Get? && !ev.Go? && ev.n < |s.pending| && (ev.Local? ==> ev.cpu < |s.mask|)
  {
    match ev
    case Post(n) =>
      if s.pending[n] then s else s.(pending := s.pending[n := true], posts := s.posts[n := s.posts[n] + 1])
    case Clear(n) =>
      if s.pending[n] then s.(pending := s.pending[n := false], clears := s.clears[n := s.clears[n] + 1]) else s
    case Enable(n) =>
      if s.enable[n] then s else s.(enable := s.enable[n := true], enables := s.enables[n := s.enables[n] + 1])
    case Disable(n) =>
      if s.enable[n] then s.(enable := s.enable[n := false], disables := s.disables[n := s.disables[n] + 1]) else s
    case Local(k, n, b) => s.(mask := s.mask[k := s.mask[k][n := b]])
  }

  /** Every other call with nobody in between sets or clears exactly its bit. */
  lemma CallAlone(s: State, c: nat, ev: Event)
    requires Shape(s) && c < |s.pc| && s.pc[c] == Out && Enabled(s, c, ev) && !ev.Get?
    ensures exists k: nat :: Goes(Step(s, c, ev), c, k, Done(s, ev))
  {
    var s1 := Step(s, c, ev);
    ShapeKept(s, c, ev);
    if s1.pc[c] == Out {
      assert Goes(s1, c, 0, Done(s, ev));
    } else {
      assert s1.pc[c := Out] == s.pc;
      assert Goes(Done(s, ev), c, 0, Done(s, ev));
      assert Goes(s1, c, 1, Done(s, ev));
    }
  }

  // ---------------------------------------------------------------- a run that loses an enable

  /** Two CPUs and one word of interrupts. */
  ghost function Idle(): State {
    var no, zero := seq(BITS, i => false), seq(BITS, i => 0);
    State(no, no, [no, no], [Out, Out], zero, zero, zero, zero, zero, zero)
  }

  /** Bit 0 and the counters of interrupt 0 in a state of this run. */
  ghost predicate Bit0(s: State, pending: bool, enable: bool, mask: bool, p: Pc, q: Pc, posts: nat, enables: nat,
                       clears: nat, lost: nat)
  {
    && Shape(s) && |s.pending| == BITS && s.pc == [p, q]
    && s.pending[0] == pending && s.enable[0] == enable && s.mask[0][0] == mask
    && s.posts[0] == posts && s.enables[0] == enables && s.clears[0] == clears && s.lost[0] == lost
    && s.gets[0] == 0 && s.disables[0] == 0
  }

  lemma Extend(states: seq<State>, events: seq<(nat, Event)>, c: nat, ev: Event)
    returns (states1: seq<State>, events1: seq<(nat, Event)>)
    requires IsRun(states, events) && Shape(states[|events|]) && Enabled(states[|events|], c, ev)
    ensures IsRun(states1, events1) && events1 == events + [(c, ev)]
    ensures states1[|events1|] == Step(states[|events|], c, ev)
  {
    hide Step, Shape, Enabled;
    states1, events1 := states + [Step(states[|events|], c, ev)], events + [(c, ev)];
  }

  /** CPU 1 posts and enables interrupt 0 and lets CPU 0 take it. */
  lemma Offered() returns (states: seq<State>, events: seq<(nat, Event)>)
    ensures IsRun(states, events) && Bit0(states[|events|], true, true, true, Out, Out, 1, 1, 0, 0)
  {
    states, events := [Idle()], [];
    states, events := Extend(states, events, 1, Post(0));
    states, events := Extend(states, events, 1, Go);
    assert Bit0(states[|events|], true, false, false, Out, Out, 1, 0, 0, 0);
    states, events := Extend(states, events, 1, Enable(0));
    states, events := Extend(states, events, 1, Go);
    assert Bit0(states[|events|], true, true, false, Out, Out, 1, 1, 0, 0);
    states, events := Extend(states, events, 1, Local(0, 0, true));
  }

  /** CPU 0 gets as far as the clear of enable. */
  lemma HalfTaken() returns (states: seq<State>, events: seq<(nat, Event)>)
    ensures IsRun(states, events) && Bit0(states[|events|], true, false, true, ClearPending(0), Out, 1, 1, 0, 0)
  {
    states, events := Offered();
    states, events := Extend(states, events, 0, Get);
    states, events := Extend(states, events, 0, Go);
    states, events := Extend(states, events, 0, Go);
    states, events := Extend(states, events, 0, Go);
    assert Bit0(states[|events|], true, true, true, ClearEnable(0), Out, 1, 1, 0, 0);
    states, events := Extend(states, events, 0, Go);
  }

  /** CPU 1 clears the interrupt and CPU 0 goes on: the one enable is used up, although nobody
      took interrupt 0 and nobody disabled it. */
  lemma EnableLost()
    ensures exists states, events :: IsRun(states, events) && Spent(states[|events|])
  {
    var states, events := HalfTaken();
    states, events := Extend(states, events, 1, Clear(0));
    states, events := Extend(states, events, 0, Go);
    assert Spent(states[|events|]);
  }

  ghost predicate Spent(s: State) {
    && Shape(s) && |s.pending| > 0 && s.enables[0] == s.lost[0] == 1
    && !s.enable[0] && s.gets[0] == s.disables[0] == 0
  }
}
