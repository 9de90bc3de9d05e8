/** Coprocessor access: a counting semaphore admits as many threads as there are contexts, and
    a bitmap changed by compare-and-swap gives each a different one. */
module LxAccess {
  import Bits
  import C = Coproc

  const BITS: nat := C.BITS

  /** Where a thread stands.  acquire passes the semaphore, reads the bitmap, swaps in its
      lowest clear bit, and selects that context; release clears the bit and raises the
      semaphore. */
  datatype Pc =
    | Out
    | Admitted
    | Read(seen: seq<bool>)
    | Won(idx: nat)
    | Has(idx: nat, unit: nat, bit: nat)
    | Cleared

  /** The units and the mask of those to use are fixed; failed says that some acquire found no
      context for its index. */
  datatype State = State(units: seq<seq<bool>>, mask: seq<bool>, sem: nat, active: seq<bool>, pc: seq<Pc>, failed: bool)

  /** Selecting a context succeeds with the one that has the index as its ordinal, if any. */
  datatype Event = Acquire | Release | Go | Select(unit: nat, bit: nat) | NoContext

  /** The number of contexts. */
  ghost function Contexts(s: State): nat {
    if |s.units| <= |s.mask| then C.Total(s.units, s.mask) else 0
  }

  ghost predicate Enabled(s: State, t: nat, ev: Event) {
    && t < |s.pc|
    && match s.pc[t]
       case Out => ev == Acquire && s.sem > 0
       case Has(_, _, _) => ev == Release
       case Won(idx) =>
         && |s.units| <= |s.mask|
         && (match ev
             case Select(u, b) => C.Exists(s.units, s.mask, u, b) && C.Ordinal(s.units, s.mask, u, b) == idx
             case NoContext => idx >= C.Total(s.units, s.mask)
             case _ => false)
       case _ => ev == Go
  }

  ghost function Step(s: State, t: nat, ev: Event): State
    requires Enabled(s, t, ev)
  {
    match s.pc[t]
    case Out => s.(sem := s.sem - 1, pc := s.pc[t := Admitted])
    case Admitted => s.(pc := s.pc[t := Read(s.active)])
    case Read(seen) =>
      var idx := Bits.Ct1(seen);
      if s.active != seen then s.(pc := s.pc[t := Admitted])
      else if idx >= |s.active| then s.(failed := true)
      else s.(active := s.active[idx := true], pc := s.pc[t := Won(idx)])
    case Won(idx) => if ev.Select? then s.(pc := s.pc[t := Has(idx, ev.unit, ev.bit)]) else s.(failed := true)
    case Has(idx, _, _) => s.(active := if idx < |s.active| then s.active[idx := false] else s.active,
                              pc := s.pc[t := Cleared])
    case Cleared => s.(sem := s.sem + 1, pc := s.pc[t := Out])
  }

  // ---------------------------------------------------------------- the invariant

  ghost predicate Owns(p: Pc, i: nat) {
    p == Won(i) || (p.Has? && p.idx == i)
  }

  ghost function Token(p: Pc): nat { if p == Out then 0 else 1 }

  ghost function Bit(p: Pc): nat { if p.Won? || p.Has? then 1 else 0 }

  ghost function Tokens(pc: seq<Pc>): nat {
    if pc == [] then 0 else Token(pc[0]) + Tokens(pc[1..])
  }

  ghost function Owners(pc: seq<Pc>): nat {
    if pc == [] then 0 else Bit(pc[0]) + Owners(pc[1..])
  }

  lemma {:induction false} Update(pc: seq<Pc>, t: nat, p: Pc)
    requires t < |pc|
    ensures Tokens(pc[t := p]) == Tokens(pc) - Token(pc[t]) + Token(p)
    ensures Owners(pc[t := p]) == Owners(pc) - Bit(pc[t]) + Bit(p)
    ensures Owners(pc) + Token(pc[t]) <= Tokens(pc) + Bit(pc[t])
  {
    if t > 0 {
      Update(pc[1..], t - 1, p);
      assert pc[t := p][1..] == pc[1..][t - 1 := p];
    } else {
      assert pc[t := p][1..] == pc[1..];
      OwnersHaveTokens(pc[1..]);
    }
  }

  lemma {:induction false} OwnersHaveTokens(pc: seq<Pc>)
    ensures Owners(pc) <= Tokens(pc)
  {
    if pc == [] {
    } else {
      OwnersHaveTokens(pc[1..]);
    }
  }

  lemma {:induction false} SetCount(bits: seq<bool>, i: nat, v: bool, b: nat)
    requires i < |bits| && b <= |bits|
    ensures C.CountBelow(bits[i := v], b) ==
              C.CountBelow(bits, b) + (if i < b && v && !bits[i] then 1 else if i < b && !v && bits[i] then -1 else 0)
  {
    if b == 0 {
    } else {
      SetCount(bits, i, v, b - 1);
    }
  }

  lemma {:induction false} AllBelow(bits: seq<bool>, b: nat)
    requires b <= |bits| && forall i :: 0 <= i < b ==> bits[i]
    ensures C.CountBelow(bits, b) == b
  {
    if b == 0 {
    } else {
      AllBelow(bits, b - 1);
    }
  }

  /** What t owns is marked, and nobody else owns it. */
  ghost predicate OwnOk(s: State, t: nat, i: nat)
    requires t < |s.pc|
  {
    && (Owns(s.pc[t], i) ==> i < Contexts(s) && i < |s.active| && s.active[i])
    && (s.pc[t].Has? ==>
          && |s.units| <= |s.mask| && C.Exists(s.units, s.mask, s.pc[t].unit, s.pc[t].bit)
          && C.Ordinal(s.units, s.mask, s.pc[t].unit, s.pc[t].bit) == s.pc[t].idx)
  }

  ghost predicate Inv(s: State) {
    && Contexts(s) <= |s.active| == BITS && |s.units| <= |s.mask| && !s.failed
    && s.sem + Tokens(s.pc) == Contexts(s)
    && C.Pop(s.active) == Owners(s.pc)
    && (forall t, i :: 0 <= t < |s.pc| && 0 <= i ==> OwnOk(s, t, i))
    && (forall t, u, i :: 0 <= t < u < |s.pc| && 0 <= i ==> !(Owns(s.pc[t], i) && Owns(s.pc[u], i)))
  }

  /** The lowest clear bit a thread finds is that of an existing context. */
  lemma LowestExists(s: State, t: nat)
    requires Inv(s) && t < |s.pc| && s.pc[t].Read? && s.pc[t].seen == s.active
    ensures Bits.Ct1(s.active) < Contexts(s) && !s.active[Bits.Ct1(s.active)]
  {
    hide Tokens, Owners, C.CountBelow, Bits.Ct1;
    var idx := Bits.Ct1(s.active);
    AllBelow(s.active, idx);
    C.CountGrows(s.active, idx, |s.active|);
    Update(s.pc, t, Out);
  }

  lemma Counts(s: State, t: nat, ev: Event)
    requires Inv(s) && Enabled(s, t, ev)
    ensures var s' := Step(s, t, ev);
            s'.sem + Tokens(s'.pc) == Contexts(s') && C.Pop(s'.active) == Owners(s'.pc) && !s'.failed &&
            |s'.active| == |s.active|
  {
    hide Tokens, Owners, C.CountBelow, Bits.Ct1;
    var s' := Step(s, t, ev);
    Update(s.pc, t, s'.pc[t]);
    match s.pc[t]
    case Read(seen) =>
      if seen == s.active {
        LowestExists(s, t);
        SetCount(s.active, Bits.Ct1(seen), true, |s.active|);
      }
    case Won(idx) => assert OwnOk(s, t, idx);
    case Has(idx, _, _) =>
      assert OwnOk(s, t, idx);
      SetCount(s.active, idx, false, |s.active|);
    case _ =>
  }

  lemma OwnersKept(s: State, t: nat, ev: Event, u: nat, i: nat)
    requires Inv(s) && Enabled(s, t, ev) && u < |s.pc|
    ensures OwnOk(Step(s, t, ev), u, i)
    ensures Owns(Step(s, t, ev).pc[u], i) ==> Owns(s.pc[u], i) || (u == t && i < |s.active| && !s.active[i])
  {
    hide Tokens, Owners, C.CountBelow, Bits.Ct1;
    assert OwnOk(s, u, i);
    if s.pc[t].Read? && s.pc[t].seen == s.active { LowestExists(s, t); }
  }

  /** Every step keeps the protocol. */
  lemma StepKeeps(s: State, t: nat, ev: Event)
    requires Inv(s) && Enabled(s, t, ev)
    ensures Inv(Step(s, t, ev))
  {
    hide Tokens, Owners, C.CountBelow, Bits.Ct1;
    var s' := Step(s, t, ev);
    Counts(s, t, ev);
    assert Contexts(s') == Contexts(s) && |s'.pc| == |s.pc|;
    forall u, i | 0 <= u < |s'.pc| && 0 <= i ensures OwnOk(s', u, i) { OwnersKept(s, t, ev, u, i); }
    forall u, v, i | 0 <= u < v < |s'.pc| && 0 <= i
      ensures !(Owns(s'.pc[u], i) && Owns(s'.pc[v], i))
    {
      OwnersKept(s, t, ev, u, i);
      OwnersKept(s, t, ev, v, i);
      assert OwnOk(s, u, i) && OwnOk(s, v, i);
    }
  }

  // ---------------------------------------------------------------- runs

  ghost predicate Leads(s: State, e: (nat, Event), s1: State) {
    Enabled(s, e.0, e.1) && s1 == Step(s, e.0, e.1)
  }

  /** A run from initialisation with the count of the selected units, at most 32. */
  ghost predicate IsRun(states: seq<State>, events: seq<(nat, Event)>) {
    && |states| == |events| + 1
    && (var s := states[0];
        Contexts(s) <= |s.active| == BITS && |s.units| <= |s.mask| && s.sem == Contexts(s) && !s.failed
        && (forall i :: 0 <= i < BITS ==> !s.active[i])
        && forall t :: 0 <= t < |s.pc| ==> s.pc[t] == Out)
    && forall i :: 0 <= i < |events| ==> Leads(states[i], events[i], states[i+1])
  }

  lemma {:induction false} Nobody(pc: seq<Pc>)
    requires forall t :: 0 <= t < |pc| ==> pc[t] == Out
    ensures Tokens(pc) == Owners(pc) == 0
  {
    if pc == [] {
    } else {
      Nobody(pc[1..]);
    }
  }

  lemma {:induction false} NoBits(bits: seq<bool>, b: nat)
    requires b <= |bits| && forall i :: 0 <= i < |bits| ==> !bits[i]
    ensures C.CountBelow(bits, b) == 0
  {
    if b == 0 {
    } else {
      NoBits(bits, b - 1);
    }
  }

  lemma {:induction false} RunKeeps(states: seq<State>, events: seq<(nat, Event)>, i: nat)
    requires IsRun(states, events) && i < |states|
    ensures Inv(states[i])
  {
    hide Step;
    if i == 0 {
      Nobody(states[0].pc);
      NoBits(states[0].active, BITS);
    } else {
      RunKeeps(states, events, i - 1);
      assert Leads(states[i-1], events[i-1], states[i]);
      StepKeeps(states[i-1], events[i-1].0, events[i-1].1);
    }
  }

  /** In every state of every run no acquire has failed, and two holders have different
      contexts, both of which exist. */
  lemma HoldersDiffer(states: seq<State>, events: seq<(nat, Event)>, i: nat, t: nat, u: nat)
    requires IsRun(states, events) && i < |states| && t < |states[i].pc| && u < |states[i].pc| && t != u
    requires states[i].pc[t].Has? && states[i].pc[u].Has?
    ensures var s := states[i];
            && !s.failed && |s.units| <= |s.mask|
            && C.Exists(s.units, s.mask, s.pc[t].unit, s.pc[t].bit)
            && C.Exists(s.units, s.mask, s.pc[u].unit, s.pc[u].bit)
            && (s.pc[t].unit, s.pc[t].bit) != (s.pc[u].unit, s.pc[u].bit)
  {
    hide Step, Tokens, Owners, C.CountBelow, C.Before;
    RunKeeps(states, events, i);
    var s := states[i];
    assert OwnOk(s, t, s.pc[t].idx) && OwnOk(s, u, s.pc[u].idx);
    assert Owns(s.pc[t], s.pc[t].idx) && Owns(s.pc[u], s.pc[u].idx);
  }

  /** A thread that won an index can always select its context. */
  lemma NeverStuck(states: seq<State>, events: seq<(nat, Event)>, i: nat, t: nat) returns (u: nat, b: nat)
    requires IsRun(states, events) && i < |states| && t < |states[i].pc| && states[i].pc[t].Won?
    ensures Enabled(states[i], t, Select(u, b)) && !Enabled(states[i], t, NoContext)
  {
    hide Step, Tokens, Owners, C.CountBelow;
    RunKeeps(states, events, i);
    var s := states[i];
    assert OwnOk(s, t, s.pc[t].idx);
    u, b := C.OrdinalExists(s.units, s.mask, s.pc[t].idx, |s.units|);
  }

  // ---------------------------------------------------------------- one call alone

  /** i is the lowest clear bit. */
  ghost predicate IsLowest(active: seq<bool>, i: nat) {
    i < |active| && !active[i] && forall j :: 0 <= j < i ==> active[j]
  }

  /** A swap that nobody came before takes the lowest clear bit; one that somebody did starts over
      with a new read. */
  lemma SwapsLowest(s: State, t: nat)
    requires Inv(s) && t < |s.pc| && s.pc[t].Read?
    ensures Enabled(s, t, Go)
    ensures if s.pc[t].seen == s.active then
              exists i: nat :: IsLowest(s.active, i) &&
                          Step(s, t, Go) == s.(active := s.active[i := true], pc := s.pc[t := Won(i)])
            else Step(s, t, Go) == s.(pc := s.pc[t := Admitted])
  {
    hide Tokens, Owners, C.CountBelow, Bits.Ct1;
    if s.pc[t].seen == s.active {
      LowestExists(s, t);
      assert IsLowest(s.active, Bits.Ct1(s.active));
    }
  }

  /** An acquire with nobody in between gets the context whose ordinal is the lowest index nobody
      has. */
  lemma AcquireAlone(s: State, t: nat) returns (i: nat, u: nat, b: nat)
    requires Inv(s) && t < |s.pc| && s.pc[t] == Out && s.sem > 0
    ensures IsLowest(s.active, i) && |s.units| <= |s.mask|
    ensures C.Exists(s.units, s.mask, u, b) && C.Ordinal(s.units, s.mask, u, b) == i
    ensures Enabled(s, t, Acquire) && Enabled(Step(s, t, Acquire), t, Go)
    ensures var s2 := Step(Step(s, t, Acquire), t, Go);
            && Enabled(s2, t, Go) && Enabled(Step(s2, t, Go), t, Select(u, b))
            && Step(Step(s2, t, Go), t, Select(u, b)) ==
                 s.(sem := s.sem - 1, active := s.active[i := true], pc := s.pc[t := Has(i, u, b)])
  {
    hide Tokens, Owners, C.CountBelow, Bits.Ct1, C.Before;
    var s1 := Step(s, t, Acquire);
    StepKeeps(s, t, Acquire);
    var s2 := Step(s1, t, Go);
    StepKeeps(s1, t, Go);
    LowestExists(s2, t);
    i := Bits.Ct1(s.active);
    u, b := C.OrdinalExists(s.units, s.mask, i, |s.units|);
    var s3 := Step(s2, t, Go);
    assert Step(s3, t, Select(u, b)).pc == s.pc[t := Has(i, u, b)];
  }

  /** A release with nobody in between gives back exactly that context. */
  lemma ReleaseAlone(s: State, t: nat)
    requires Inv(s) && t < |s.pc| && s.pc[t].Has?
    ensures s.pc[t].idx < |s.active| && Enabled(s, t, Release) && Enabled(Step(s, t, Release), t, Go)
    ensures Step(Step(s, t, Release), t, Go) ==
              s.(sem := s.sem + 1, active := s.active[s.pc[t].idx := false], pc := s.pc[t := Out])
  {
    hide Tokens, Owners, C.CountBelow, Bits.Ct1;
    assert OwnOk(s, t, s.pc[t].idx);
    assert Step(Step(s, t, Release), t, Go).pc == s.pc[t := Out];
  }

  /** An acquire waits only while as many threads are in calls or hold contexts as there are
      contexts. */
  lemma WaitsIffFull(s: State, t: nat)
    requires Inv(s) && t < |s.pc| && s.pc[t] == Out
    ensures |s.units| <= |s.mask|
    ensures Enabled(s, t, Acquire) <==> Tokens(s.pc) < C.Total(s.units, s.mask)
  {
    hide Tokens, Owners, C.CountBelow;
  }
}
