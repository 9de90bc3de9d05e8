/** Cluster scheduling: each cluster of hardware threads counts the coprocessor slots in use
    on it, and picking a ready thread keeps that count within a maximum where it can, by
    taking the thread, by handing it to another cluster, or by exceeding the maximum. */
module Cluster {
  import opened Lists

  const WORD: nat := 0x1_0000_0000

  /** The enable bits of a thread: xe and xe3 share one slot, xe2 is another. */
  datatype Copro = Copro(xe: bool, xe2: bool, xe3: bool)

  const NONE: Copro := Copro(false, false, false)
  const ONE: Copro := Copro(true, false, false)
  const BOTH: Copro := Copro(true, true, false)

  function Occ(b: Copro): (n: nat)
    ensures n <= 2
  {
    (if b.xe || b.xe3 then 1 else 0) + (if b.xe2 then 1 else 0)
  }

  /** H2K_hthread_cluster, tabulated: hardware thread h belongs to cluster h / per. */
  ghost predicate Tabulates(cl: seq<nat>, per: nat, clusters: nat) {
    per > 0 && forall h :: 0 <= h < |cl| ==> cl[h] == h / per && cl[h] < clusters
  }

  /** The slots in use on the hardware threads of cluster c among the first n. */
  ghost function Load(regs: seq<Copro>, cl: seq<nat>, c: nat, n: nat): nat
    requires n <= |regs| == |cl|
  {
    if n == 0 then 0 else Load(regs, cl, c, n - 1) + if cl[n - 1] == c then Occ(regs[n - 1]) else 0
  }

  lemma {:induction false} LoadUpdate(regs: seq<Copro>, cl: seq<nat>, c: nat, n: nat, h: nat, b: Copro)
    requires n <= |regs| == |cl| && h < |regs|
    ensures Load(regs[h := b], cl, c, n) ==
              Load(regs, cl, c, n) + if h < n && cl[h] == c then Occ(b) - Occ(regs[h]) else 0
    ensures h < n && cl[h] == c ==> Load(regs, cl, c, n) >= Occ(regs[h])
    ensures Load(regs, cl, c, n) <= 2 * n
  {
    if n == 0 {
    } else {
      LoadUpdate(regs, cl, c, n - 1, h, b);
    }
  }

  /** The hardware threads of cluster c among the first n that have xe or xe3, and that have xe2. */
  ghost function WithXe(regs: seq<Copro>, cl: seq<nat>, c: nat, n: nat): set<nat>
    requires n <= |regs| == |cl|
  {
    set h: nat | h < n && cl[h] == c && (regs[h].xe || regs[h].xe3)
  }

  ghost function WithXe2(regs: seq<Copro>, cl: seq<nat>, c: nat, n: nat): set<nat>
    requires n <= |regs| == |cl|
  {
    set h: nat | h < n && cl[h] == c && regs[h].xe2
  }

  lemma OneMore(regs: seq<Copro>, cl: seq<nat>, c: nat, n: nat)
    requires n < |regs| == |cl|
    ensures |WithXe(regs, cl, c, n + 1)| ==
              |WithXe(regs, cl, c, n)| + if cl[n] == c && (regs[n].xe || regs[n].xe3) then 1 else 0
  {
    hide Occ;
    Grown(WithXe(regs, cl, c, n), WithXe(regs, cl, c, n + 1), n);
  }

  lemma OneMore2(regs: seq<Copro>, cl: seq<nat>, c: nat, n: nat)
    requires n < |regs| == |cl|
    ensures |WithXe2(regs, cl, c, n + 1)| == |WithXe2(regs, cl, c, n)| + if cl[n] == c && regs[n].xe2 then 1 else 0
  {
    hide Occ;
    Grown(WithXe2(regs, cl, c, n), WithXe2(regs, cl, c, n + 1), n);
  }

  lemma Grown(s: set<nat>, s1: set<nat>, n: nat)
    requires n !in s && forall h: nat :: h != n ==> (h in s1 <==> h in s)
    ensures |s1| == |s| + if n in s1 then 1 else 0
  {
    assert s1 == if n in s1 then s + {n} else s;
  }

  /** A cluster's load is the number of its hardware threads with xe or xe3 and of those with xe2. */
  lemma {:induction false} LoadCounts(regs: seq<Copro>, cl: seq<nat>, c: nat, n: nat)
    requires n <= |regs| == |cl|
    ensures Load(regs, cl, c, n) == |WithXe(regs, cl, c, n)| + |WithXe2(regs, cl, c, n)|
  {
    if n == 0 {
      assert WithXe(regs, cl, c, 0) == {} && WithXe2(regs, cl, c, 0) == {};
    } else {
      hide WithXe, WithXe2;
      LoadCounts(regs, cl, c, n - 1);
      OneMore(regs, cl, c, n - 1);
      OneMore2(regs, cl, c, n - 1);
    }
  }

  /** Each cluster's count is the sum over its hardware threads. */
  ghost predicate Conserved(count: seq<nat>, regs: seq<Copro>, cl: seq<nat>)
    requires |regs| == |cl|
  {
    forall c :: 0 <= c < |count| ==> count[c] == Load(regs, cl, c, |regs|)
  }

  /** xex: the 32-bit count of a cluster after one of its hardware threads goes from cur to next. */
  function Xex(count: seq<nat>, cluster: nat, next: Copro, cur: Copro): seq<nat>
    requires cluster < |count|
  {
    count[cluster := (count[cluster] + (Occ(next) - Occ(cur))) % WORD]
  }

  /** Only cluster c's count moved, by what a hardware thread of it gained or lost. */
  ghost predicate Adjusted(count: seq<nat>, count1: seq<nat>, c: nat, next: Copro, cur: Copro) {
    && |count1| == |count|
    && forall i :: 0 <= i < |count| ==> count1[i] == count[i] + if i == c then Occ(next) - Occ(cur) else 0
  }

  /** Picking a thread with bits b on hardware thread h exceeds the maximum. */
  ghost predicate Exceeds(count: seq<nat>, regs: seq<Copro>, cl: seq<nat>, h: nat, b: Copro, max: nat)
    requires h < |regs| == |cl| && cl[h] < |count|
  {
    count[cl[h]] + Occ(b) - Occ(regs[h]) > max
  }

  lemma XexConserves(count: seq<nat>, regs: seq<Copro>, cl: seq<nat>, h: nat, b: Copro)
    requires h < |regs| == |cl| <= 32 && cl[h] < |count| && Conserved(count, regs, cl)
    ensures Conserved(Xex(count, cl[h], b, regs[h]), regs[h := b], cl)
    ensures Adjusted(count, Xex(count, cl[h], b, regs[h]), cl[h], b, regs[h])
  {
    hide Load;
    LoadUpdate(regs, cl, cl[h], |regs|, h, b);
    forall c | 0 <= c < |count|
      ensures Xex(count, cl[h], b, regs[h])[c] == Load(regs[h := b], cl, c, |regs|)
    {
      LoadUpdate(regs, cl, c, |regs|, h, b);
      assert |regs[h := b]| == |regs|;
      if c == cl[h] {
        LoadUpdate(regs[h := b], cl, c, |regs|, h, b);
      }
    }
  }

  /** The test that a pick stays within the limit, in 32-bit arithmetic. */
  predicate WithinLimit(count: nat, need: nat, have: nat, max: nat) {
    (count + (need - have) % WORD) % WORD <= max
  }

  /** It is the integer test, because the count includes what the hardware thread has. */
  lemma WithinLimitIs(count: seq<nat>, regs: seq<Copro>, cl: seq<nat>, h: nat, b: Copro, max: nat)
    requires h < |regs| == |cl| <= 32 && cl[h] < |count| && Conserved(count, regs, cl)
    ensures count[cl[h]] >= Occ(regs[h]) && count[cl[h]] <= 64
    ensures WithinLimit(count[cl[h]], Occ(b), Occ(regs[h]), max) <==> !Exceeds(count, regs, cl, h, b, max)
  {
    hide Load;
    LoadUpdate(regs, cl, cl[h], |regs|, h, b);
  }

  // ---------------------------------------------------------------- handing over

  /** The walk ends in a hand-over at position i of the ring: the head is tried as it is, a
      later thread with the other cluster's count added twice. */
  ghost predicate HandsOver(ring: seq<Tid>, tasks: seq<Copro>, low: nat, max: nat, i: nat)
    requires i < |ring|
  {
    ring[i] < |tasks| && Occ(tasks[ring[i]]) + (if i == 0 then low else 2 * low) <= max
  }

  /** The thread at position i fits on a cluster with load low. */
  ghost predicate Fits(ring: seq<Tid>, tasks: seq<Copro>, low: nat, max: nat, i: nat)
    requires i < |ring|
  {
    ring[i] < |tasks| && Occ(tasks[ring[i]]) + low <= max
  }

  /** The least need of the first n threads of a ring, the head apart. */
  ghost function Least(ring: seq<Tid>, tasks: seq<Copro>, n: nat): (m: nat)
    requires 1 < n <= |ring| && forall i :: 0 <= i < |ring| ==> ring[i] < |tasks|
    ensures forall i :: 0 < i < n ==> m <= Occ(tasks[ring[i]])
    ensures exists i :: 0 < i < n && Occ(tasks[ring[i]]) == m
  {
    var last := Occ(tasks[ring[n - 1]]);
    if n == 2 then last
    else
      var m := Least(ring, tasks, n - 1);
      if last < m then last else m
  }

  /** What a caller can read beforehand: the head does not fit, and the least of the others fits
      once but not with the load added twice. */
  ghost predicate Misses(ring: seq<Tid>, tasks: seq<Copro>, low: nat, max: nat)
    requires forall i :: 0 <= i < |ring| ==> ring[i] < |tasks|
  {
    && |ring| > 1 && Occ(tasks[ring[0]]) + low > max
    && Least(ring, tasks, |ring|) + low <= max < Least(ring, tasks, |ring|) + 2 * low
  }

  /** The walk is meant to find a thread that fits on the other cluster.  Some thread of the
      ring fits and none is handed over exactly when the walk misses. */
  lemma WalkMissesIff(ring: seq<Tid>, tasks: seq<Copro>, low: nat, max: nat)
    requires ring != [] && forall i :: 0 <= i < |ring| ==> ring[i] < |tasks|
    ensures Misses(ring, tasks, low, max) <==>
            && (exists i :: 0 <= i < |ring| && Fits(ring, tasks, low, max, i))
            && forall i :: 0 <= i < |ring| ==> !HandsOver(ring, tasks, low, max, i)
  {
    hide Occ;
    assert Fits(ring, tasks, low, max, 0) <==> HandsOver(ring, tasks, low, max, 0);
    if |ring| > 1 {
      var m := Least(ring, tasks, |ring|);
      var k :| 0 < k < |ring| && Occ(tasks[ring[k]]) == m;
      assert Fits(ring, tasks, low, max, k) <==> m + low <= max;
      assert HandsOver(ring, tasks, low, max, k) <==> m + 2 * low <= max;
    }
  }

  /** The do-while walk of H2K_ready_head over the ring, against the load low of the other
      cluster. */
  method Walk(ring: seq<Tid>, tasks: seq<Copro>, low: nat, max: nat) returns (over: bool)
    requires ring != [] && low <= 64 && max < WORD && forall i :: 0 <= i < |ring| ==> ring[i] < |tasks|
    ensures over <==> exists i :: 0 <= i < |ring| && HandsOver(ring, tasks, low, max, i)
    ensures !over && (exists i :: 0 <= i < |ring| && Fits(ring, tasks, low, max, i)) <==> Misses(ring, tasks, low, max)
  {
    hide Misses;
    WalkMissesIff(ring, tasks, low, max);
    var i, need := 0, Occ(tasks[ring[0]]);
    while i < |ring|
      invariant i <= |ring|
      invariant i < |ring| ==> need == Occ(tasks[ring[i]]) + if i == 0 then 0 else low
      invariant forall j :: 0 <= j < i ==> !HandsOver(ring, tasks, low, max, j)
      decreases |ring| - i
    {
      if (low + need) % WORD <= max {
        assert HandsOver(ring, tasks, low, max, i);
        return true;
      }
      i := i + 1;
      while i < |ring| && Occ(tasks[ring[i]]) + low > max
        invariant i <= |ring|
        invariant forall j :: 0 <= j < i ==> !HandsOver(ring, tasks, low, max, j)
      {
        i := i + 1;
      }
      if i < |ring| { need := Occ(tasks[ring[i]]) + low; }
    }
    over := false;
  }

  /** The slots needed by the threads that run on cluster c among the first n. */
  ghost function RunLoad(run: seq<int>, tasks: seq<Copro>, cl: seq<nat>, c: nat, n: nat): nat
    requires n <= |run| == |cl| && forall h :: 0 <= h < |run| && run[h] != NULL ==> 0 <= run[h] < |tasks|
  {
    if n == 0 then 0
    else RunLoad(run, tasks, cl, c, n - 1) + if cl[n - 1] == c && run[n - 1] != NULL then Occ(tasks[run[n - 1]]) else 0
  }

  /** Hardware threads that run nothing add nothing: the load is that of the running threads. */
  lemma {:induction false} LoadIsRunning(regs: seq<Copro>, run: seq<int>, tasks: seq<Copro>, cl: seq<nat>, c: nat,
                                         n: nat)
    requires n <= |run| == |cl| == |regs|
    requires forall h :: 0 <= h < |run| ==>
               if run[h] == NULL then regs[h] == NONE else 0 <= run[h] < |tasks| && regs[h] == tasks[run[h]]
    ensures Load(regs, cl, c, n) == RunLoad(run, tasks, cl, c, n)
  {
    if n == 0 {
    } else {
      LoadIsRunning(regs, run, tasks, cl, c, n - 1);
    }
  }

  // ---------------------------------------------------------------- the scheduler's use of it

  /** What each hardware thread runs is in its registers, nothing runs twice, and a sleeping
      hardware thread has nothing enabled. */
  ghost predicate Runs(regs: seq<Copro>, tasks: seq<Copro>, run: seq<int>, waiting: seq<bool>, cl: seq<nat>) {
    && |regs| == |cl| == |run| == |waiting|
    && (forall h :: 0 <= h < |run| && run[h] != NULL ==> 0 <= run[h] < |tasks| && regs[h] == tasks[run[h]])
    && (forall g, h :: 0 <= g < h < |run| && run[g] != NULL ==> run[g] != run[h])
    && (forall h :: 0 <= h < |run| && waiting[h] ==> run[h] == NULL && regs[h] == NONE)
  }

  /** A switch of hardware thread h to thread t, or to sleep. */
  lemma Switched(regs: seq<Copro>, tasks: seq<Copro>, run: seq<int>, waiting: seq<bool>, cl: seq<nat>, h: nat, t: int)
    requires Runs(regs, tasks, run, waiting, cl) && h < |run| && run[h] == NULL
    requires t != NULL ==> 0 <= t < |tasks| && t !in run
    ensures Runs(regs[h := if t == NULL then NONE else tasks[t]], tasks, run[h := t], waiting[h := t == NULL], cl)
  {
    hide Occ;
  }

  lemma Asleep(regs: seq<Copro>, tasks: seq<Copro>, run: seq<int>, waiting: seq<bool>, cl: seq<nat>, h: nat)
    requires Runs(regs, tasks, run, waiting, cl) && h < |regs|
    ensures |regs| == |run| == |waiting| == |cl| && (waiting[h] ==> run[h] == NULL && regs[h] == NONE)
  {
  }

  /** What hardware thread v's cluster holds once hardware thread h gave up its slots. */
  ghost function Held(count: seq<nat>, regs: seq<Copro>, cl: seq<nat>, h: nat, v: nat): int
    requires h < |regs| == |cl| && v < |cl| && cl[v] < |count|
  {
    count[cl[v]] - if cl[v] == cl[h] then Occ(regs[h]) else 0
  }

  class Clusters {
    // hardware threads per cluster, and the maximum of slots per cluster
    const per: nat
    const max: nat
    // the cluster of each hardware thread
    const cl: seq<nat>
    var count: seq<nat>
    // the enable bits in each hardware thread's registers, and in each context
    var regs: seq<Copro>
    var tasks: seq<Copro>
    var run: seq<int>
    var waiting: seq<bool>

    ghost predicate Valid()
      reads this
    {
      && max < WORD - 1 && |cl| <= 32 && Tabulates(cl, per, |count|)
      && Runs(regs, tasks, run, waiting, cl) && Conserved(count, regs, cl)
    }

    /** n hardware threads in wait mode, with nothing enabled. */
    constructor (per: nat, max: nat, clusters: nat, n: nat, tasks: seq<Copro>)
      requires per > 0 && max < WORD - 1 && n <= 32 && forall h :: 0 <= h < n ==> h / per < clusters
      ensures Valid() && this.tasks == tasks && this.per == per && this.max == max &&
              cl == seq(n, h requires 0 <= h < n => h / per)
      ensures count == seq(clusters, i => 0) && regs == seq(n, i => NONE) && run == seq(n, i => NULL) &&
              waiting == seq(n, i => true)
    {
      this.per, this.max, this.tasks := per, max, tasks;
      cl := seq(n, h requires 0 <= h < n => h / per);
      count := seq(clusters, i => 0);
      regs, run, waiting := seq(n, i => NONE), seq(n, i => NULL), seq(n, i => true);
      new;
      forall c | 0 <= c < clusters ensures Load(regs, cl, c, n) == 0 { IdleLoad(regs, cl, c, n); }
    }

    /** When every hardware thread runs a thread or sleeps, a count is what the running threads
        of the cluster need. */
    lemma CountIsRunning(c: nat)
      requires Valid() && c < |count| && forall h :: 0 <= h < |run| && run[h] == NULL ==> waiting[h]
      ensures |run| == |cl| && count[c] == RunLoad(run, tasks, cl, c, |run|)
    {
      hide Load, Tabulates, Occ;
      LoadIsRunning(regs, run, tasks, cl, c, |run|);
    }

    /** A count is the number of hardware threads of the cluster that have xe or xe3 on, and of
        those that have xe2 on. */
    lemma CountIsSlots(c: nat)
      requires Valid() && c < |count|
      ensures |regs| == |cl|
      ensures count[c] == |set h: nat | h < |regs| && cl[h] == c && (regs[h].xe || regs[h].xe3)|
                          + |set h: nat | h < |regs| && cl[h] == c && regs[h].xe2|
    {
      hide Load, Tabulates, Occ;
      LoadCounts(regs, cl, c, |regs|);
    }

    ghost predicate HasWaiting(c: nat)
      reads this
    {
      exists h :: 0 <= h < |waiting| && h < |cl| && waiting[h] && cl[h] == c
    }

    /** Hardware thread v is the first in wait mode of the first cluster with the least count among
        those that have one in wait mode. */
    ghost predicate IsVictim(v: nat, counts: seq<nat>, sleeping: seq<bool>) {
      && v < |sleeping| <= |cl| && sleeping[v] && cl[v] < |counts|
      && forall g :: 0 <= g < |sleeping| && sleeping[g] && cl[g] < |counts| ==>
           && counts[cl[v]] <= counts[cl[g]]
           && (counts[cl[v]] == counts[cl[g]] ==> cl[v] < cl[g] || (cl[v] == cl[g] && v <= g))
    }

    /** The least-loaded cluster that has a hardware thread in wait mode, and one such thread. */
    method LeastLoaded() returns (low: nat, victim: nat)
      requires Valid() && exists h :: 0 <= h < |waiting| && waiting[h]
      ensures victim < |waiting| && waiting[victim] && cl[victim] < |count| && low == count[cl[victim]] <= 64
      ensures forall c :: 0 <= c < |count| && HasWaiting(c) ==> low <= count[c] && (low == count[c] ==> cl[victim] <= c)
      ensures forall h :: 0 <= h < victim && cl[h] == cl[victim] ==> !waiting[h]
    {
      hide Load, Tabulates;
      InTable(cl, per, |count|);
      var best := -1;
      low, victim := WORD - 1, 0;
      LoadsFit(count, regs, cl);
      for i := 0 to |count|
        invariant best == -1 ==> low == WORD - 1 && forall c :: 0 <= c < i ==> !HasWaiting(c)
        invariant best != -1 ==> 0 <= best < i && low == count[best] && HasWaiting(best)
        invariant best != -1 ==>
                    forall c :: 0 <= c < i && HasWaiting(c) ==> low <= count[c] && (low == count[c] ==> best <= c)
        invariant best != -1 ==> victim < |waiting| && waiting[victim] && cl[victim] == best
        invariant best != -1 ==> forall h :: 0 <= h < victim && cl[h] == best ==> !waiting[h]
      {
        var h := 0;
        while h < |waiting| && !(waiting[h] && cl[h] == i)
          invariant h <= |waiting| && forall g :: 0 <= g < h ==> !(waiting[g] && cl[g] == i)
        {
          h := h + 1;
        }
        if h < |waiting| {
          assert HasWaiting(i);
          if count[i] < low {
            best, low, victim := i, count[i], h;
          }
        }
      }
      ghost var h :| 0 <= h < |waiting| && waiting[h];
      assert HasWaiting(cl[h]);
    }

    /** H2K_ready_head for hardware thread h, which runs nothing, and the ring of the best ready
        threads.  over is the hardware thread a hand-over signals. */
    method ReadyHead(h: nat, ring: seq<Tid>) returns (t: int, over: int)
      requires Valid() && h < |regs| && run[h] == NULL && !waiting[h]
      requires ring != [] && forall i :: 0 <= i < |ring| ==> ring[i] < |tasks|
      modifies this`count, this`regs
      ensures |regs| == |old(regs)| && |count| == |old(count)| && cl[h] < |count|
      ensures t == ring[0] || t == NULL
      ensures t != NULL ==> regs == old(regs) && Conserved(count, regs[h := tasks[t]], cl)
      ensures t == NULL ==> regs == old(regs)[h := NONE] && Conserved(count, regs, cl)
      ensures Adjusted(old(count), count, cl[h], if t == NULL then NONE else tasks[t], old(regs)[h])
      ensures !Exceeds(old(count), old(regs), cl, h, tasks[ring[0]], max) ==> t == ring[0] && count[cl[h]] <= max
      ensures over >= 0 <==>
                && Exceeds(old(count), old(regs), cl, h, tasks[ring[0]], max)
                && exists g :: 0 <= g < |waiting| && waiting[g]
      ensures over >= 0 ==> over < |waiting| && waiting[over] && cl[over] < |old(count)|
      ensures over >= 0 ==> IsVictim(over, old(count), waiting)
      ensures t == NULL <==>
                over >= 0 && exists i :: 0 <= i < |ring| && HandsOver(ring, tasks, old(count)[cl[over]], max, i)
      ensures over >= 0 ==>
                (t != NULL && (exists i :: 0 <= i < |ring| && Fits(ring, tasks, old(count)[cl[over]], max, i))
                 <==> Misses(ring, tasks, old(count)[cl[over]], max))
    {
      hide Load, Tabulates, Misses;
      InTable(cl, per, |count|);
      var cluster, head := cl[h], tasks[ring[0]];
      WithinLimitIs(count, regs, cl, h, head, max);
      XexConserves(count, regs, cl, h, head);
      XexConserves(count, regs, cl, h, NONE);
      t, over := ring[0], -1;
      if WithinLimit(count[cluster], Occ(head), Occ(regs[h]), max) || !(exists g :: 0 <= g < |waiting| && waiting[g]) {
        count := Xex(count, cluster, head, regs[h]);
        return;
      }
      var low;
      low, over := LeastLoaded();
      var hand := Walk(ring, tasks, low, max);
      if hand {
        count := Xex(count, cluster, NONE, regs[h]);
        regs := regs[h := NONE];
        t := NULL;
      } else {
        count := Xex(count, cluster, head, regs[h]);
      }
      assert waiting[over];
    }

    /** An interrupt ends the wait mode of hardware thread h. */
    method WakeUp(h: nat)
      requires Valid() && h < |run| && waiting[h]
      modifies this
      ensures Valid() && waiting == old(waiting)[h := false]
      ensures count == old(count) && regs == old(regs) && tasks == old(tasks) && run == old(run)
    {
      hide Load, Conserved, Tabulates;
      waiting := waiting[h := false];
    }

    /** H2K_ready_getbest and the switch that follows, for hardware thread h. */
    method Dispatch(h: nat, ring: seq<Tid>) returns (t: int, over: int)
      requires Valid() && h < |regs| && run[h] == NULL && !waiting[h]
      requires forall i :: 0 <= i < |ring| ==> ring[i] < |tasks| && ring[i] !in run
      modifies this
      ensures Valid() && tasks == old(tasks) && run == old(run)[h := t] && waiting == old(waiting)[h := t == NULL]
      ensures t == NULL || (ring != [] && t == ring[0])
      ensures |old(regs)| == |cl| && cl[h] < |old(count)|
      ensures regs == old(regs)[h := if t == NULL then NONE else tasks[t]]
      ensures Adjusted(old(count), count, cl[h], if t == NULL then NONE else tasks[t], old(regs)[h])
      ensures over >= 0 <==>
                && ring != [] && Exceeds(old(count), old(regs), cl, h, tasks[ring[0]], max)
                && exists g :: 0 <= g < |old(waiting)| && old(waiting)[g]
      ensures over >= 0 ==> over < |cl| && over != h && old(waiting)[over] && cl[over] < |old(count)|
      ensures over >= 0 ==> IsVictim(over, old(count), old(waiting))
      ensures t == NULL <==>
                ring == [] ||
                (over >= 0 && exists i :: 0 <= i < |ring| && HandsOver(ring, tasks, old(count)[cl[over]], max, i))
    {
      hide Load, Tabulates, Misses, HandsOver, Fits, Occ;
      InTable(cl, per, |count|);
      ghost var before := regs;
      if ring == [] {
        XexConserves(count, regs, cl, h, NONE);
        count := Xex(count, cl[h], NONE, regs[h]);
        regs := regs[h := NONE];
        t, over := NULL, -1;
      } else {
        t, over := ReadyHead(h, ring);
        if t != NULL { regs := regs[h := tasks[t]]; }
      }
      Switched(before, tasks, run, waiting, cl, h, t);
      run := run[h := t];
      waiting := waiting[h := t == NULL];
    }

    /** A hand-over, and the victim's own pick after the interrupt.  The victim looks at the head
        again, not at the thread that was handed over: it takes the head within the maximum exactly
        when the head fits beside what the victim's cluster still holds. */
    method HandOver(h: nat, ring: seq<Tid>) returns (t: int, over: int, t1: int)
      requires Valid() && h < |regs| && run[h] == NULL && !waiting[h]
      requires forall i :: 0 <= i < |ring| ==> ring[i] < |tasks| && ring[i] !in run
      modifies this
      ensures Valid() && tasks == old(tasks) && |old(regs)| == |cl| && cl[h] < |old(count)|
      ensures t == NULL && over >= 0 ==>
                && ring != [] && over < |cl| && cl[over] < |old(count)| == |count|
                && (t1 == ring[0] || t1 == NULL) && run == old(run)[h := NULL][over := t1]
                && (t1 != NULL && count[cl[over]] <= max <==>
                    Occ(tasks[ring[0]]) + Held(old(count), old(regs), cl, h, over) <= max)
      ensures !(t == NULL && over >= 0) ==> t1 == NULL && run == old(run)[h := t]
    {
      hide Load, Tabulates, HandsOver, Conserved, Runs;
      Asleep(regs, tasks, run, waiting, cl, h);
      t, over := Dispatch(h, ring);
      t1 := NULL;
      if t == NULL && over >= 0 {
        assert forall i :: 0 <= i < |ring| ==> ring[i] !in run;
        Asleep(regs, tasks, run, waiting, cl, over);
        WakeUp(over);
        ghost var again;
        t1, again := Dispatch(over, ring);
      }
    }

    /** The running thread of h leaves it: it blocks, yields, stops or is requeued. */
    method Leave(h: nat)
      requires Valid() && h < |run|
      modifies this
      ensures Valid() && run == old(run)[h := NULL] && count == old(count) && regs == old(regs) &&
              tasks == old(tasks) && waiting == old(waiting)
    {
      hide Load, Conserved, Tabulates;
      run := run[h := NULL];
    }

    /** H2K_trap_hwconfig_hlxbits and hmxbits that set a bit: the thread asks for it and is
        requeued; the registers keep what they had until the next switch. */
    method Ask(h: nat, b: Copro)
      requires Valid() && h < |run| && run[h] != NULL
      modifies this
      ensures Valid() && run == old(run)[h := NULL] && count == old(count) && regs == old(regs) &&
              waiting == old(waiting)
      ensures old(run)[h] < |old(tasks)| && tasks == old(tasks)[old(run)[h] := b]
    {
      hide Load, Conserved, Tabulates;
      tasks := tasks[run[h] := b];
      run := run[h := NULL];
    }

    /** H2K_trap_hwconfig_hlxbits that clears xe3. */
    method DropXe3(h: nat)
      requires Valid() && h < |run| && run[h] != NULL
      modifies this
      ensures Valid() && run == old(run) && waiting == old(waiting) && h < |old(regs)| && 0 <= run[h] < |old(tasks)|
      ensures regs == old(regs)[h := old(regs)[h].(xe3 := false)] && tasks == old(tasks)[run[h] := regs[h]]
    {
      hide Load, Tabulates;
      InTable(cl, per, |count|);
      var t := run[h];
      var b := tasks[t];
      if b.xe3 {
        XexConserves(count, regs, cl, h, b.(xe3 := false));
        count := Xex(count, cl[h], Copro(b.xe, b.xe2, false), Copro(b.xe, b.xe2, true));
      }
      assert !b.xe3 ==> regs[h := b.(xe3 := false)] == regs;
      tasks := tasks[t := b.(xe3 := false)];
      regs := regs[h := b.(xe3 := false)];
    }

    /** H2K_trap_hwconfig_hmxbits that clears xe2. */
    method DropXe2(h: nat)
      requires Valid() && h < |run| && run[h] != NULL
      modifies this
      ensures Valid() && run == old(run) && waiting == old(waiting) && h < |old(regs)| && 0 <= run[h] < |old(tasks)|
      ensures regs == old(regs)[h := old(regs)[h].(xe2 := false)] && tasks == old(tasks)[run[h] := regs[h]]
    {
      hide Load, Tabulates;
      InTable(cl, per, |count|);
      var t := run[h];
      var b := tasks[t];
      if b.xe2 {
        XexConserves(count, regs, cl, h, b.(xe2 := false));
        count := Xex(count, cl[h], Copro(b.xe, false, b.xe3), Copro(b.xe, true, b.xe3));
      }
      assert !b.xe2 ==> regs[h := b.(xe2 := false)] == regs;
      tasks := tasks[t := b.(xe2 := false)];
      regs := regs[h := b.(xe2 := false)];
    }
  }

  /** A state the scheduler gets into in which the walk misses: two clusters of two hardware
      threads, a maximum of two slots, one slot in use on each.  Hardware thread 1 takes the
      head, which needs two, and exceeds the maximum, although thread 1 fits on the cluster of
      the sleeping hardware thread 3. */
  method WalkMisses() returns (k: Clusters, t: int, over: int)
    ensures t == 0 && over == 3 && k.max == 2 && k.cl == [0, 0, 1, 1] && k.tasks == [BOTH, ONE, ONE, ONE] &&
            k.count == [3, 1]
    ensures Fits([0, 1], k.tasks, k.count[k.cl[over]], k.max, 1)
  {
    k := OneSlotEach(ONE);
    k.WakeUp(1);
    assert k.waiting[3] && Exceeds(k.count, k.regs, k.cl, 1, BOTH, 2);
    t, over := k.ReadyHead(1, [0, 1]);
    assert k.waiting == [false, false, false, true];
  }

  /** Two clusters of two hardware threads, a maximum of two slots, threads 2 and 3 running with
      one slot each, and threads 0 and 1 left to the ring. */
  ghost predicate IsOneSlotEach(k: Clusters, b: Copro)
    reads k
  {
    && k.Valid() && k.max == 2 && k.cl == [0, 0, 1, 1] && k.tasks == [BOTH, b, ONE, ONE] && k.count == [1, 1]
    && k.regs == [ONE, NONE, ONE, NONE] && k.run == [2, NULL, 3, NULL] && k.waiting == [false, true, false, true]
  }

  method OneSlotEach(b: Copro) returns (k: Clusters)
    ensures fresh(k) && IsOneSlotEach(k, b)
  {
    hide Load, Conserved, Tabulates, HandsOver, Runs, Fits;
    k := new Clusters(2, 2, 2, 4, [BOTH, b, ONE, ONE]);
    assert k.cl == [0, 0, 1, 1] && k.count == [0, 0];
    k.WakeUp(0);
    var a, o := k.Dispatch(0, [2]);
    assert k.count == [1, 0];
    k.WakeUp(2);
    a, o := k.Dispatch(2, [3]);
  }

  /** Hardware thread h of the two that sleep wakes up and hands over to the other, v, because
      thread 1, which needs nothing, passes the walk.  Everything is then as it was. */
  method HandedBack(k: Clusters, h: nat, v: nat) returns (t: int, over: int)
    requires IsOneSlotEach(k, NONE) && ((h == 1 && v == 3) || (h == 3 && v == 1))
    modifies k
    ensures IsOneSlotEach(k, NONE) && t == NULL && over == v
  {
    hide Load, Conserved, Tabulates, Runs;
    k.WakeUp(h);
    assert k.waiting[v] && HandsOver([0, 1], k.tasks, k.count[k.cl[v]], 2, 1);
    assert Exceeds(k.count, k.regs, k.cl, h, BOTH, 2);
    t, over := k.Dispatch(h, [0, 1]);
  }

  /** The interrupt does not get the skipped thread picked up: each victim looks at the head, which
      exceeds the maximum there too, and hands over in turn.  However long that goes on, threads 0
      and 1 do not run. */
  method NeverPicked(n: nat) returns (k: Clusters, who: seq<nat>)
    ensures IsOneSlotEach(k, NONE)
    ensures |who| == n && forall i :: 0 <= i < n ==> who[i] == if i % 2 == 0 then 1 else 3
  {
    k := OneSlotEach(NONE);
    who := [];
    var h, v := 1, 3;
    for i := 0 to n
      invariant fresh(k) && IsOneSlotEach(k, NONE)
      invariant if i % 2 == 0 then h == 1 && v == 3 else h == 3 && v == 1
      invariant |who| == i && forall j :: 0 <= j < i ==> who[j] == if j % 2 == 0 then 1 else 3
    {
      var t, over := HandedBack(k, h, v);
      who := who + [h];
      h, v := over, h;
    }
  }

  lemma InTable(cl: seq<nat>, per: nat, clusters: nat)
    requires Tabulates(cl, per, clusters)
    ensures forall h :: 0 <= h < |cl| ==> cl[h] < clusters
  {
  }

  lemma LoadsFit(count: seq<nat>, regs: seq<Copro>, cl: seq<nat>)
    requires |regs| == |cl| <= 32 && Conserved(count, regs, cl)
    ensures forall c :: 0 <= c < |count| ==> count[c] <= 64
  {
    hide Load;
    forall c | 0 <= c < |count|
      ensures count[c] <= 64
    {
      if regs == [] {
        IdleLoad(regs, cl, c, 0);
      } else {
        LoadUpdate(regs, cl, c, |regs|, 0, NONE);
      }
    }
  }

  lemma {:induction false} IdleLoad(regs: seq<Copro>, cl: seq<nat>, c: nat, n: nat)
    requires n <= |regs| == |cl| && forall h :: 0 <= h < n ==> regs[h] == NONE
    ensures Load(regs, cl, c, n) == 0
  {
    if n == 0 {
    } else {
      IdleLoad(regs, cl, c, n - 1);
    }
  }
}
