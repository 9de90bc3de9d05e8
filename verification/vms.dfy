/** The kernel at boot, and the VM blocks added to it: a new VM brings contexts, all dead and
    on its free list. */
module VmBlocks {
  import opened Lists
  import opened Sched

  /** No VM yet, and every hardware thread in wait mode. */
  ghost function Boot(hthreads: nat): State {
    State([], [], [], [], [], [], [], seq(FREE, k => []), seq(hthreads, h => NULL), seq(hthreads, h => true), [], [],
          map[], map[])
  }

  /** The ids of new contexts: positive, different, and used by no context of s. */
  ghost predicate AreIds(contexts: map<nat, Tid>, ids: seq<nat>) {
    && (forall i :: 0 <= i < |ids| ==> ids[i] > 0 && ids[i] !in contexts)
    && forall i, j :: 0 <= i < j < |ids| ==> ids[i] != ids[j]
  }

  /** The numbers from base up to base + n, last first: the order in which contexts are pushed
      on a free list. */
  ghost function Down(base: nat, n: nat): (r: seq<Tid>)
    ensures |r| == n && forall i :: 0 <= i < n ==> r[i] == base + n - 1 - i
  {
    seq(n, i requires 0 <= i < n => base + n - 1 - i)
  }

  lemma DownMembers(base: nat, n: nat)
    ensures Distinct(Down(base, n)) && forall t: Tid :: t in Down(base, n) <==> base <= t < base + n
  {
    forall t: Tid | base <= t < base + n
      ensures t in Down(base, n)
    {
      assert Down(base, n)[base + n - 1 - t] == t;
    }
  }

  function Same<T>(n: nat, v: T): (r: seq<T>)
    ensures |r| == n && forall i :: 0 <= i < n ==> r[i] == v
  {
    seq(n, i => v)
  }

  /** The context of each id, with those of the new ids. */
  function NewContexts(contexts: map<nat, Tid>, ids: seq<nat>, base: nat): (m: map<nat, Tid>)
    requires forall i, j :: 0 <= i < j < |ids| ==> ids[i] != ids[j]
    ensures forall i :: 0 <= i < |ids| ==> ids[i] in m && m[ids[i]] == base + i
    ensures forall x :: x in m ==>
                          if x in ids then exists i :: 0 <= i < |ids| && ids[i] == x && m[x] == base + i
                          else x in contexts && m[x] == contexts[x]
    ensures forall x :: x in contexts && x !in ids ==> x in m && m[x] == contexts[x]
  {
    contexts + map i | 0 <= i < |ids| :: ids[i] := base + i
  }

  /** H2K_config_vmblock_init_cpus_ints: one more VM, with a context for each id. */
  ghost function AddVm(s: State, ids: seq<nat>): State
    requires AreIds(s.contexts, ids)
  {
    var n := |ids|;
    s.(prio := s.prio + Same(n, 0), basePrio := s.basePrio + Same(n, 0), status := s.status + Same(n, Dead),
       hthread := s.hthread + Same(n, 0), futex := s.futex + Same(n, 0), vm := s.vm + Same(n, |s.maxCpus|),
       id := s.id + ids, lists := s.lists + [Down(|s.status|, n)],
       numCpus := s.numCpus + [0], maxCpus := s.maxCpus + [n],
       contexts := NewContexts(s.contexts, ids, |s.status|))
  }

  lemma BootInv(hthreads: nat)
    ensures Inv(Boot(hthreads))
  {
    hide Hash;
    var s := Boot(hthreads);
    assert forall k, t: Tid :: 0 <= k < |s.lists| ==> (t in s.lists[k] <==> Belongs(s, NULL, k, t));
  }

  ghost predicate IdsAgree(id: seq<nat>, contexts: map<nat, Tid>) {
    && (forall t :: 0 <= t < |id| ==> id[t] > 0 && id[t] in contexts && contexts[id[t]] == t)
    && (forall j :: j in contexts ==> contexts[j] < |id| && id[contexts[j]] == j)
  }

  lemma NewIdsAgree(id: seq<nat>, contexts: map<nat, Tid>, ids: seq<nat>)
    requires IdsAgree(id, contexts) && AreIds(contexts, ids)
    ensures IdsAgree(id + ids, NewContexts(contexts, ids, |id|))
  {
    hide NewContexts;
    var id1, m, n := id + ids, NewContexts(contexts, ids, |id|), |id|;
    forall t | 0 <= t < |id1|
      ensures id1[t] > 0 && id1[t] in m && m[id1[t]] == t
    {
      if t < n {
        assert id[t] in contexts && id[t] !in ids;
      }
    }
    forall x | x in m
      ensures m[x] < |id1| && id1[m[x]] == x
    {
    }
  }

  lemma AddVmShape(s: State, ids: seq<nat>)
    requires Shape(s) && AreIds(s.contexts, ids)
    ensures Shape(AddVm(s, ids))
  {
    hide NewContexts, Down, Same, AreIds;
    NewIdsAgree(s.id, s.contexts, ids);
  }

  /** The homes of the old contexts, and of the new. */
  lemma AddVmHome(s: State, ids: seq<nat>, t: Tid)
    requires Shape(s) && AreIds(s.contexts, ids) && Shape(AddVm(s, ids)) && t < |s.status| + |ids|
    ensures Home(AddVm(s, ids), t) == if t < |s.status| then Home(s, t) else FREE + |s.maxCpus|
  {
    hide NewContexts, Down, Hash;
  }

  lemma AddVmPlaced(s: State, ids: seq<nat>)
    requires WF(s, NULL, NULL) && AreIds(s.contexts, ids) && Shape(AddVm(s, ids))
    ensures Placed(AddVm(s, ids), NULL)
  {
    hide NewContexts, Hash, Home;
    var s', n := AddVm(s, ids), |s.status|;
    DownMembers(n, |ids|);
    forall k, t: Tid | 0 <= k < |s'.lists|
      ensures t in s'.lists[k] <==> Belongs(s', NULL, k, t)
    {
      if t < |s'.status| { AddVmHome(s, ids, t); }
      if k < |s.lists| {
        assert t in s.lists[k] <==> Belongs(s, NULL, k, t);
      } else if t < n {
        HomeInRange(s, t);
      }
    }
  }

  lemma HomeInRange(s: State, t: Tid)
    requires Shape(s) && t < |s.status|
    ensures Home(s, t) < |s.lists|
  {
    hide Hash;
  }

  lemma AddVmCounted(s: State, ids: seq<nat>)
    requires Inv(s) && AreIds(s.contexts, ids) && Shape(AddVm(s, ids))
    ensures Counted(AddVm(s, ids))
  {
    hide NewContexts, Hash, WF;
    Sizes(s, NULL, NULL);
    var s', n := AddVm(s, ids), |s.status|;
    forall v | 0 <= v < |s'.maxCpus|
      ensures s'.maxCpus[v] == |ContextsOf(s', v)| && s'.numCpus[v] + |s'.lists[FREE + v]| == s'.maxCpus[v]
    {
      if v < |s.maxCpus| {
        assert ContextsOf(s', v) == ContextsOf(s, v);
      } else {
        DownMembers(n, |ids|);
        SetOfDistinct(Down(n, |ids|), ContextsOf(s', v));
      }
    }
  }

  /** Adding a VM keeps the placement invariant, whatever runs. */
  lemma AddVmKeeps(s: State, ids: seq<nat>)
    requires Inv(s) && AreIds(s.contexts, ids)
    ensures Inv(AddVm(s, ids))
  {
    hide NewContexts, Hash, Placed, Counted, Down;
    AddVmShape(s, ids);
    AddVmPlaced(s, ids);
    AddVmCounted(s, ids);
    var s' := AddVm(s, ids);
    forall k | FUTEX <= k < FREE
      ensures Sorted(s'.lists[k], s'.prio)
    {
      assert Sorted(s.lists[k], s.prio) && s'.lists[k] == s.lists[k];
    }
  }

  /** Adding a VM touches no context, list or VM there was; the new contexts are dead contexts of
      the new VM, found by their ids, and the last of them is the first to be used. */
  lemma AddVmEffect(s: State, ids: seq<nat>, t: Tid)
    requires Inv(s) && AreIds(s.contexts, ids)
    ensures var s', n, v := AddVm(s, ids), |s.status|, |s.maxCpus|;
            && s.prio <= s'.prio && s.basePrio <= s'.basePrio && s.status <= s'.status && s.hthread <= s'.hthread
            && s.futex <= s'.futex && s.vm <= s'.vm && s.id <= s'.id && s.lists <= s'.lists
            && s.numCpus <= s'.numCpus && s.maxCpus <= s'.maxCpus
            && s'.run == s.run && s'.waiting == s.waiting && s'.mem == s.mem
            && (forall x :: x in s.contexts ==> x in s'.contexts && s'.contexts[x] == s.contexts[x])
            && |s'.status| == n + |ids| && s'.numCpus == s.numCpus + [0] && s'.maxCpus == s.maxCpus + [|ids|]
            && (n <= t < n + |ids| ==>
                  && s'.status[t] == Dead && s'.vm[t] == v && ids[t - n] in s'.contexts && s'.contexts[ids[t - n]] == t
                  && s'.lists[FREE + v][n + |ids| - 1 - t] == t)
  {
    hide NewContexts, Hash, WF, Counted;
    Sizes(s, NULL, NULL);
  }
}
