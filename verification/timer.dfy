/** Kernel timers: the tree of armed deadlines, its split and drain at a timer interrupt, and
    the hardware match value.  The key of a context's tree node is its timeout; 0 means not
    armed. */
module Timer {
  import opened Lists
  import opened Trees

  /** H2K_TIME_BIGBANG, H2K_TIME_FOREVER and TICK_GRANULARITY. */
  const BIGBANG: nat := 0
  const FOREVER: nat := 0xFFFF_FFFF_FFFF_FFFF
  const GRANULARITY: nat := 4

  /** The tree holds exactly the contexts with a timeout, each once, keyed by it. */
  ghost predicate Armed(left: seq<int>, right: seq<int>, timeout: seq<nat>, root: int, tree: Tree) {
    && |left| == |right| == |timeout|
    && IsTree(left, right, root, tree) && Ordered(tree, timeout) && Distinct(InOrder(tree))
    && (forall t :: t in InOrder(tree) <==> 0 <= t < |timeout| && timeout[t] != BIGBANG)
  }

  lemma {:induction false} OrderedFrame(t: Tree, key: seq<nat>, key1: seq<nat>)
    requires Ordered(t, key) && |key1| == |key| && forall x :: x in InOrder(t) && x < |key| ==> key1[x] == key[x]
    ensures Ordered(t, key1)
  {
    hide InOrder;
    if t.Leaf? {
    } else {
      forall x
        ensures x in InOrder(t) <==> x in InOrder(t.l) || x == t.id || x in InOrder(t.r)
      {
        InNode(t.l, t.id, t.r, x);
      }
      OrderedFrame(t.l, key, key1);
      OrderedFrame(t.r, key, key1);
    }
  }

  /** Context t was taken out of the tree; its links are cleared. */
  lemma Disarmed(left: seq<int>, right: seq<int>, timeout: seq<nat>, root: int, tree: Tree, t: nat,
                 left1: seq<int>, right1: seq<int>, root1: int)
    requires Armed(left, right, timeout, root, tree) && t < |timeout| && timeout[t] != BIGBANG
    requires |left1| == |right1| == |left| && IsTree(left1, right1, root1, RemoveTree(tree, t, timeout, timeout[t]))
    ensures Armed(left1[t := NULL], right1[t := NULL], timeout[t := BIGBANG], root1,
                  RemoveTree(tree, t, timeout, timeout[t]))
  {
    hide InOrder, RemoveTree, Ordered, IsTree;
    var tree1 := RemoveTree(tree, t, timeout, timeout[t]);
    RemoveInOrder(tree, t, timeout);
    WithoutMembers(InOrder(tree), t);
    OrderedFrame(tree1, timeout, timeout[t := BIGBANG]);
    Framed(left1, right1, root1, tree1, left1[t := NULL], right1[t := NULL]);
  }

  /** Clearing the links of a context that is not armed. */
  lemma Cleared(left: seq<int>, right: seq<int>, timeout: seq<nat>, root: int, tree: Tree, t: nat, k: nat)
    requires Armed(left, right, timeout, root, tree) && t < |timeout| && timeout[t] == BIGBANG
    ensures var left1, right1 := left[t := NULL], right[t := NULL];
            && Armed(left1, right1, timeout, root, tree)
            && IsTree(left1, right1, root, tree) && IsTree(left1, right1, t, Node(Leaf, t, Leaf))
            && Ordered(tree, timeout[t := k])
            && Distinct(InOrder(tree)) && t !in InOrder(tree) && InOrder(Node(Leaf, t, Leaf)) == [t]
  {
    Framed(left, right, root, tree, left[t := NULL], right[t := NULL]);
    OrderedFrame(tree, timeout, timeout[t := k]);
  }

  /** Context t was put into the tree under deadline k. */
  lemma Rearmed(left: seq<int>, right: seq<int>, timeout: seq<nat>, root: int, tree: Tree, t: nat, k: nat,
                left1: seq<int>, right1: seq<int>, root1: int)
    requires Armed(left, right, timeout, root, tree) && t < |timeout| && timeout[t] == BIGBANG && k != BIGBANG
    requires |left1| == |right1| == |left|
    requires IsTree(left1, right1, root1, AddTree(tree, Node(Leaf, t, Leaf), timeout[t := k], k))
    ensures Armed(left1, right1, timeout[t := k], root1, AddTree(tree, Node(Leaf, t, Leaf), timeout[t := k], k))
  {
    hide InOrder, AddTree, Rank, IsTree, Splice;
    var u, key := Node(Leaf, t, Leaf), timeout[t := k];
    Cleared(left, right, timeout, root, tree, t, k);
    AddInOrder(tree, u, key, k);
    SingleOrdered(t, key);
    AddOrdered(tree, u, key, k);
    SpliceInsert(InOrder(tree), Rank(tree, key, k), t);
    InsertMembers(InOrder(tree), Rank(tree, key, k), t);
  }

  lemma SingleOrdered(t: nat, key: seq<nat>)
    requires t < |key|
    ensures Ordered(Node(Leaf, t, Leaf), key)
  {
  }

  lemma SpliceInsert(s: seq<nat>, i: nat, t: nat)
    requires i <= |s|
    ensures Splice(s, i, [t]) == InsertAt(s, i, t)
  {
  }

  /** The contexts due by k left the tree and were zeroed. */
  lemma Drained(left: seq<int>, right: seq<int>, timeout: seq<nat>, root: int, tree: Tree, k: nat,
                left1: seq<int>, right1: seq<int>, gt: int, timeout1: seq<nat>)
    requires Armed(left, right, timeout, root, tree)
    requires |left1| == |right1| == |left| && IsTree(left1, right1, gt, Beyond(tree, timeout, k))
    requires |timeout1| == |timeout| && forall t :: 0 <= t < |timeout| ==>
               timeout1[t] == if t in InOrder(UpTo(tree, timeout, k)) then BIGBANG else timeout[t]
    ensures Armed(left1, right1, timeout1, gt, Beyond(tree, timeout, k))
  {
    hide InOrder, UpTo, Beyond, IsTree;
    var le, gt := UpTo(tree, timeout, k), Beyond(tree, timeout, k);
    BisectSplits(tree, timeout, k);
    PartOf(le, gt, tree);
    DistinctParts(InOrder(le), InOrder(gt));
    OrderedFrame(gt, timeout, timeout1);
  }

  /** Who is due by k. */
  lemma Due(left: seq<int>, right: seq<int>, timeout: seq<nat>, root: int, tree: Tree, k: nat)
    requires Armed(left, right, timeout, root, tree)
    ensures var le := InOrder(UpTo(tree, timeout, k));
            && Distinct(le) && Sorted(le, timeout)
            && forall t :: 0 <= t ==> (t in le <==> t < |timeout| && BIGBANG < timeout[t] <= k)
  {
    hide InOrder, UpTo, Beyond, IsTree;
    var le, gt := UpTo(tree, timeout, k), Beyond(tree, timeout, k);
    BisectSplits(tree, timeout, k);
    PartOf(le, gt, tree);
    DistinctParts(InOrder(le), InOrder(gt));
    InOrderSorted(le, timeout);
  }

  /** The earliest deadline is that of the first node. */
  lemma Earliest(left: seq<int>, right: seq<int>, timeout: seq<nat>, root: int, tree: Tree)
    requires Armed(left, right, timeout, root, tree)
    ensures tree.Leaf? ==> forall t :: 0 <= t < |timeout| ==> timeout[t] == BIGBANG
    ensures tree.Node? ==>
              && InOrder(tree) != [] && InOrder(tree)[0] < |timeout| && timeout[InOrder(tree)[0]] != BIGBANG
              && forall t :: 0 <= t < |timeout| && timeout[t] != BIGBANG ==> timeout[InOrder(tree)[0]] <= timeout[t]
  {
    InOrderSorted(tree, timeout);
    if tree.Node? {
      assert InOrder(tree)[0] in InOrder(tree);
      forall t | 0 <= t < |timeout| && timeout[t] != BIGBANG
        ensures timeout[InOrder(tree)[0]] <= timeout[t]
      {
        var i := IndexOf(InOrder(tree), t);
      }
    }
  }

  class TimeInfo {
    var left: seq<int>
    var right: seq<int>
    var timeout: seq<nat>
    var timeouts: int
    var nextTicks: nat
    var lastTicks: nat
    // the argument of a context's pending H2K_timer_update_timeout, or -1
    var updating: seq<int>
    ghost var tree: Tree

    /** The match value is not later than any deadline but that of a context between its
        tree insertion and its own update. */
    ghost predicate Valid()
      reads this
    {
      && Armed(left, right, timeout, timeouts, tree)
      && |updating| == |timeout|
      && (forall t :: 0 <= t < |timeout| && timeout[t] != BIGBANG && updating[t] < 0 ==> nextTicks <= timeout[t])
      && (forall t :: 0 <= t < |timeout| && timeout[t] != BIGBANG && updating[t] >= 0 ==> updating[t] == timeout[t])
    }

    constructor (n: nat)
      ensures Valid() && nextTicks == FOREVER && timeout == seq(n, i => BIGBANG) && updating == seq(n, i => -1)
    {
      left, right, timeout, updating := seq(n, i => NULL), seq(n, i => NULL), seq(n, i => BIGBANG), seq(n, i => -1);
      timeouts, tree, nextTicks, lastTicks := NULL, Leaf, FOREVER, BIGBANG;
    }

    /** Take context t out of the tree if it is in. */
    method Disarm(t: nat)
      requires Valid() && t < |timeout|
      modifies this
      ensures Valid() && timeout == old(timeout)[t := BIGBANG]
      ensures nextTicks == old(nextTicks) && lastTicks == old(lastTicks) && updating == old(updating)
    {
      hide Armed;
      IsSized(left, right, timeout, timeouts, tree);
      if timeout[t] != BIGBANG {
        var left1, right1, root1 := RemoveArmed(left, right, timeout, timeouts, t, tree);
        tree := RemoveTree(tree, t, timeout, timeout[t]);
        left, right, timeouts := left1, right1, root1;
      }
      timeout := timeout[t := BIGBANG];
      assert old(timeout)[t] == BIGBANG ==> timeout == old(timeout);
    }

    /** H2K_timer_set_timeout_tick up to the release of the lock. */
    method SetTimeout(t: nat, tick: nat)
      requires Valid() && t < |timeout| && t < |updating| && updating[t] < 0
      modifies this
      ensures var k := if tick <= old(lastTicks) then BIGBANG else tick;
              Valid() && timeout == old(timeout)[t := k] && updating == old(updating)[t := k]
      ensures nextTicks == old(nextTicks) && lastTicks == old(lastTicks)
    {
      hide Armed;
      IsSized(left, right, timeout, timeouts, tree);
      var k := if tick <= lastTicks then BIGBANG else tick;
      Disarm(t);
      IsSized(left, right, timeout, timeouts, tree);
      if k != BIGBANG {
        var left1, right1, root1 := AddArmed(left, right, timeout, timeouts, t, k, tree);
        tree := AddTree(tree, Node(Leaf, t, Leaf), timeout[t := k], k);
        left, right, timeouts := left1, right1, root1;
      }
      timeout := timeout[t := k];
      assert k == BIGBANG ==> timeout == old(timeout)[t := k];
      updating := updating[t := k];
    }

    /** H2K_timer_update_timeout. */
    method UpdateTimeout(t: nat)
      requires Valid() && t < |updating| && updating[t] >= 0
      modifies this
      ensures Valid() && timeout == old(timeout) && updating == old(updating)[t := -1] && lastTicks == old(lastTicks)
      ensures nextTicks == if old(nextTicks) > old(updating)[t] then old(updating)[t] else old(nextTicks)
    {
      hide Armed;
      IsSized(left, right, timeout, timeouts, tree);
      if nextTicks > updating[t] {
        nextTicks := updating[t];
      }
      updating := updating[t := -1];
    }

    /** H2K_timer_cancel_withlock of a stopping context, whose fields are then cleared. */
    method Cancel(t: nat)
      requires Valid() && t < |timeout| && t < |updating| && updating[t] < 0
      modifies this
      ensures Valid() && timeout == old(timeout)[t := BIGBANG] && updating == old(updating)
      ensures nextTicks == old(nextTicks) && lastTicks == old(lastTicks)
    {
      Disarm(t);
    }

    /** H2K_timer_int when the counter reads now: exactly the contexts due by now plus the
        granularity are posted, once each, in order of deadline, and disarmed; the match
        value becomes the earliest deadline left. */
    method TimerInt(now: nat) returns (posted: seq<nat>)
      requires Valid() && now + GRANULARITY <= FOREVER
      modifies this
      ensures Valid() && updating == old(updating) && lastTicks == if now > old(lastTicks) then now else old(lastTicks)
      ensures Distinct(posted) && Sorted(posted, old(timeout)) && |timeout| == |old(timeout)|
      ensures forall t ::
                0 <= t ==> (t in posted <==> t < |old(timeout)| && BIGBANG < old(timeout)[t] <= now + GRANULARITY)
      ensures forall t :: 0 <= t < |timeout| ==> timeout[t] == if t in posted then BIGBANG else old(timeout)[t]
      ensures forall t :: 0 <= t < |timeout| && timeout[t] != BIGBANG ==> nextTicks <= timeout[t]
      ensures nextTicks == FOREVER || exists t :: 0 <= t < |timeout| && timeout[t] == nextTicks
    {
      hide Armed, Sorted, Distinct, UpTo, Beyond;
      IsSized(left, right, timeout, timeouts, tree);
      if now > lastTicks {
        lastTicks := now;
      }
      var ticks := now + GRANULARITY;
      var left1, right1, root1, timeout1, next1;
      posted, left1, right1, root1, timeout1, next1 := Expire(left, right, timeout, timeouts, ticks, tree);
      tree := Beyond(tree, timeout, ticks);
      left, right, timeouts, timeout, nextTicks := left1, right1, root1, timeout1, next1;
      IsSized(left, right, timeout, timeouts, tree);
    }
  }

  lemma IsSized(left: seq<int>, right: seq<int>, timeout: seq<nat>, root: int, tree: Tree)
    requires Armed(left, right, timeout, root, tree)
    ensures |left| == |right| == |timeout|
  {
  }

  lemma OfTree(left: seq<int>, right: seq<int>, timeout: seq<nat>, root: int, tree: Tree)
    requires Armed(left, right, timeout, root, tree)
    ensures IsTree(left, right, root, tree) && Distinct(InOrder(tree))
  {
  }

  method RemoveArmed(left0: seq<int>, right0: seq<int>, timeout: seq<nat>, root0: int, t: nat, ghost tree: Tree)
      returns (left: seq<int>, right: seq<int>, root: int)
    requires Armed(left0, right0, timeout, root0, tree) && t < |timeout| && timeout[t] != BIGBANG
    ensures Armed(left, right, timeout[t := BIGBANG], root, RemoveTree(tree, t, timeout, timeout[t]))
  {
    hide InOrder, RemoveTree, Ordered;
    left, right, root := Remove(left0, right0, timeout, root0, t, timeout[t], tree);
    Disarmed(left0, right0, timeout, root0, tree, t, left, right, root);
    left, right := left[t := NULL], right[t := NULL];
  }

  method AddArmed(left0: seq<int>, right0: seq<int>, timeout: seq<nat>, root0: int, t: nat, k: nat, ghost tree: Tree)
      returns (left: seq<int>, right: seq<int>, root: int)
    requires Armed(left0, right0, timeout, root0, tree) && t < |timeout| && timeout[t] == BIGBANG && k != BIGBANG
    ensures Armed(left, right, timeout[t := k], root, AddTree(tree, Node(Leaf, t, Leaf), timeout[t := k], k))
  {
    hide InOrder, AddTree, Ordered, Armed;
    IsSized(left0, right0, timeout, root0, tree);
    Cleared(left0, right0, timeout, root0, tree, t, k);
    ghost var u := Node(Leaf, t, Leaf);
    left, right := left0[t := NULL], right0[t := NULL];
    left, right, root := Add(left, right, timeout[t := k], root0, t, k, tree, u);
    Rearmed(left0, right0, timeout, root0, tree, t, k, left, right, root);
  }

  /** Bisect at ticks and walk the part that is due. */
  method SplitAndDrain(left0: seq<int>, right0: seq<int>, timeout: seq<nat>, root0: int, ticks: nat, ghost tree: Tree)
      returns (due: seq<nat>, left: seq<int>, right: seq<int>, root: int)
    requires Armed(left0, right0, timeout, root0, tree)
    ensures |left| == |right| == |timeout|
    ensures due == InOrder(UpTo(tree, timeout, ticks)) && IsTree(left, right, root, Beyond(tree, timeout, ticks))
  {
    hide InOrder, UpTo, Beyond, Ordered;
    ghost var le, gt := UpTo(tree, timeout, ticks), Beyond(tree, timeout, ticks);
    var timedout;
    left, right, timedout, root := Bisect(left0, right0, timeout, root0, ticks, tree);
    BisectMembers(tree, timeout, ticks);
    DistinctParts(InOrder(le), InOrder(gt));
    var left1, right1;
    due, left1, right1 := Iterate(left, right, timedout, le);
    Framed(left, right, root, gt, left1, right1);
    left, right := left1, right1;
  }

  /** The locked part of H2K_timer_int: split, drain, and find the next match value. */
  method Expire(left0: seq<int>, right0: seq<int>, timeout0: seq<nat>, root0: int, ticks: nat, ghost tree: Tree)
      returns (due: seq<nat>, left: seq<int>, right: seq<int>, root: int, timeout: seq<nat>, next: nat)
    requires Armed(left0, right0, timeout0, root0, tree)
    ensures |timeout| == |timeout0| && Armed(left, right, timeout, root, Beyond(tree, timeout0, ticks))
    ensures Distinct(due) && Sorted(due, timeout0)
    ensures forall t :: 0 <= t ==> (t in due <==> t < |timeout0| && BIGBANG < timeout0[t] <= ticks)
    ensures forall t :: 0 <= t < |timeout| ==> timeout[t] == if t in due then BIGBANG else timeout0[t]
    ensures forall t :: 0 <= t < |timeout| && timeout[t] != BIGBANG ==> next <= timeout[t]
    ensures next == FOREVER || exists t :: 0 <= t < |timeout| && timeout[t] == next
  {
    hide Armed, Sorted, Distinct, UpTo, Beyond, InOrder;
    ghost var gt := Beyond(tree, timeout0, ticks);
    IsSized(left0, right0, timeout0, root0, tree);
    Due(left0, right0, timeout0, root0, tree, ticks);
    due, left, right, root := SplitAndDrain(left0, right0, timeout0, root0, ticks, tree);
    timeout := DoTimeouts(timeout0, due);
    Drained(left0, right0, timeout0, root0, tree, ticks, left, right, root, timeout);
    Earliest(left, right, timeout, root, gt);
    OfTree(left, right, timeout, root, gt);
    var m := Min(left, root, right, gt);
    next := if m == NULL then FOREVER else timeout[m];
  }

  /** H2K_timer_dotimeout on each. */
  method DoTimeouts(timeout: seq<nat>, due: seq<nat>) returns (timeout1: seq<nat>)
    requires forall t :: t in due ==> t < |timeout|
    ensures |timeout1| == |timeout|
    ensures forall t :: 0 <= t < |timeout| ==> timeout1[t] == if t in due then BIGBANG else timeout[t]
  {
    timeout1 := timeout;
    for i := 0 to |due|
      invariant |timeout1| == |timeout|
      invariant forall t :: 0 <= t < |timeout| ==> timeout1[t] == if t in due[..i] then BIGBANG else timeout[t]
    {
      assert due[i] in due;
      timeout1 := timeout1[due[i] := BIGBANG];
      assert due[..i + 1] == due[..i] + [due[i]];
    }
    assert due[..|due|] == due;
  }
}
