/** The unbalanced search tree of kernel/util/tree: duplicate keys allowed, keys on the left
    not greater, keys on the right greater.  Links are two columns indexed by node; a tree is
    held by the number of its root, or NULL. */
module Trees {
  import opened Lists

  datatype Tree = Leaf | Node(l: Tree, id: nat, r: Tree)

  ghost function InOrder(t: Tree): seq<nat> {
    if t.Leaf? then [] else InOrder(t.l) + [t.id] + InOrder(t.r)
  }

  /** The links from root spell out t. */
  ghost predicate IsTree(left: seq<int>, right: seq<int>, root: int, t: Tree)
    decreases t
  {
    match t
    case Leaf => root == NULL
    case Node(l, id, r) =>
      root == id && id < |left| && id < |right| && IsTree(left, right, left[id], l) && IsTree(left, right, right[id], r)
  }

  ghost predicate Below(t: Tree, key: seq<nat>, k: nat) {
    forall x :: x in InOrder(t) ==> x < |key| && key[x] <= k
  }

  ghost predicate Above(t: Tree, key: seq<nat>, k: nat) {
    forall x :: x in InOrder(t) ==> x < |key| && key[x] > k
  }

  /** Search order. */
  ghost predicate Ordered(t: Tree, key: seq<nat>) {
    t.Leaf? ||
    (t.id < |key| && Below(t.l, key, key[t.id]) && Above(t.r, key, key[t.id]) && Ordered(t.l, key) && Ordered(t.r, key))
  }

  lemma InNode(l: Tree, id: nat, r: Tree, x: nat)
    ensures x in InOrder(Node(l, id, r)) <==> x in InOrder(l) || x == id || x in InOrder(r)
  {
  }

  /** A tree whose links are untouched is still there. */
  lemma {:induction false} Framed(left: seq<int>, right: seq<int>, root: int, t: Tree, left1: seq<int>,
                                  right1: seq<int>)
    requires IsTree(left, right, root, t) && |left1| == |left| && |right1| == |right|
    requires forall x :: x in InOrder(t) && x < |left| && x < |right| ==> left1[x] == left[x] && right1[x] == right[x]
    ensures IsTree(left1, right1, root, t)
    decreases t
  {
    if t.Leaf? {
    } else {
      InNode(t.l, t.id, t.r, t.id);
      Framed(left, right, left[t.id], t.l, left1, right1);
      Framed(left, right, right[t.id], t.r, left1, right1);
    }
  }

  // ---------------------------------------------------------------- H2K_tree_add_key

  /** Tree u hung into t at the place of key k. */
  ghost function AddTree(t: Tree, u: Tree, key: seq<nat>, k: nat): Tree {
    match t
    case Leaf => u
    case Node(l, id, r) =>
      if id < |key| && k <= key[id] then Node(AddTree(l, u, key, k), id, r) else Node(l, id, AddTree(r, u, key, k))
  }

  /** The number of nodes with a key less than k, which come first in an ordered tree. */
  ghost function Rank(t: Tree, key: seq<nat>, k: nat): nat {
    match t
    case Leaf => 0
    case Node(l, id, r) =>
      if id < |key| && k <= key[id] then Rank(l, key, k) else |InOrder(l)| + 1 + Rank(r, key, k)
  }

  ghost function Splice(s: seq<nat>, i: nat, u: seq<nat>): seq<nat>
    requires i <= |s|
  {
    s[..i] + u + s[i..]
  }

  lemma SpliceLeft(a: seq<nat>, b: seq<nat>, i: nat, u: seq<nat>)
    requires i <= |a|
    ensures Splice(a, i, u) + b == Splice(a + b, i, u)
  {
    assert (a + b)[..i] == a[..i] && (a + b)[i..] == a[i..] + b;
  }

  lemma SpliceRight(a: seq<nat>, b: seq<nat>, i: nat, u: seq<nat>)
    requires i <= |b|
    ensures a + Splice(b, i, u) == Splice(a + b, |a| + i, u)
  {
    assert (a + b)[..|a| + i] == a + b[..i] && (a + b)[|a| + i..] == b[i..];
  }

  lemma {:induction false} AddInOrder(t: Tree, u: Tree, key: seq<nat>, k: nat)
    ensures Rank(t, key, k) <= |InOrder(t)|
    ensures InOrder(AddTree(t, u, key, k)) == Splice(InOrder(t), Rank(t, key, k), InOrder(u))
  {
    hide Splice;
    match t
    case Leaf => assert Splice([], 0, InOrder(u)) == InOrder(u) by { SpliceEmpty(InOrder(u)); }
    case Node(l, id, r) =>
      if id < |key| && k <= key[id] {
        AddInOrder(l, u, key, k);
        SpliceLeft(InOrder(l), [id], Rank(l, key, k), InOrder(u));
        SpliceLeft(InOrder(l) + [id], InOrder(r), Rank(l, key, k), InOrder(u));
      } else {
        AddInOrder(r, u, key, k);
        SpliceRight(InOrder(l) + [id], InOrder(r), Rank(r, key, k), InOrder(u));
      }
  }

  lemma SpliceEmpty(u: seq<nat>)
    ensures Splice([], 0, u) == u
  {
  }

  lemma AddMembers(t: Tree, u: Tree, key: seq<nat>, k: nat, x: nat)
    ensures x in InOrder(AddTree(t, u, key, k)) <==> x in InOrder(t) || x in InOrder(u)
  {
    AddInOrder(t, u, key, k);
    var i, s := Rank(t, key, k), InOrder(t);
    assert s == s[..i] + s[i..];
  }

  /** The nodes before the new place have a lesser key, those after it do not. */
  lemma {:induction false} RankSplits(t: Tree, key: seq<nat>, k: nat)
    requires Ordered(t, key)
    ensures Rank(t, key, k) <= |InOrder(t)|
    ensures forall j ::
              0 <= j < |InOrder(t)| ==> InOrder(t)[j] < |key| && (key[InOrder(t)[j]] < k <==> j < Rank(t, key, k))
  {
    if t.Leaf? {
    } else {
      RankSplits(t.l, key, k);
      RankSplits(t.r, key, k);
      var s, n := InOrder(t), |InOrder(t.l)|;
      forall j | 0 <= j < |s|
        ensures s[j] < |key| && (key[s[j]] < k <==> j < Rank(t, key, k))
      {
        if j < n { assert s[j] in InOrder(t.l); } else if j > n { assert s[j] in InOrder(t.r); }
      }
    }
  }

  /** Adding a node, or a subtree whose keys fit where its root's key goes, keeps the order. */
  lemma {:induction false} AddOrdered(t: Tree, u: Tree, key: seq<nat>, k: nat)
    requires Ordered(t, key) && Ordered(u, key)
    requires forall x, y ::
               x in InOrder(t) && y in InOrder(u) && x < |key| && y < |key| ==> (k <= key[x] <==> key[y] <= key[x])
    ensures Ordered(AddTree(t, u, key, k), key)
  {
    hide InOrder;
    if t.Leaf? {
    } else {
      forall x
        ensures x in InOrder(t) <==> x in InOrder(t.l) || x == t.id || x in InOrder(t.r)
      {
        InNode(t.l, t.id, t.r, x);
      }
      OrderedIds(u, key);
      if k <= key[t.id] {
        AddOrdered(t.l, u, key, k);
        forall x | x in InOrder(AddTree(t.l, u, key, k))
          ensures x < |key| && key[x] <= key[t.id]
        {
          AddMembers(t.l, u, key, k, x);
        }
      } else {
        AddOrdered(t.r, u, key, k);
        forall x | x in InOrder(AddTree(t.r, u, key, k))
          ensures x < |key| && key[x] > key[t.id]
        {
          AddMembers(t.r, u, key, k, x);
        }
      }
    }
  }

  lemma {:induction false} OrderedIds(t: Tree, key: seq<nat>)
    requires Ordered(t, key)
    ensures forall x :: x in InOrder(t) ==> x < |key|
  {
  }

  lemma DistinctNode(t: Tree)
    requires t.Node? && Distinct(InOrder(t))
    ensures Distinct(InOrder(t.l)) && Distinct(InOrder(t.r)) && t.id !in InOrder(t.l) && t.id !in InOrder(t.r)
    ensures forall x :: x in InOrder(t.l) ==> x !in InOrder(t.r)
    ensures forall x :: x in InOrder(t) <==> x in InOrder(t.l) || x == t.id || x in InOrder(t.r)
  {
    var a, b := InOrder(t.l), InOrder(t.r);
    assert InOrder(t) == a + ([t.id] + b);
    hide InOrder;
    DistinctParts(a, [t.id] + b);
    DistinctParts([t.id], b);
    assert t.id in [t.id];
  }

  lemma DistinctParts(a: seq<nat>, b: seq<nat>)
    requires Distinct(a + b)
    ensures Distinct(a) && Distinct(b) && forall x :: x in a ==> x !in b
  {
    var s := a + b;
    assert forall i :: 0 <= i < |a| ==> s[i] == a[i];
    assert forall i :: 0 <= i < |b| ==> s[|a| + i] == b[i];
  }

  /** The columns differ at most at the nodes of t. */
  ghost predicate OnlyAt(left: seq<int>, right: seq<int>, left1: seq<int>, right1: seq<int>, t: Tree) {
    && |left| == |right| == |left1| == |right1|
    && forall x :: 0 <= x < |left| && x !in InOrder(t) ==> left1[x] == left[x] && right1[x] == right[x]
  }

  /** A new subtree under the root. */
  lemma RegraftLeft(left: seq<int>, right: seq<int>, t: Tree, left1: seq<int>, right1: seq<int>, c: int, l: Tree)
    requires t.Node? && IsTree(left, right, t.id, t) && Distinct(InOrder(t))
    requires OnlyAt(left, right, left1, right1, t.l) && IsTree(left1, right1, c, l) && t.id !in InOrder(l)
    ensures IsTree(left1[t.id := c], right1, t.id, Node(l, t.id, t.r)) &&
            OnlyAt(left, right, left1[t.id := c], right1, t)
  {
    hide InOrder;
    DistinctNode(t);
    Framed(left1, right1, c, l, left1[t.id := c], right1);
    Framed(left, right, right[t.id], t.r, left1[t.id := c], right1);
  }

  lemma RegraftRight(left: seq<int>, right: seq<int>, t: Tree, left1: seq<int>, right1: seq<int>, c: int, r: Tree)
    requires t.Node? && IsTree(left, right, t.id, t) && Distinct(InOrder(t))
    requires OnlyAt(left, right, left1, right1, t.r) && IsTree(left1, right1, c, r) && t.id !in InOrder(r)
    ensures IsTree(left1, right1[t.id := c], t.id, Node(t.l, t.id, r)) &&
            OnlyAt(left, right, left1, right1[t.id := c], t)
  {
    hide InOrder;
    DistinctNode(t);
    Framed(left1, right1, c, r, left1, right1[t.id := c]);
    Framed(left, right, left[t.id], t.l, left1, right1[t.id := c]);
  }

  /** H2K_tree_add_key: hang the tree at node into the tree at root. */
  method Add(left0: seq<int>, right0: seq<int>, key: seq<nat>, root: int, node: nat, k: nat, ghost t: Tree,
             ghost u: Tree)
      returns (left: seq<int>, right: seq<int>, root1: int)
    requires |left0| == |right0| == |key| && IsTree(left0, right0, root, t) && IsTree(left0, right0, node, u)
    requires Distinct(InOrder(t)) && forall x :: x in InOrder(t) ==> x !in InOrder(u)
    ensures IsTree(left, right, root1, AddTree(t, u, key, k)) && OnlyAt(left0, right0, left, right, t)
    decreases t
  {
    hide InOrder;
    if root == NULL { return left0, right0, node; }
    DistinctNode(t);
    var c;
    if k <= key[root] {
      left, right, c := Add(left0, right0, key, left0[root], node, k, t.l, u);
      AddMembers(t.l, u, key, k, root);
      RegraftLeft(left0, right0, t, left, right, c, AddTree(t.l, u, key, k));
      left := left[root := c];
    } else {
      left, right, c := Add(left0, right0, key, right0[root], node, k, t.r, u);
      AddMembers(t.r, u, key, k, root);
      RegraftRight(left0, right0, t, left, right, c, AddTree(t.r, u, key, k));
      right := right[root := c];
    }
    root1 := root;
  }

  // ---------------------------------------------------------------- H2K_tree_remove_key

  /** The tree without node n: its right subtree is hung into its left one. */
  ghost function RemoveTree(t: Tree, n: nat, key: seq<nat>, k: nat): Tree {
    match t
    case Leaf => Leaf
    case Node(l, id, r) =>
      if id == n then (if r.Leaf? || r.id >= |key| then l else AddTree(l, r, key, key[r.id]))
      else if id < |key| && k <= key[id] then Node(RemoveTree(l, n, key, k), id, r)
      else Node(l, id, RemoveTree(r, n, key, k))
  }

  lemma {:induction false} RankAll(t: Tree, key: seq<nat>, k: nat, b: nat)
    requires Below(t, key, b) && b < k
    ensures Rank(t, key, k) == |InOrder(t)|
  {
    if t.Leaf? {
    } else {
      forall x
        ensures x in InOrder(t) <==> x in InOrder(t.l) || x == t.id || x in InOrder(t.r)
      {
        InNode(t.l, t.id, t.r, x);
      }
      RankAll(t.r, key, k, b);
    }
  }

  /** Hanging a tree of greater keys into a tree of lesser ones puts it behind them. */
  lemma JoinInOrder(l: Tree, r: Tree, key: seq<nat>, b: nat, k: nat)
    requires Ordered(l, key) && Ordered(r, key) && Below(l, key, b) && Above(r, key, b) && b < k
    ensures InOrder(AddTree(l, r, key, k)) == InOrder(l) + InOrder(r)
    ensures Ordered(AddTree(l, r, key, k), key)
  {
    hide InOrder, Rank, AddTree, Splice, Ordered;
    AddInOrder(l, r, key, k);
    RankAll(l, key, k, b);
    SpliceEnd(InOrder(l), InOrder(r));
    AddOrdered(l, r, key, k);
  }

  lemma SpliceEnd(s: seq<nat>, u: seq<nat>)
    ensures Splice(s, |s|, u) == s + u
  {
  }

  lemma WithoutIn(a: seq<nat>, b: seq<nat>, n: nat)
    requires Distinct(a + b) && n in a + b
    ensures Without(a + b, n) == if n in a then Without(a, n) + b else a + Without(b, n)
  {
    hide Without, RemoveAt;
    if n in a {
      var i := IndexOf(a, n);
      assert forall j :: 0 <= j < |a| ==> (a + b)[j] == a[j];
      WithoutAt(a + b, i);
      WithoutAt(a, i);
      assert RemoveAt(a + b, i) == RemoveAt(a, i) + b by { SpliceOut(a, b, i); }
    } else {
      var i := IndexOf(b, n);
      assert (a + b)[|a| + i] == n;
      assert forall j :: 0 <= j < |b| ==> (a + b)[|a| + j] == b[j];
      WithoutAt(a + b, |a| + i);
      WithoutAt(b, i);
      assert RemoveAt(a + b, |a| + i) == a + RemoveAt(b, i) by { SpliceOutRight(a, b, i); }
    }
  }

  lemma SpliceOut(a: seq<nat>, b: seq<nat>, i: nat)
    requires i < |a|
    ensures RemoveAt(a + b, i) == RemoveAt(a, i) + b
  {
  }

  lemma SpliceOutRight(a: seq<nat>, b: seq<nat>, i: nat)
    requires i < |b|
    ensures RemoveAt(a + b, |a| + i) == a + RemoveAt(b, i)
  {
  }

  lemma WithoutAt(s: seq<nat>, i: nat)
    requires Distinct(s) && i < |s|
    ensures Without(s, s[i]) == RemoveAt(s, i)
  {
  }

  lemma InOrderNode(l: Tree, id: nat, r: Tree)
    ensures InOrder(Node(l, id, r)) == InOrder(l) + ([id] + InOrder(r))
  {
    assert InOrder(l) + [id] + InOrder(r) == InOrder(l) + ([id] + InOrder(r));
  }

  /** remove deletes exactly the named node and keeps the order of the others. */
  lemma {:induction false} RemoveInOrder(t: Tree, n: nat, key: seq<nat>)
    requires Ordered(t, key) && Distinct(InOrder(t)) && n in InOrder(t) && n < |key|
    ensures InOrder(RemoveTree(t, n, key, key[n])) == Without(InOrder(t), n)
    ensures Ordered(RemoveTree(t, n, key, key[n]), key)
  {
    hide Without, RemoveAt, AddTree, InOrder;
    EmptyOrder();
    DistinctNode(t);
    var a, b := InOrder(t.l), InOrder(t.r);
    InOrderNode(t.l, t.id, t.r);
    WithoutIn(a, [t.id] + b, n);
    if n == t.id {
      WithoutRoot(a, b, n);
      if t.r.Node? {
        InNode(t.r.l, t.r.id, t.r.r, t.r.id);
        JoinInOrder(t.l, t.r, key, key[t.id], key[t.r.id]);
      }
    } else if n in a {
      RemoveInOrder(t.l, n, key);
      WithoutMembers(a, n);
      InOrderNode(RemoveTree(t.l, n, key, key[n]), t.id, t.r);
    } else {
      DistinctTail(a, t.id, b);
      WithoutIn([t.id], b, n);
      RemoveInOrder(t.r, n, key);
      WithoutMembers(b, n);
      InOrderNode(t.l, t.id, RemoveTree(t.r, n, key, key[n]));
    }
  }

  lemma DistinctTail(a: seq<nat>, n: nat, b: seq<nat>)
    requires Distinct(a + ([n] + b))
    ensures Distinct([n] + b)
  {
    var s := a + ([n] + b);
    assert forall i :: 0 <= i < |b| + 1 ==> s[|a| + i] == ([n] + b)[i];
  }

  lemma WithoutRoot(a: seq<nat>, b: seq<nat>, n: nat)
    requires Distinct(a + ([n] + b)) && n !in a
    ensures Without([n] + b, n) == b
  {
    DistinctTail(a, n, b);
    WithoutAt([n] + b, 0);
  }

  lemma {:induction false} RemoveSome(t: Tree, n: nat, key: seq<nat>, k: nat, x: nat)
    ensures x in InOrder(RemoveTree(t, n, key, k)) ==> x in InOrder(t)
  {
    if t.Leaf? {
    } else {
      if t.id == n {
        if t.r.Node? && t.r.id < |key| { AddMembers(t.l, t.r, key, key[t.r.id], x); }
      } else {
        RemoveSome(t.l, n, key, k, x);
        RemoveSome(t.r, n, key, k, x);
      }
    }
  }

  /** H2K_tree_remove_key. */
  method Remove(left0: seq<int>, right0: seq<int>, key: seq<nat>, root: int, node: nat, k: nat, ghost t: Tree)
      returns (left: seq<int>, right: seq<int>, root1: int)
    requires |left0| == |right0| == |key| && IsTree(left0, right0, root, t) && Distinct(InOrder(t))
    ensures IsTree(left, right, root1, RemoveTree(t, node, key, k)) && OnlyAt(left0, right0, left, right, t)
    decreases t
  {
    hide InOrder, AddTree;
    if root == NULL { return left0, right0, root; }
    DistinctNode(t);
    if root == node {
      if right0[node] == NULL { return left0, right0, left0[node]; }
      left, right, root1 := Add(left0, right0, key, left0[node], right0[node], key[right0[node]], t.l, t.r);
      return;
    }
    var c;
    if k <= key[root] {
      left, right, c := Remove(left0, right0, key, left0[root], node, k, t.l);
      RemoveSome(t.l, node, key, k, root);
      RegraftLeft(left0, right0, t, left, right, c, RemoveTree(t.l, node, key, k));
      left := left[root := c];
    } else {
      left, right, c := Remove(left0, right0, key, right0[root], node, k, t.r);
      RemoveSome(t.r, node, key, k, root);
      RegraftRight(left0, right0, t, left, right, c, RemoveTree(t.r, node, key, k));
      right := right[root := c];
    }
    root1 := root;
  }

  // ---------------------------------------------------------------- H2K_tree_bisect

  ghost function UpTo(t: Tree, key: seq<nat>, k: nat): Tree {
    match t
    case Leaf => Leaf
    case Node(l, id, r) => if id < |key| && key[id] <= k then Node(l, id, UpTo(r, key, k)) else UpTo(l, key, k)
  }

  ghost function Beyond(t: Tree, key: seq<nat>, k: nat): Tree {
    match t
    case Leaf => Leaf
    case Node(l, id, r) => if id < |key| && key[id] <= k then Beyond(r, key, k) else Node(Beyond(l, key, k), id, r)
  }

  lemma {:induction false} BisectMembers(t: Tree, key: seq<nat>, k: nat)
    ensures InOrder(UpTo(t, key, k)) + InOrder(Beyond(t, key, k)) == InOrder(t)
  {
    hide InOrder;
    EmptyOrder();
    if t.Leaf? {
    } else if t.id < |key| && key[t.id] <= k {
      BisectMembers(t.r, key, k);
      InOrderNode(t.l, t.id, t.r);
      InOrderNode(t.l, t.id, UpTo(t.r, key, k));
      Regroup(InOrder(t.l), [t.id], InOrder(UpTo(t.r, key, k)), InOrder(Beyond(t.r, key, k)));
    } else {
      BisectMembers(t.l, key, k);
      InOrderNode(t.l, t.id, t.r);
      InOrderNode(Beyond(t.l, key, k), t.id, t.r);
      Regroup(InOrder(UpTo(t.l, key, k)), InOrder(Beyond(t.l, key, k)), [t.id] + InOrder(t.r), []);
    }
  }

  lemma Regroup(a: seq<nat>, b: seq<nat>, c: seq<nat>, d: seq<nat>)
    ensures (a + (b + c)) + d == a + (b + (c + d)) && a + (b + c) == (a + b) + c
  {
  }

  /** bisect loses no node and yields search trees of the keys up to k and beyond k. */
  lemma {:induction false} BisectSplits(t: Tree, key: seq<nat>, k: nat)
    requires Ordered(t, key)
    ensures InOrder(UpTo(t, key, k)) + InOrder(Beyond(t, key, k)) == InOrder(t)
    ensures Below(UpTo(t, key, k), key, k) && Ordered(UpTo(t, key, k), key)
    ensures Above(Beyond(t, key, k), key, k) && Ordered(Beyond(t, key, k), key)
  {
    hide InOrder;
    EmptyOrder();
    BisectMembers(t, key, k);
    if t.Leaf? {
    } else {
      BisectSplits(t.l, key, k);
      BisectSplits(t.r, key, k);
      PartOf(UpTo(t.r, key, k), Beyond(t.r, key, k), t.r);
      PartOf(UpTo(t.l, key, k), Beyond(t.l, key, k), t.l);
      forall x
        ensures x in InOrder(Node(t.l, t.id, UpTo(t.r, key, k))) <==>
                  x in InOrder(t.l) || x == t.id || x in InOrder(UpTo(t.r, key, k))
        ensures x in InOrder(Node(Beyond(t.l, key, k), t.id, t.r)) <==>
                  x in InOrder(Beyond(t.l, key, k)) || x == t.id || x in InOrder(t.r)
      {
        InNode(t.l, t.id, UpTo(t.r, key, k), x);
        InNode(Beyond(t.l, key, k), t.id, t.r, x);
      }
    }
  }

  lemma PartOf(a: Tree, b: Tree, t: Tree)
    requires InOrder(a) + InOrder(b) == InOrder(t)
    ensures forall x :: x in InOrder(t) <==> x in InOrder(a) || x in InOrder(b)
  {
  }

  method Bisect(left0: seq<int>, right0: seq<int>, key: seq<nat>, root: int, k: nat, ghost t: Tree)
      returns (left: seq<int>, right: seq<int>, le: int, gt: int)
    requires |left0| == |right0| == |key| && IsTree(left0, right0, root, t) && Distinct(InOrder(t))
    ensures IsTree(left, right, le, UpTo(t, key, k)) && IsTree(left, right, gt, Beyond(t, key, k))
    ensures OnlyAt(left0, right0, left, right, t)
    decreases t
  {
    hide InOrder;
    if root == NULL { return left0, right0, NULL, NULL; }
    DistinctNode(t);
    var c;
    if key[root] <= k {
      left, right, c, gt := Bisect(left0, right0, key, right0[root], k, t.r);
      BisectMembers(t.r, key, k);
      PartOf(UpTo(t.r, key, k), Beyond(t.r, key, k), t.r);
      RegraftRight(left0, right0, t, left, right, c, UpTo(t.r, key, k));
      Framed(left, right, gt, Beyond(t.r, key, k), left, right[root := c]);
      right := right[root := c];
      le := root;
    } else {
      left, right, le, c := Bisect(left0, right0, key, left0[root], k, t.l);
      BisectMembers(t.l, key, k);
      PartOf(UpTo(t.l, key, k), Beyond(t.l, key, k), t.l);
      RegraftLeft(left0, right0, t, left, right, c, Beyond(t.l, key, k));
      Framed(left, right, le, UpTo(t.l, key, k), left[root := c], right);
      left := left[root := c];
      gt := root;
    }
  }

  // ---------------------------------------------------------------- H2K_tree_destructive_iterate

  /** Visit every node once, in order, rotating left children up until there is none. */
  method Iterate(left0: seq<int>, right0: seq<int>, root0: int, ghost t: Tree)
      returns (visited: seq<nat>, left: seq<int>, right: seq<int>)
    requires |left0| == |right0| && IsTree(left0, right0, root0, t) && Distinct(InOrder(t))
    ensures visited == InOrder(t) && |left| == |left0| && |right| == |right0|
    ensures OnlyAt(left0, right0, left, right, t)
  {
    hide InOrder;
    left, right, visited := left0, right0, [];
    var root := root0;
    ghost var u := t;
    EmptyOrder();
    while root != NULL
      invariant |left| == |left0| && |right| == |right0| && IsTree(left, right, root, u) && Distinct(InOrder(u))
      invariant visited + InOrder(u) == InOrder(t)
      invariant OnlyAt(left0, right0, left, right, t)
      decreases |InOrder(u)|, if u.Node? then |InOrder(u.l)| else 0
    {
      DistinctNode(u);
      Inside(visited, u, t);
      if left[root] == NULL {
        PopFirst(u);
        assert visited + InOrder(u) == (visited + [root]) + InOrder(u.r);
        visited := visited + [root];
        root := right[root];
        u := u.r;
      } else {
        var tmp := left[root];
        Rotated(left, right, u);
        left := left[root := right[tmp]];
        right := right[tmp := root];
        root := tmp;
        u := Node(u.l.l, u.l.id, Node(u.l.r, u.id, u.r));
      }
    }
    EmptyOrder();
  }

  lemma EmptyOrder()
    ensures InOrder(Leaf) == []
  {
  }

  lemma Inside(v: seq<nat>, u: Tree, t: Tree)
    requires v + InOrder(u) == InOrder(t)
    ensures forall x :: x in InOrder(u) ==> x in InOrder(t)
  {
  }

  lemma PopFirst(u: Tree)
    requires u.Node? && u.l.Leaf?
    ensures InOrder(u) == [u.id] + InOrder(u.r)
  {
  }

  lemma Rotated(left: seq<int>, right: seq<int>, u: Tree)
    requires |left| == |right| && u.Node? && u.l.Node? && IsTree(left, right, u.id, u) && Distinct(InOrder(u))
    ensures var v := Node(u.l.l, u.l.id, Node(u.l.r, u.id, u.r));
            && InOrder(v) == InOrder(u) && |InOrder(v.l)| < |InOrder(u.l)|
            && u.id in InOrder(u) && u.l.id in InOrder(u) && u.l.id < |left|
            && IsTree(left[u.id := right[u.l.id]], right[u.l.id := u.id], u.l.id, v)
  {
    var y, x := u.id, u.l.id;
    var left1, right1 := left[y := right[x]], right[x := y];
    DistinctNode(u);
    DistinctNode(u.l);
    RotatedOrder(u);
    hide InOrder;
    Framed(left, right, left[x], u.l.l, left1, right1);
    Framed(left, right, right[x], u.l.r, left1, right1);
    Framed(left, right, right[y], u.r, left1, right1);
  }

  lemma RotatedOrder(u: Tree)
    requires u.Node? && u.l.Node?
    ensures InOrder(Node(u.l.l, u.l.id, Node(u.l.r, u.id, u.r))) == InOrder(u) && |InOrder(u.l.l)| < |InOrder(u.l)|
  {
    var a, b, c := InOrder(u.l.l), InOrder(u.l.r), InOrder(u.r);
    assert a + [u.l.id] + (b + [u.id] + c) == (a + [u.l.id] + b) + [u.id] + c;
  }

  /** In an ordered tree the visit is by non-decreasing key. */
  lemma {:induction false} InOrderSorted(t: Tree, key: seq<nat>)
    requires Ordered(t, key)
    ensures Sorted(InOrder(t), key)
  {
    if t.Leaf? {
    } else {
      InOrderSorted(t.l, key);
      InOrderSorted(t.r, key);
      var s, a := InOrder(t), InOrder(t.l);
      forall i, j | 0 <= i < j < |s|
        ensures s[i] < |key| && s[j] < |key| && key[s[i]] <= key[s[j]]
      {
        if i < |a| { assert s[i] in a; }
        if j < |a| { assert s[j] in a; } else if j > |a| { assert s[j] in InOrder(t.r); }
        if i > |a| { assert s[i] in InOrder(t.r); }
      }
    }
  }

  /** H2K_tree_min: the first node, or NULL. */
  method Min(left: seq<int>, root: int, ghost right: seq<int>, ghost t: Tree) returns (m: int)
    requires IsTree(left, right, root, t)
    ensures if t.Leaf? then m == NULL else InOrder(t) != [] && m == InOrder(t)[0]
    decreases t
  {
    if root == NULL || left[root] == NULL { return root; }
    m := Min(left, left[root], right, t.l);
  }
}
