/** The kernel heap of kernel/mem/alloc/alloc.ref.c: a first-fit allocator with
    boundary tags inside one word array.  A tag holds the size of its own block
    and the free bit of the PREVIOUS block; a free block that is followed by a
    real block repeats its size in its last word. */
module Heap {

  /** Words per smallest block; the first tag is the last word of the first unit. */
  const UNIT: nat := 8

  /** Every heap word, read as a tag. */
  datatype Tag = Tag(free: bool, released: bool, size: nat)

  datatype Kind = Free | Used | Released

  /** The partition of the heap: block i is the words cuts[i] .. cuts[i+1], its
      tag is word cuts[i], and the last cut is the size-0 sentinel. */
  datatype Partition = Partition(cuts: seq<nat>, kinds: seq<Kind>)

  ghost predicate WellFormed(p: Partition) {
    var n := |p.kinds|;
    && |p.cuts| == n + 1
    && n >= 1
    && p.cuts[0] == UNIT - 1
    && (forall i, j :: 0 <= i < j <= n ==> p.cuts[i] < p.cuts[j])
    && (forall i :: 0 <= i <= n ==> Aligned(p.cuts[i]))
    && (forall i, j :: 0 <= i < j < n && j == i + 1 && p.kinds[i].Free? ==> !p.kinds[j].Free?)
  }

  /** A tag stands just before a unit boundary. */
  ghost predicate Aligned(word: nat) {
    word % UNIT == UNIT - 1
  }

  lemma PointerAligned(word: nat)
    requires Aligned(word)
    ensures (word + 1) % UNIT == 0
  {
  }

  /** The words s .. e hold one block of the given kind; word e is the next tag. */
  ghost predicate BlockAt(h: seq<Tag>, s: nat, e: nat, kind: Kind, lastBlock: bool) {
    && s < e < |h|
    && h[s].size == e - s
    && h[s].released == kind.Released?
    && h[e].free == kind.Free?
    && (kind.Free? && !lastBlock ==> h[e-1].size == e - s)
  }

  ghost predicate Block(h: seq<Tag>, p: Partition, i: nat)
    requires |p.cuts| == |p.kinds| + 1 && i < |p.kinds|
  {
    BlockAt(h, p.cuts[i], p.cuts[i+1], p.kinds[i], i == |p.kinds| - 1)
  }

  /** The words h are a heap whose blocks are exactly p. */
  ghost predicate Represents(h: seq<Tag>, p: Partition) {
    var n := |p.kinds|;
    && WellFormed(p)
    && p.cuts[n] == |h| - 1
    && h[|h| - 1].size == 0
    && !h[UNIT - 1].free
    && forall i :: 0 <= i < n ==> Block(h, p, i)
  }

  /** Blocks a .. b-1 become one free block. */
  ghost function Coalesced(p: Partition, a: nat, b: nat): Partition
    requires |p.cuts| == |p.kinds| + 1 && a < b <= |p.kinds|
  {
    Partition(p.cuts[..a+1] + p.cuts[b..], p.kinds[..a] + [Free] + p.kinds[b..])
  }

  /** The first block, and one past the last, that join block k when it is freed. */
  ghost function JoinFrom(p: Partition, k: nat): nat
    requires k < |p.kinds|
  {
    if k > 0 && p.kinds[k-1].Free? then k - 1 else k
  }

  ghost function JoinTo(p: Partition, k: nat): nat
    requires k < |p.kinds|
  {
    if k + 1 < |p.kinds| && p.kinds[k+1].Free? then k + 2 else k + 1
  }

  /** What freeing block k does to the partition. */
  ghost function Freed(p: Partition, k: nat): Partition
    requires |p.cuts| == |p.kinds| + 1 && k < |p.kinds|
  {
    Coalesced(p, JoinFrom(p, k), JoinTo(p, k))
  }

  /** Free block k is cut at word c into a used block and a free rest. */
  ghost function Split(p: Partition, k: nat, c: nat): Partition
    requires |p.cuts| == |p.kinds| + 1 && k < |p.kinds|
  {
    Partition(p.cuts[..k+1] + [c] + p.cuts[k+1..], p.kinds[..k] + [Used, Free] + p.kinds[k+1..])
  }

  /** What taking w words from free block k does: split only if a whole unit is left. */
  ghost function Taken(p: Partition, k: nat, w: nat): Partition
    requires |p.cuts| == |p.kinds| + 1 && k < |p.kinds|
  {
    if p.cuts[k+1] - p.cuts[k] - w >= UNIT then Split(p, k, p.cuts[k] + w) else p.(kinds := p.kinds[k := Used])
  }

  /** The words of blocks of kind K, as (start, end) intervals. */
  ghost function Blocks(p: Partition, kind: Kind): set<(nat, nat)>
    requires |p.cuts| == |p.kinds| + 1
  {
    set i | 0 <= i < |p.kinds| && p.kinds[i] == kind :: (p.cuts[i], p.cuts[i+1])
  }

  /** Block i is reclaimed and cannot serve the request. */
  ghost predicate TooSmall(p: Partition, i: nat, request: nat)
    requires |p.cuts| == |p.kinds| + 1 && i < |p.kinds|
  {
    !p.kinds[i].Released? && (p.kinds[i].Free? ==> 4 * (p.cuts[i+1] - p.cuts[i] - 1) < request)
  }

  /** h1 has the same contents as h in all the given blocks, tags apart. */
  ghost predicate SameContents(h: seq<Tag>, h1: seq<Tag>, blocks: set<(nat, nat)>) {
    |h1| == |h| && forall b, j :: b in blocks && b.0 < j < b.1 && j < |h| ==> h1[j] == h[j]
  }

  // ---------------------------------------------------------------- requests

  /** WORDS and UNITS of alloc.ref.c:12-13, both rounding past a full word or unit. */
  function RequestWords(request: nat): (w: nat)
    ensures w % UNIT == 0 && w >= UNIT
    ensures 4 * (w - UNIT) <= request + 4 < 4 * w
  {
    var words := (request + 4) / 4;
    ((words + UNIT) / UNIT) * UNIT
  }

  // ---------------------------------------------------------------- the word edits of one operation

  /** h1 differs from h only inside block s .. e, in its tag and in its end's free bit. */
  ghost predicate EditsBlock(h: seq<Tag>, h1: seq<Tag>, s: nat, e: nat) {
    && |h1| == |h| && s < e < |h|
    && (forall j :: 0 <= j < s || e < j < |h| ==> h1[j] == h[j])
    && h1[s].free == h[s].free
    && h1[e].size == h[e].size && h1[e].released == h[e].released
  }

  lemma BlockKept(h: seq<Tag>, h1: seq<Tag>, s: nat, e: nat, s': nat, e': nat, kind: Kind, lastBlock: bool)
    requires EditsBlock(h, h1, s, e) && BlockAt(h, s', e', kind, lastBlock)
    requires e' <= s || e <= s'
    ensures BlockAt(h1, s', e', kind, lastBlock)
  {
  }

  /** The last block needs no footer. */
  lemma LastWeaker(h: seq<Tag>, s: nat, e: nat, kind: Kind, lastBlock: bool)
    requires BlockAt(h, s, e, kind, false)
    ensures BlockAt(h, s, e, kind, lastBlock)
  {
  }

  lemma CoalescedAt(p: Partition, a: nat, b: nat)
    requires |p.cuts| == |p.kinds| + 1 && a < b <= |p.kinds|
    ensures var q := Coalesced(p, a, b);
            && |q.cuts| == |q.kinds| + 1 == |p.cuts| - (b - a - 1)
            && (forall i :: 0 <= i <= a ==> q.cuts[i] == p.cuts[i])
            && (forall i :: a < i < |q.cuts| ==> q.cuts[i] == p.cuts[i + (b - a - 1)])
            && (forall i :: 0 <= i < a ==> q.kinds[i] == p.kinds[i])
            && q.kinds[a] == Free
            && (forall i :: a < i < |q.kinds| ==> q.kinds[i] == p.kinds[i + (b - a - 1)])
  {
    SplicedAt(p.cuts, a + 1, b);
    SplicedAt(p.kinds[..a] + [Free] + p.kinds[a+1..], a + 1, b);
  }

  /** Leaving out the entries from i up to j. */
  lemma SplicedAt<T>(s: seq<T>, i: nat, j: nat)
    requires i <= j <= |s|
    ensures var q := s[..i] + s[j..];
            && |q| == |s| - (j - i)
            && (forall n :: 0 <= n < i ==> q[n] == s[n])
            && (forall n :: i <= n < |q| ==> q[n] == s[n + (j - i)])
  {
  }

  lemma FreedWellFormed(p: Partition, k: nat)
    requires WellFormed(p) && k < |p.kinds|
    ensures WellFormed(Freed(p, k))
  {
    CoalescedAt(p, JoinFrom(p, k), JoinTo(p, k));
  }

  lemma CoalescedBlock(h: seq<Tag>, p: Partition, a: nat, b: nat, h1: seq<Tag>, i: nat)
    requires Represents(h, p) && a < b <= |p.kinds| && i < |Coalesced(p, a, b).kinds|
    requires EditsBlock(h, h1, p.cuts[a], p.cuts[b])
    requires BlockAt(h1, p.cuts[a], p.cuts[b], Free, false)
    ensures |Coalesced(p, a, b).cuts| == |Coalesced(p, a, b).kinds| + 1
    ensures Block(h1, Coalesced(p, a, b), i)
  {
    hide Coalesced, BlockAt, EditsBlock, Aligned;
    CoalescedAt(p, a, b);
    LastWeaker(h1, p.cuts[a], p.cuts[b], Free, a == |Coalesced(p, a, b).kinds| - 1);
    if i != a {
      var j := if i < a then i else i + (b - a - 1);
      assert Block(h, p, j);
      BlockKept(h, h1, p.cuts[a], p.cuts[b], p.cuts[j], p.cuts[j+1], p.kinds[j], j == |p.kinds| - 1);
    }
  }

  lemma CoalescedRepresents(h: seq<Tag>, p: Partition, a: nat, b: nat, h1: seq<Tag>)
    requires Represents(h, p) && a < b <= |p.kinds| && WellFormed(Coalesced(p, a, b))
    requires EditsBlock(h, h1, p.cuts[a], p.cuts[b])
    requires BlockAt(h1, p.cuts[a], p.cuts[b], Free, false)
    ensures Represents(h1, Coalesced(p, a, b))
  {
    var q := Coalesced(p, a, b);
    CoalescedAt(p, a, b);
    forall i | 0 <= i < |q.kinds|
      ensures Block(h1, q, i)
    {
      CoalescedBlock(h, p, a, b, h1, i);
    }
  }

  /** What the words say about the neighbours of the used block whose tag is t:
      it joins the words s .. e when it is freed. */
  ghost predicate Neighbours(h: seq<Tag>, t: nat, s: nat, e: nat) {
    && 0 < t < |h| && s <= t && t + h[t].size <= e < |h|
    && h[t].size > 0
    && (h[t].free <==> s != t)
    && (s != t ==> t - h[t-1].size == s && h[s].size == t - s && !h[s].released)
    && var next := t + h[t].size;
    && (h[next].size == 0 ==> e == next)
    && (h[next].size != 0 ==>
          && next + h[next].size < |h|
          && e == if h[next + h[next].size].free then next + h[next].size else next)
  }

  lemma NeighboursOf(h: seq<Tag>, p: Partition, k: nat)
    requires Represents(h, p) && k < |p.kinds| && !p.kinds[k].Free?
    ensures Neighbours(h, p.cuts[k], p.cuts[JoinFrom(p, k)], p.cuts[JoinTo(p, k)])
  {
    assert Block(h, p, k);
    if k > 0 { assert Block(h, p, k - 1); }
    if k + 1 < |p.kinds| { assert Block(h, p, k + 1); }
  }

  lemma BlockIn(p: Partition, kind: Kind, i: nat)
    requires |p.cuts| == |p.kinds| + 1 && i < |p.kinds| && p.kinds[i] == kind
    ensures (p.cuts[i], p.cuts[i+1]) in Blocks(p, kind)
  {
  }

  lemma BlockIndex(p: Partition, kind: Kind, b: (nat, nat)) returns (i: nat)
    requires |p.cuts| == |p.kinds| + 1 && b in Blocks(p, kind)
    ensures i < |p.kinds| && p.kinds[i] == kind && b == (p.cuts[i], p.cuts[i+1])
  {
    i :| 0 <= i < |p.kinds| && p.kinds[i] == kind && b == (p.cuts[i], p.cuts[i+1]);
  }

  /** Block i after a free is block j before, or the joined one. */
  lemma FreedBlockKept(p: Partition, k: nat, i: nat, j: nat)
    requires WellFormed(p) && k < |p.kinds| && i < |Freed(p, k).kinds|
    requires j == if i < JoinFrom(p, k) then i else i + (JoinTo(p, k) - JoinFrom(p, k) - 1)
    ensures var q := Freed(p, k);
            && |q.cuts| == |q.kinds| + 1
            && (i != JoinFrom(p, k) ==>
                  q.kinds[i] == p.kinds[j] && q.cuts[i] == p.cuts[j] && q.cuts[i+1] == p.cuts[j+1])
            && (i == JoinFrom(p, k) ==> q.kinds[i] == Free)
  {
    CoalescedAt(p, JoinFrom(p, k), JoinTo(p, k));
  }

  lemma FreedSize(p: Partition, k: nat)
    requires WellFormed(p) && k < |p.kinds|
    ensures |Freed(p, k).kinds| == |p.kinds| - (JoinTo(p, k) - JoinFrom(p, k) - 1) &&
            JoinFrom(p, k) < |Freed(p, k).kinds|
  {
  }

  lemma FreedBlocksSubset(p: Partition, k: nat, kind: Kind)
    requires WellFormed(p) && k < |p.kinds| && !kind.Free?
    ensures |Freed(p, k).cuts| == |Freed(p, k).kinds| + 1
    ensures Blocks(Freed(p, k), kind) <= Blocks(p, kind) - {(p.cuts[k], p.cuts[k+1])}
  {
    hide Blocks, Freed, Aligned;
    var q, a, b := Freed(p, k), JoinFrom(p, k), JoinTo(p, k);
    FreedSize(p, k);
    FreedBlockKept(p, k, a, b - 1);
    forall w | w in Blocks(q, kind)
      ensures w in Blocks(p, kind) && w != (p.cuts[k], p.cuts[k+1])
    {
      var i := BlockIndex(q, kind, w);
      var j := if i < a then i else i + (b - a - 1);
      FreedBlockKept(p, k, i, j);
      BlockIn(p, kind, j);
    }
  }

  /** Freeing block k takes exactly that block out of use. */
  lemma FreedBlocks(p: Partition, k: nat, kind: Kind)
    requires WellFormed(p) && k < |p.kinds| && !kind.Free?
    ensures |Freed(p, k).cuts| == |Freed(p, k).kinds| + 1
    ensures Blocks(Freed(p, k), kind) == Blocks(p, kind) - {(p.cuts[k], p.cuts[k+1])}
  {
    hide Blocks, Freed, Aligned;
    var q, a, b := Freed(p, k), JoinFrom(p, k), JoinTo(p, k);
    FreedBlocksSubset(p, k, kind);
    FreedSize(p, k);
    forall w | w in Blocks(p, kind) && w != (p.cuts[k], p.cuts[k+1])
      ensures w in Blocks(q, kind)
    {
      var j := BlockIndex(p, kind, w);
      var i := if j < a then j else j - (b - a - 1);
      FreedBlockKept(p, k, i, j);
      BlockIn(q, kind, i);
    }
  }

  /** Reclaiming released block k keeps the used blocks and the blocks before the join. */
  lemma ReclaimKeeps(p: Partition, k: nat, request: nat)
    requires WellFormed(p) && k < |p.kinds| && p.kinds[k].Released?
    requires forall i :: 0 <= i < k ==> TooSmall(p, i, request)
    ensures var q, a := Freed(p, k), JoinFrom(p, k);
            && |q.cuts| == |q.kinds| + 1 && a < |q.kinds|
            && Blocks(q, Used) == Blocks(p, Used)
            && Blocks(q, Released) < Blocks(p, Released)
            && forall i :: 0 <= i < a ==> TooSmall(q, i, request)
  {
    hide Coalesced;
    FreedBlocks(p, k, Used);
    FreedBlocks(p, k, Released);
    CoalescedAt(p, JoinFrom(p, k), JoinTo(p, k));
    assert (p.cuts[k], p.cuts[k+1]) in Blocks(p, Released);
    forall i | 0 <= i < JoinFrom(p, k)
      ensures TooSmall(Freed(p, k), i, request)
    {
      assert TooSmall(p, i, request);
    }
  }

  /** Two blocks never overlap. */
  lemma BlocksDisjoint(p: Partition, i: nat, j: nat)
    requires WellFormed(p) && i < j < |p.kinds|
    ensures p.cuts[i+1] <= p.cuts[j]
  {
  }

  lemma EditKeepsOthers(h: seq<Tag>, h1: seq<Tag>, p: Partition, k: nat, kind: Kind)
    requires WellFormed(p) && k < |p.kinds| && EditsBlock(h, h1, p.cuts[k], p.cuts[k+1])
    requires p.kinds[k] != kind
    ensures SameContents(h, h1, Blocks(p, kind))
  {
    forall b, j | b in Blocks(p, kind) && b.0 < j < b.1 && j < |h|
      ensures h1[j] == h[j]
    {
      var i :| 0 <= i < |p.kinds| && p.kinds[i] == kind && b == (p.cuts[i], p.cuts[i+1]);
      if i < k { BlocksDisjoint(p, i, k); } else { BlocksDisjoint(p, k, i); }
    }
  }

  // ---------------------------------------------------------------- taking a block

  lemma SplitAt(p: Partition, k: nat, c: nat)
    requires |p.cuts| == |p.kinds| + 1 && k < |p.kinds|
    ensures var q := Split(p, k, c);
            && |q.cuts| == |q.kinds| + 1 == |p.cuts| + 1
            && (forall i :: 0 <= i <= k ==> q.cuts[i] == p.cuts[i])
            && q.cuts[k+1] == c
            && (forall i :: k + 1 < i < |q.cuts| ==> q.cuts[i] == p.cuts[i-1])
            && (forall i :: 0 <= i < k ==> q.kinds[i] == p.kinds[i])
            && q.kinds[k] == Used && q.kinds[k+1] == Free
            && (forall i :: k + 1 < i < |q.kinds| ==> q.kinds[i] == p.kinds[i-1])
  {
  }

  lemma SplitWellFormed(p: Partition, k: nat, c: nat)
    requires WellFormed(p) && k < |p.kinds| && p.kinds[k].Free? && Aligned(c) && p.cuts[k] < c < p.cuts[k+1]
    ensures WellFormed(Split(p, k, c))
  {
    hide Split, Aligned;
    SplitAt(p, k, c);
    var q := Split(p, k, c);
    forall i, j | 0 <= i < j <= |q.kinds|
      ensures q.cuts[i] < q.cuts[j]
    {
      if i <= k && j > k + 1 { assert p.cuts[i] < p.cuts[j-1]; }
    }
  }

  lemma SplitBlock(h: seq<Tag>, p: Partition, k: nat, c: nat, h1: seq<Tag>, i: nat)
    requires Represents(h, p) && k < |p.kinds| && i < |Split(p, k, c).kinds|
    requires EditsBlock(h, h1, p.cuts[k], p.cuts[k+1])
    requires BlockAt(h1, p.cuts[k], c, Used, false) && BlockAt(h1, c, p.cuts[k+1], Free, false)
    ensures |Split(p, k, c).cuts| == |Split(p, k, c).kinds| + 1
    ensures Block(h1, Split(p, k, c), i)
  {
    hide Split, BlockAt, EditsBlock, Aligned;
    SplitAt(p, k, c);
    LastWeaker(h1, c, p.cuts[k+1], Free, k == |p.kinds| - 1);
    if i < k || i > k + 1 {
      var j := if i < k then i else i - 1;
      assert Block(h, p, j);
      BlockKept(h, h1, p.cuts[k], p.cuts[k+1], p.cuts[j], p.cuts[j+1], p.kinds[j], j == |p.kinds| - 1);
    }
  }

  lemma SplitRepresents(h: seq<Tag>, p: Partition, k: nat, c: nat, h1: seq<Tag>)
    requires Represents(h, p) && k < |p.kinds| && WellFormed(Split(p, k, c))
    requires EditsBlock(h, h1, p.cuts[k], p.cuts[k+1])
    requires BlockAt(h1, p.cuts[k], c, Used, false) && BlockAt(h1, c, p.cuts[k+1], Free, false)
    ensures Represents(h1, Split(p, k, c))
  {
    var q := Split(p, k, c);
    SplitAt(p, k, c);
    forall i | 0 <= i < |q.kinds|
      ensures Block(h1, q, i)
    {
      SplitBlock(h, p, k, c, h1, i);
    }
  }

  lemma MarkedRepresents(h: seq<Tag>, p: Partition, k: nat, h1: seq<Tag>)
    requires Represents(h, p) && k < |p.kinds|
    requires EditsBlock(h, h1, p.cuts[k], p.cuts[k+1]) && BlockAt(h1, p.cuts[k], p.cuts[k+1], Used, false)
    ensures Represents(h1, p.(kinds := p.kinds[k := Used]))
  {
    var q := p.(kinds := p.kinds[k := Used]);
    forall i | 0 <= i < |q.kinds|
      ensures Block(h1, q, i)
    {
      if i != k {
        assert Block(h, p, i);
        BlockKept(h, h1, p.cuts[k], p.cuts[k+1], p.cuts[i], p.cuts[i+1], p.kinds[i], i == |p.kinds| - 1);
      }
    }
  }

  /** The words s .. e after w of them were taken. */
  ghost predicate TakenWords(h: seq<Tag>, s: nat, e: nat, w: nat) {
    if e - s - w >= UNIT then
      BlockAt(h, s, s + w, Used, false) && BlockAt(h, s + w, e, Free, false)
    else
      BlockAt(h, s, e, Used, false)
  }

  lemma AlignedOn(word: nat, w: nat)
    requires Aligned(word) && w % UNIT == 0
    ensures Aligned(word + w)
  {
  }

  lemma TakenRepresents(h: seq<Tag>, p: Partition, k: nat, w: nat, h1: seq<Tag>)
    requires Represents(h, p) && k < |p.kinds| && p.kinds[k].Free? && w % UNIT == 0 && w > 0
    requires EditsBlock(h, h1, p.cuts[k], p.cuts[k+1]) && TakenWords(h1, p.cuts[k], p.cuts[k+1], w)
    ensures Represents(h1, Taken(p, k, w))
  {
    hide Split, BlockAt, EditsBlock, Block, Aligned;
    if p.cuts[k+1] - p.cuts[k] - w >= UNIT {
      AlignedOn(p.cuts[k], w);
      SplitWellFormed(p, k, p.cuts[k] + w);
      SplitRepresents(h, p, k, p.cuts[k] + w, h1);
    } else {
      MarkedRepresents(h, p, k, h1);
    }
  }

  lemma SplitBlocks(p: Partition, k: nat, c: nat, kind: Kind)
    requires WellFormed(p) && k < |p.kinds| && p.kinds[k].Free? && !kind.Free?
    ensures var q := Split(p, k, c);
            && |q.cuts| == |q.kinds| + 1
            && Blocks(q, kind) == Blocks(p, kind) + (if kind.Used? then {(p.cuts[k], c)} else {})
  {
    hide Split, Blocks, Aligned;
    SplitAt(p, k, c);
    var q := Split(p, k, c);
    forall w | w in Blocks(q, kind)
      ensures w in Blocks(p, kind) || (kind.Used? && w == (p.cuts[k], c))
    {
      var i := BlockIndex(q, kind, w);
      if i != k { BlockIn(p, kind, if i < k then i else i - 1); }
    }
    forall w | w in Blocks(p, kind)
      ensures w in Blocks(q, kind)
    {
      var j := BlockIndex(p, kind, w);
      BlockIn(q, kind, if j < k then j else j + 1);
    }
    if kind.Used? { BlockIn(q, kind, k); }
  }

  lemma TakenBlocks(p: Partition, k: nat, w: nat, kind: Kind)
    requires WellFormed(p) && k < |p.kinds| && p.kinds[k].Free? && !kind.Free?
    ensures var q := Taken(p, k, w);
            && |q.cuts| == |q.kinds| + 1 && k < |q.kinds|
            && q.cuts[k] == p.cuts[k] && q.kinds[k] == Used
            && q.cuts[k+1] == (if p.cuts[k+1] - p.cuts[k] - w >= UNIT then p.cuts[k] + w else p.cuts[k+1])
            && Blocks(q, kind) == Blocks(p, kind) + (if kind.Used? then {(q.cuts[k], q.cuts[k+1])} else {})
  {
    hide Split, Blocks;
    if p.cuts[k+1] - p.cuts[k] - w >= UNIT {
      SplitBlocks(p, k, p.cuts[k] + w, kind);
      SplitAt(p, k, p.cuts[k] + w);
    } else {
      WholeBlocks(p, k, kind);
    }
  }

  /** Taking a free block whole. */
  lemma WholeBlocks(p: Partition, k: nat, kind: Kind)
    requires |p.cuts| == |p.kinds| + 1 && k < |p.kinds| && p.kinds[k].Free? && !kind.Free?
    ensures Blocks(p.(kinds := p.kinds[k := Used]), kind) ==
              Blocks(p, kind) + (if kind.Used? then {(p.cuts[k], p.cuts[k+1])} else {})
  {
    hide Blocks;
    var q := p.(kinds := p.kinds[k := Used]);
    forall w | w in Blocks(q, kind)
      ensures w in Blocks(p, kind) || (kind.Used? && w == (p.cuts[k], p.cuts[k+1]))
    {
      var i := BlockIndex(q, kind, w);
      if i != k { BlockIn(p, kind, i); }
    }
    forall w | w in Blocks(p, kind)
      ensures w in Blocks(q, kind)
    {
      var j := BlockIndex(p, kind, w);
      BlockIn(q, kind, j);
    }
    if kind.Used? { BlockIn(q, kind, k); }
  }

  /** A block taken is no larger than asked for. */
  lemma TakenSize(p: Partition, k: nat, w: nat)
    requires WellFormed(p) && k < |p.kinds| && w % UNIT == 0
    ensures var q := Taken(p, k, w); |q.cuts| == |q.kinds| + 1 && k < |q.kinds| && q.cuts[k+1] - q.cuts[k] <= w
  {
    hide Split;
    SplitAt(p, k, p.cuts[k] + w);
    assert Aligned(p.cuts[k]) && Aligned(p.cuts[k+1]);
  }

  /** Taking from block k, the first that fits, leaves the blocks before it alone. */
  lemma TakeKeeps(p: Partition, k: nat, w: nat, request: nat)
    requires WellFormed(p) && k < |p.kinds| && p.kinds[k].Free?
    requires forall i :: 0 <= i < k ==> TooSmall(p, i, request)
    ensures var q := Taken(p, k, w);
            && |q.cuts| == |q.kinds| + 1 && k < |q.kinds|
            && (q.cuts[k], q.cuts[k+1]) !in Blocks(p, Used)
            && forall i :: 0 <= i < k ==> TooSmall(q, i, request)
  {
    hide Split;
    SplitAt(p, k, p.cuts[k] + w);
    forall i | 0 <= i < k
      ensures TooSmall(Taken(p, k, w), i, request)
    {
      assert TooSmall(p, i, request);
    }
  }

  lemma SplitThenCoalesce(p: Partition, k: nat, c: nat)
    requires WellFormed(p) && k < |p.kinds| && p.kinds[k].Free?
    ensures |Split(p, k, c).cuts| == |Split(p, k, c).kinds| + 1
    ensures Coalesced(Split(p, k, c), k, k + 2) == p
  {
    hide Split;
    var q := Split(p, k, c);
    SplitAt(p, k, c);
    CoalescedAt(q, k, k + 2);
    assert Coalesced(q, k, k + 2).cuts == p.cuts;
    assert Coalesced(q, k, k + 2).kinds == p.kinds;
  }

  /** Freeing a block right after taking it restores the partition. */
  lemma FreeUndoesTake(p: Partition, k: nat, w: nat)
    requires WellFormed(p) && k < |p.kinds| && p.kinds[k].Free?
    ensures |Taken(p, k, w).cuts| == |Taken(p, k, w).kinds| + 1 && k < |Taken(p, k, w).kinds|
    ensures Freed(Taken(p, k, w), k) == p
  {
    hide Split, Coalesced;
    var q := Taken(p, k, w);
    if p.cuts[k+1] - p.cuts[k] - w >= UNIT {
      SplitAt(p, k, p.cuts[k] + w);
      SplitThenCoalesce(p, k, p.cuts[k] + w);
    } else {
      CoalescedAt(q, k, k + 1);
      assert Coalesced(q, k, k + 1).cuts == p.cuts;
      assert Coalesced(q, k, k + 1).kinds == p.kinds;
    }
  }

  /** The words after the blocks s .. e were joined. */
  ghost predicate JoinedWords(h: seq<Tag>, h1: seq<Tag>, s: nat, e: nat) {
    && |h1| == |h| && s < e < |h|
    && (forall j :: 0 <= j < s || e < j < |h| ==> h1[j] == h[j])
    && h1[s] == Tag(h[s].free, false, e - s) && h1[e] == h[e].(free := true) && h1[e-1].size == e - s
  }

  lemma FreedRepresents(h: seq<Tag>, p: Partition, k: nat, h1: seq<Tag>)
    requires Represents(h, p) && k < |p.kinds| && !p.kinds[k].Free?
    requires JoinedWords(h, h1, p.cuts[JoinFrom(p, k)], p.cuts[JoinTo(p, k)])
    ensures var q := Freed(p, k);
            && Represents(h1, q) && |q.cuts| == |q.kinds| + 1
            && JoinFrom(p, k) < |q.kinds| && q.kinds[JoinFrom(p, k)].Free?
            && q.cuts[JoinFrom(p, k)] == p.cuts[JoinFrom(p, k)]
            && SameContents(h, h1, Blocks(q, Used)) && SameContents(h, h1, Blocks(q, Released))
  {
    hide Coalesced, Blocks, Aligned;
    var a, b := JoinFrom(p, k), JoinTo(p, k);
    FreedWellFormed(p, k);
    CoalescedRepresents(h, p, a, b, h1);
    CoalescedAt(p, a, b);
    EditKeepsOthers(h, h1, Freed(p, k), a, Used);
    EditKeepsOthers(h, h1, Freed(p, k), a, Released);
  }

  // ---------------------------------------------------------------- the owner's writes

  lemma InHeap(h: seq<Tag>, p: Partition, k: nat)
    requires Represents(h, p) && k < |p.kinds|
    ensures p.cuts[k] < p.cuts[k+1] < |h|
  {
    assert Block(h, p, k);
  }

  lemma WriteRepresents(h: seq<Tag>, p: Partition, k: nat, j: nat, v: Tag)
    requires Represents(h, p) && k < |p.kinds| && p.kinds[k].Used? && p.cuts[k] < j < p.cuts[k+1] < |h|
    ensures Represents(h[j := v], p)
  {
    var h1 := h[j := v];
    forall i | 0 <= i < |p.kinds|
      ensures Block(h1, p, i)
    {
      assert Block(h, p, i);
      assert p.cuts[i] != j && p.cuts[i+1] != j;
    }
    assert p.cuts[0] != j && p.cuts[|p.kinds|] != j;
  }

  lemma ReleaseRepresents(h: seq<Tag>, p: Partition, k: nat)
    requires Represents(h, p) && k < |p.kinds| && p.kinds[k].Used? && p.cuts[k] < |h|
    ensures Represents(h[p.cuts[k] := h[p.cuts[k]].(released := true)], p.(kinds := p.kinds[k := Released]))
  {
    var h1, p1 := h[p.cuts[k] := h[p.cuts[k]].(released := true)], p.(kinds := p.kinds[k := Released]);
    forall i | 0 <= i < |p1.kinds|
      ensures Block(h1, p1, i)
    {
      assert Block(h, p, i);
      assert i != k ==> p.cuts[i] != p.cuts[k];
    }
  }

  /** What the tags of block k and of the one after it say. */
  lemma AtTag(h: seq<Tag>, p: Partition, k: nat)
    requires Represents(h, p) && k < |p.kinds|
    ensures |p.cuts| == |p.kinds| + 1 && p.cuts[k] < p.cuts[k+1] < |h|
    ensures h[p.cuts[k]].size == p.cuts[k+1] - p.cuts[k] && h[p.cuts[k]].released == p.kinds[k].Released?
    ensures h[p.cuts[k+1]].free == p.kinds[k].Free?
    ensures h[p.cuts[k+1]].size == 0 <==> k + 1 == |p.kinds|
  {
    assert Block(h, p, k);
    if k + 1 < |p.kinds| { assert Block(h, p, k + 1); }
  }

  /** From partition p0 and words h0 to p and h, only free and released blocks changed. */
  ghost predicate KeepsUsed(p0: Partition, h0: seq<Tag>, p: Partition, h: seq<Tag>) {
    && |p0.cuts| == |p0.kinds| + 1 && |p.cuts| == |p.kinds| + 1
    && Blocks(p, Used) == Blocks(p0, Used)
    && Blocks(p, Released) <= Blocks(p0, Released)
    && SameContents(h0, h, Blocks(p0, Used))
  }

  lemma KeepsUsedOn(p0: Partition, h0: seq<Tag>, p1: Partition, h1: seq<Tag>, p2: Partition, h2: seq<Tag>)
    requires KeepsUsed(p0, h0, p1, h1) && KeepsUsed(p1, h1, p2, h2)
    ensures KeepsUsed(p0, h0, p2, h2)
  {
    hide Blocks;
  }

  lemma KeepsUsedSelf(p: Partition, h: seq<Tag>)
    requires Represents(h, p)
    ensures KeepsUsed(p, h, p, h) && |p.cuts| == |p.kinds| + 1 && |p.kinds| > 0 && p.cuts[0] == UNIT - 1
  {
    hide Blocks, BlockAt;
  }

  // ---------------------------------------------------------------- class

  class KernelHeap {
    const h: array<Tag>
    ghost var part: Partition

    ghost predicate Valid()
      reads this, h
    {
      h.Length < 0x4000_0000 && Represents(h[..], part)
    }

    /** H2K_mem_alloc_init: one free block, with no footer. */
    constructor (addr: array<Tag>)
      requires addr.Length % UNIT == 0 && 2 * UNIT <= addr.Length < 0x4000_0000
      modifies addr
      ensures Valid() && h == addr
      ensures part == Partition([UNIT - 1, addr.Length - 1], [Free])
    {
      h := addr;
      part := Partition([UNIT - 1, addr.Length - 1], [Free]);
      new;
      h[UNIT - 1] := Tag(false, false, addr.Length - UNIT);
      h[h.Length - 1] := Tag(true, false, 0);
    }

    /** The word edits of H2K_mem_alloc_free_spinlocked. */
    static method JoinWords(h: array<Tag>, ptr: nat, ghost s: nat, ghost e: nat) returns (tag: nat)
      requires 0 < ptr <= h.Length && Neighbours(h[..], ptr - 1, s, e)
      modifies h
      ensures tag == s
      ensures forall j :: 0 <= j < s || e < j < h.Length ==> h[j] == old(h[j])
      ensures h[s] == Tag(old(h[s].free), false, e - s)
      ensures h[e] == old(h[e]).(free := true)
      ensures h[e-1].size == e - s
    {
      tag := ptr - 1;
      var prevSize := h[tag-1].size;
      JoinNext(h, tag, s, e);
      tag := JoinPrev(h, tag, prevSize, s, e);
      var last := tag + h[tag].size - 1;
      h[last] := h[last].(size := h[tag].size);
      h[last+1] := h[last+1].(free := true);
    }

    /** Its first half: the block takes in a free block after it. */
    static method JoinNext(h: array<Tag>, tag: nat, ghost s: nat, ghost e: nat)
      requires Neighbours(h[..], tag, s, e)
      modifies h
      ensures tag < e < h.Length && h[tag] == Tag(old(h[tag].free), false, e - tag)
      ensures forall j :: 0 <= j < h.Length && j != tag ==> h[j] == old(h[j])
    {
      h[tag] := h[tag].(released := false);
      var next := tag + h[tag].size;
      if h[next].size != 0 && h[next + h[next].size].free {
        h[tag] := h[tag].(size := h[tag].size + h[next].size);
      }
    }

    /** Its second half: a free block before it takes it in. */
    static method JoinPrev(h: array<Tag>, tag0: nat, prevSize: nat, ghost s: nat, ghost e: nat) returns (tag: nat)
      requires s <= tag0 < e < h.Length && h[tag0] == Tag(s != tag0, false, e - tag0)
      requires s != tag0 ==> tag0 - prevSize == s && h[s].size == tag0 - s && !h[s].released
      modifies h
      ensures tag == s && h[s] == Tag(old(h[s].free), false, e - s)
      ensures forall j :: 0 <= j < h.Length && j != s ==> h[j] == old(h[j])
    {
      tag := tag0;
      if h[tag].free {
        var prev := tag - prevSize;
        h[prev] := h[prev].(size := h[prev].size + h[tag].size);
        tag := prev;
      }
    }

    /** H2K_mem_alloc_free_spinlocked, on the pointer of block k. */
    method FreeSpinlocked(ptr: nat, ghost k: nat) returns (tag: nat)
      requires Valid() && k < |part.kinds| && !part.kinds[k].Free? && ptr == part.cuts[k] + 1
      modifies this, h
      ensures Valid()
      ensures part == Freed(old(part), k)
      ensures tag == part.cuts[JoinFrom(old(part), k)] && part.kinds[JoinFrom(old(part), k)].Free?
      ensures SameContents(old(h[..]), h[..], Blocks(part, Used))
      ensures SameContents(old(h[..]), h[..], Blocks(part, Released))
    {
      hide Represents, Freed, Blocks, SameContents;
      ghost var p, h0 := part, h[..];
      AtTag(h0, p, k);
      NeighboursOf(h0, p, k);
      tag := JoinWords(h, ptr, p.cuts[JoinFrom(p, k)], p.cuts[JoinTo(p, k)]);
      FreedRepresents(h0, p, k, h[..]);
      part := Freed(p, k);
    }

    /** The word edits of the tail of H2K_mem_alloc_get. */
    static method TakeWords(h: array<Tag>, tag: nat, w: nat)
      requires tag < h.Length && UNIT <= h[tag].size && tag + h[tag].size < h.Length && UNIT <= w && !h[tag].released
      requires h[tag + h[tag].size].free
      modifies h
      ensures forall j :: 0 <= j < tag || tag + old(h[tag].size) < j < h.Length ==> h[j] == old(h[j])
      ensures h[tag].free == old(h[tag].free)
      ensures h[tag + old(h[tag].size)].size == old(h[tag + h[tag].size].size)
      ensures h[tag + old(h[tag].size)].released == old(h[tag + h[tag].size].released)
      ensures TakenWords(h[..], tag, tag + old(h[tag].size), w)
    {
      var size := h[tag].size;
      var splinter := tag + w;
      if size - w >= UNIT {
        h[splinter] := Tag(false, false, size - w);
        h[tag + size - 1] := h[tag + size - 1].(size := h[splinter].size);
        h[tag] := h[tag].(size := w);
      } else {
        h[tag + size] := h[tag + size].(free := false);
      }
    }

    /** The scan reclaims block k if it is released, and goes on at the joined block. */
    method ReclaimAt(tag0: nat, ghost k0: nat, request: nat) returns (tag: nat, ghost k: nat)
      requires Valid() && k0 < |part.kinds| && tag0 == part.cuts[k0]
      requires forall i :: 0 <= i < k0 ==> TooSmall(part, i, request)
      modifies this, h
      ensures Valid() && k < |part.kinds| && tag == part.cuts[k] && !part.kinds[k].Released?
      ensures forall i :: 0 <= i < k ==> TooSmall(part, i, request)
      ensures KeepsUsed(old(part), old(h[..]), part, h[..])
      ensures (part == old(part) && k == k0) || Blocks(part, Released) < Blocks(old(part), Released)
    {
      hide Freed, Blocks;
      assert Block(h[..], part, k0);
      tag, k := tag0, k0;
      if h[tag].released {
        ReclaimKeeps(part, k, request);
        k := JoinFrom(part, k);
        tag := FreeSpinlocked(tag + 1, k0);
      }
    }

    /** The scan loop of H2K_mem_alloc_get, from the first tag. */
    method Scan(request: nat) returns (found: bool, tag: nat, ghost k: nat)
      requires Valid()
      modifies this, h
      ensures Valid() && KeepsUsed(old(part), old(h[..]), part, h[..])
      ensures Blocks(old(part), Released) == {} ==> part == old(part)
      ensures k <= |part.kinds| && (found <==> k < |part.kinds|)
      ensures forall i :: 0 <= i < k ==> TooSmall(part, i, request)
      ensures found ==> tag == part.cuts[k] && part.kinds[k].Free? && !TooSmall(part, k, request)
    {
      hide Blocks, Represents, KeepsUsed;
      tag, k := UNIT - 1, 0;
      KeepsUsedSelf(part, h[..]);
      while true
        invariant Valid() && |part.cuts| == |part.kinds| + 1 && k < |part.kinds| && tag == part.cuts[k]
        invariant |old(part).cuts| == |old(part).kinds| + 1 && KeepsUsed(old(part), old(h[..]), part, h[..])
        invariant Blocks(old(part), Released) == {} ==> part == old(part)
        invariant forall i :: 0 <= i < k ==> TooSmall(part, i, request)
        decreases Blocks(part, Released), |part.kinds| - k
      {
        ghost var p1, h1 := part, h[..];
        tag, k := ReclaimAt(tag, k, request);
        KeepsUsedOn(old(part), old(h[..]), p1, h1, part, h[..]);
        AtTag(h[..], part, k);
        if h[tag + h[tag].size].free && 4 * (h[tag].size - 1) >= request {
          return true, tag, k;
        }
        tag, k := tag + h[tag].size, k + 1;
        if h[tag].size == 0 {
          return false, tag, k;
        }
      }
    }

    method Take(tag: nat, w: nat, ghost k: nat)
      requires Valid() && k < |part.kinds| && part.kinds[k].Free? && tag == part.cuts[k] && w % UNIT == 0 && w > 0
      modifies this, h
      ensures Valid() && part == Taken(old(part), k, w)
      ensures SameContents(old(h[..]), h[..], Blocks(old(part), Used))
    {
      hide Split, Blocks;
      ghost var p, h0 := part, h[..];
      assert Block(h0, p, k);
      TakeWords(h, tag, w);
      TakenRepresents(h0, p, k, w, h[..]);
      EditKeepsOthers(h0, h[..], p, k, Used);
      part := Taken(p, k, w);
    }

    /** H2K_mem_alloc_get.  The result pointer is 0 when nothing fits. */
    method Get(request: nat) returns (ptr: nat, size: nat, ghost k: nat)
      requires Valid()
      modifies this, h
      ensures Valid()
      ensures SameContents(old(h[..]), h[..], Blocks(old(part), Used))
      ensures Blocks(part, Released) <= Blocks(old(part), Released)
      ensures k <= |part.kinds| && forall i :: 0 <= i < k ==> TooSmall(part, i, request)
      ensures ptr == 0 ==> k == |part.kinds| && Blocks(part, Used) == Blocks(old(part), Used)
      ensures ptr == 0 ==>
        forall i :: 0 <= i < |part.kinds| ==>
          && !part.kinds[i].Released?
          && (part.kinds[i].Free? ==> 4 * (part.cuts[i+1] - part.cuts[i] - 1) < request)
      ensures ptr != 0 ==>
        && k < |part.kinds| && part.kinds[k].Used?
        && ptr == part.cuts[k] + 1 && ptr % UNIT == 0
        && size == 4 * (part.cuts[k+1] - part.cuts[k] - 1) && request <= size <= request + 4 * UNIT
        && (part.cuts[k], part.cuts[k+1]) !in Blocks(old(part), Used)
        && Blocks(part, Used) == Blocks(old(part), Used) + {(part.cuts[k], part.cuts[k+1])}
      ensures Blocks(old(part), Released) == {} ==>
        if ptr == 0 then part == old(part)
        else k < |old(part).kinds| && old(part).kinds[k].Free? && part == Taken(old(part), k, RequestWords(request))
    {
      hide Taken, Blocks, RequestWords, Aligned;
      var found, tag;
      found, tag, k := Scan(request);
      if !found {
        forall i | 0 <= i < |part.kinds|
          ensures !part.kinds[i].Released?
          ensures part.kinds[i].Free? ==> 4 * (part.cuts[i+1] - part.cuts[i] - 1) < request
        {
          assert TooSmall(part, i, request);
        }
        return 0, 0, k;
      }
      ghost var p := part;
      var w := RequestWords(request);
      Take(tag, w, k);
      TakenBlocks(p, k, w, Used);
      TakenBlocks(p, k, w, Released);
      TakeKeeps(p, k, w, request);
      TakenSize(p, k, w);
      assert Block(h[..], part, k);
      PointerAligned(part.cuts[k]);
      ptr, size := tag + 1, (h[tag].size - 1) * 4;
    }

    /** With nothing released, a free right after a get restores the partition. */
    method GetThenFree(request: nat) returns (ptr: nat)
      requires Valid() && Blocks(part, Released) == {}
      modifies this, h
      ensures Valid() && part == old(part)
    {
      hide Blocks, Freed, Taken, RequestWords;
      var size;
      ghost var k;
      ptr, size, k := Get(request);
      if ptr != 0 {
        FreeUndoesTake(old(part), k, RequestWords(request));
        var _ := FreeSpinlocked(ptr, k);
      }
    }

    /** The owner of block k writes one of its words: the heap is undisturbed. */
    method UserWrite(j: nat, v: Tag, ghost k: nat)
      requires Valid() && k < |part.kinds| && part.kinds[k].Used? && part.cuts[k] < j < part.cuts[k+1]
      modifies h
      ensures Valid() && part == old(part) && h[..] == old(h[..])[j := v]
    {
      hide BlockAt;
      InHeap(h[..], part, k);
      WriteRepresents(h[..], part, k, j, v);
      h[j] := v;
    }

    /** Block k is given up; a later get reclaims it. */
    method Release(ptr: nat, ghost k: nat)
      requires Valid() && k < |part.kinds| && part.kinds[k].Used? && ptr == part.cuts[k] + 1
      modifies this, h
      ensures Valid() && part == old(part).(kinds := old(part).kinds[k := Released])
    {
      hide BlockAt;
      InHeap(h[..], part, k);
      ReleaseRepresents(h[..], part, k);
      h[ptr - 1] := h[ptr - 1].(released := true);
      part := part.(kinds := part.kinds[k := Released]);
    }
  }
}
