/** The table of address space ids: an open-addressed hash table whose index is the id, with
    an odd stride per chain and a stored bound on the probe length.  Ids are reference
    counted; an id nobody uses may be bound anew, and then its software TLB is invalidated. */
module Asid {
  import Stlb

  const ASIDS: nat := 128

  /** A table entry: 32-bit ptb, 12-bit count, 6-bit vmid, 3-bit type and log_maxhops, 8-bit extra. */
  datatype Entry = Entry(ptb: nat, count: nat, vmid: nat, kind: nat, logMax: nat, extra: nat)

  /** What an id stands for. */
  datatype Binding = Binding(ptb: nat, vmid: nat, kind: nat)

  function BindingOf(e: Entry): Binding { Binding(e.ptb, e.vmid, e.kind) }

  // ---------------------------------------------------------------- probe sequences

  /** ASID_HASHVAL: the top seven bits of the 32-bit product with the hash prime. */
  function Hash(ptb: nat): (h: nat)
    ensures h < ASIDS
  {
    ptb * 2654435761 % 0x1_0000_0000 / 0x200_0000
  }

  /** The stride of a chain, h | 1. */
  function Chain(h: nat): (c: nat)
    ensures c % 2 == 1
  {
    if h % 2 == 0 then h + 1 else h
  }

  /** The slot after k hops from h. */
  function Slot(h: nat, k: nat): (s: nat)
    ensures s < ASIDS
  {
    (h + k * Chain(h)) % ASIDS
  }

  lemma SlotNext(h: nat, k: nat)
    ensures Slot(h, k + 1) == (Slot(h, k) + Chain(h)) % ASIDS
  {
    OneMore(k, Chain(h));
    ModAdd(h + k * Chain(h), Chain(h));
  }

  lemma OneMore(k: nat, c: nat)
    ensures (k + 1) * c == k * c + c
  {
  }

  lemma ModAdd(x: nat, c: nat)
    ensures (x % ASIDS + c) % ASIDS == (x + c) % ASIDS
  {
  }

  /** Twice the error of a Newton step is squared: from c * x == 1 modulo n follows
      c * x * (2 - c * x) == 1 modulo n * n. */
  lemma Newton(c: int, x: int, n: int, q: int)
    requires 1 - c * x == n * q
    ensures 1 - c * (x * (2 - c * x)) == (n * n) * (q * q)
  {
    var e := n * q;
    calc {
      1 - c * (x * (2 - c * x));
      { assert c * (x * (2 - c * x)) == (c * x) * (2 - c * x) by { Associate(c, x, 2 - c * x); } }
      1 - (1 - e) * (1 + e);
      { Square(e); }
      e * e;
      { Rearrange(n, q); }
      (n * n) * (q * q);
    }
  }

  lemma Associate(a: int, b: int, c: int)
    ensures a * (b * c) == (a * b) * c
  {
  }

  lemma Square(e: int)
    ensures 1 - (1 - e) * (1 + e) == e * e
  {
  }

  lemma Rearrange(n: int, q: int)
    ensures (n * q) * (n * q) == (n * n) * (q * q)
  {
  }

  /** An odd number has an inverse modulo 128. */
  lemma OddInverse(c: nat) returns (x: int, w: int)
    requires c % 2 == 1
    ensures c * x == 1 + ASIDS * w
  {
    var m := c / 2;
    assert c == 2 * m + 1;
    OddSquare(m);
    var q0 := -((m * (m + 1)) / 2);
    assert 1 - c * c == 8 * q0;
    Newton(c, c, 8, q0);
    var x1, q1 := c * (2 - c * c), q0 * q0;
    Newton(c, x1, 64, q1);
    x := x1 * (2 - c * x1);
    w := -(32 * (q1 * q1));
  }

  lemma OddSquare(m: nat)
    ensures (2 * m + 1) * (2 * m + 1) == 4 * (m * (m + 1)) + 1
    ensures m * (m + 1) % 2 == 0
  {
    SquareIs(m);
    NextToEven(m);
  }

  lemma SquareIs(m: int)
    ensures (2 * m + 1) * (2 * m + 1) == 4 * (m * (m + 1)) + 1
  {
  }

  /** One of two neighbours is even. */
  lemma NextToEven(m: nat)
    ensures m * (m + 1) % 2 == 0
  {
    var k := m / 2;
    if m % 2 == 0 {
      Associate(2, k, m + 1);
      EvenIs(m * (m + 1), k * (m + 1));
    } else {
      Swap(m, k + 1);
      EvenIs(m * (m + 1), m * (k + 1));
    }
  }

  lemma EvenIs(x: int, h: int)
    requires x == 2 * h
    ensures x % 2 == 0
  {
  }

  lemma Swap(m: int, h: int)
    ensures m * (2 * h) == 2 * (m * h)
  {
  }

  /** The probe sequence visits every slot within 128 hops. */
  lemma HopsCover(h: nat, j: nat) returns (k: nat)
    requires h < ASIDS && j < ASIDS
    ensures k < ASIDS && Slot(h, k) == j
  {
    var c := Chain(h);
    var x, w := OddInverse(c);
    var d := j - h;
    k := (d * x) % ASIDS;
    var q := (d * x) / ASIDS;
    assert d * x == ASIDS * q + k;
    calc {
      h + k * c;
      h + (d * x - ASIDS * q) * c;
      { Distribute(d * x, ASIDS * q, c); Associate(d, x, c); Associate(ASIDS, q, c); }
      h + d * (c * x) - ASIDS * (q * c);
      h + d * (1 + ASIDS * w) - ASIDS * (q * c);
      { Expand(d, w); }
      j + ASIDS * (d * w - q * c);
    }
    Residue(j, d * w - q * c, h + k * c);
  }

  lemma Distribute(a: int, b: int, c: int)
    ensures (a - b) * c == a * c - b * c
  {
  }

  lemma Expand(d: int, w: int)
    ensures d * (1 + ASIDS * w) == d + ASIDS * (d * w)
  {
  }

  lemma Residue(j: nat, m: int, n: int)
    requires j < ASIDS && n == j + ASIDS * m
    ensures n % ASIDS == j
  {
  }

  function Pow2(n: nat): (p: nat)
    ensures p > 0
  {
    if n == 0 then 1 else 2 * Pow2(n - 1)
  }

  lemma {:induction false} Pow2Grows(m: nat, n: nat)
    requires m <= n
    ensures Pow2(m) <= Pow2(n)
  {
    if m == n {
    } else {
      Pow2Grows(m, n - 1);
    }
  }

  /** log2_greater: 32 minus the leading zeros. */
  function BitLen(i: nat): nat {
    if i == 0 then 0 else 1 + BitLen(i / 2)
  }

  lemma {:induction false} BitLenBounds(i: nat)
    ensures i < Pow2(BitLen(i))
    ensures i > 0 ==> Pow2(BitLen(i) - 1) <= i
  {
    if i == 0 {
    } else {
      BitLenBounds(i / 2);
    }
  }

  lemma SmallBitLen(i: nat)
    requires i < ASIDS
    ensures BitLen(i) < 8 && i <= Pow2(BitLen(i))
  {
    BitLenBounds(i);
    assert Pow2(7) == 128;
    if BitLen(i) >= 8 {
      Pow2Grows(7, BitLen(i) - 1);
    }
  }

  // ---------------------------------------------------------------- the table

  ghost predicate EntryOk(e: Entry) {
    e.count < 4096 && e.vmid < 64 && e.kind < 8 && e.logMax < 8 && e.extra < 256
  }

  /** The entry in slot j lies within the stored probe bound of its hash slot. */
  ghost predicate Reached(table: seq<Entry>, j: nat)
    requires |table| == ASIDS && j < ASIDS
  {
    var h := Hash(table[j].ptb);
    exists k :: 0 <= k <= Pow2(table[h].logMax) && Slot(h, k) == j
  }

  /** VM ids start at 1, so an entry with vmid 0 was never written. */
  ghost predicate TableOk(table: seq<Entry>) {
    && |table| == ASIDS
    && (forall j :: 0 <= j < ASIDS ==> EntryOk(table[j]))
    && (forall j :: 0 <= j < ASIDS && table[j].vmid > 0 ==> Reached(table, j))
    && (forall i, j :: 0 <= i < j < ASIDS && table[i].vmid > 0 ==> BindingOf(table[i]) != BindingOf(table[j]))
  }

  /** H2K_asid_table_search: scan the hops up to the stored bound. */
  method Search(table: seq<Entry>, b: Binding) returns (r: int)
    requires TableOk(table)
    ensures -1 <= r < ASIDS && (r >= 0 ==> BindingOf(table[r]) == b)
    ensures r < 0 ==>
              forall k :: 0 <= k <= Pow2(table[Hash(b.ptb)].logMax) ==> BindingOf(table[Slot(Hash(b.ptb), k)]) != b
  {
    hide Hash, Slot, Pow2, TableOk;
    Sized(table);
    var idx := Hash(b.ptb);
    var h, i := idx, 0;
    var chain := Chain(idx);
    var maxhops := Pow2(table[idx].logMax);
    SlotZero(h);
    while i <= maxhops
      invariant idx == Slot(h, i) && i <= maxhops + 1
      invariant forall k :: 0 <= k < i ==> BindingOf(table[Slot(h, k)]) != b
    {
      if BindingOf(table[idx]) == b { return idx; }
      SlotNext(h, i);
      idx := (idx + chain) % ASIDS;
      i := i + 1;
    }
    r := -1;
  }

  lemma Sized(table: seq<Entry>)
    requires TableOk(table)
    ensures |table| == ASIDS
  {
  }

  lemma SlotZero(h: nat)
    ensures h < ASIDS ==> Slot(h, 0) == h
  {
  }

  /** Search is complete: what it does not find is bound nowhere. */
  lemma SearchComplete(table: seq<Entry>, b: Binding, j: nat)
    requires TableOk(table) && b.vmid > 0 && j < ASIDS
    requires forall k :: 0 <= k <= Pow2(table[Hash(b.ptb)].logMax) ==> BindingOf(table[Slot(Hash(b.ptb), k)]) != b
    ensures BindingOf(table[j]) != b
  {
    hide Hash, Slot, Pow2;
    assert table[j].vmid > 0 ==> Reached(table, j);
  }

  /** The table after slot i hops from the hash of b is bound to b. */
  ghost function Bound(table: seq<Entry>, b: Binding, i: nat, extra: nat): seq<Entry>
    requires |table| == ASIDS
  {
    var h := Hash(b.ptb);
    var log := if BitLen(i) > table[h].logMax then BitLen(i) else table[h].logMax;
    var t1 := table[h := table[h].(logMax := log)];
    var s := Slot(h, i);
    t1[s := Entry(b.ptb, 1, b.vmid, b.kind, t1[s].logMax, extra % 256)]
  }

  lemma BoundLogs(table: seq<Entry>, b: Binding, i: nat, extra: nat, j: nat)
    requires |table| == ASIDS && j < ASIDS
    ensures var t2 := Bound(table, b, i, extra);
            && t2[j].logMax >= table[j].logMax
            && (j == Hash(b.ptb) ==> t2[j].logMax >= BitLen(i))
            && (t2[j].logMax == table[j].logMax || (j == Hash(b.ptb) && t2[j].logMax == BitLen(i)))
            && (j != Slot(Hash(b.ptb), i) ==>
                  BindingOf(t2[j]) == BindingOf(table[j]) && t2[j].count == table[j].count &&
                  t2[j].extra == table[j].extra)
            && (j == Slot(Hash(b.ptb), i) ==> BindingOf(t2[j]) == b && t2[j].count == 1 && t2[j].extra == extra % 256)
  {
    hide Hash, Slot, BitLen;
  }

  /** Binding an unused slot to something bound nowhere keeps the table searchable. */
  lemma BoundKeeps(table: seq<Entry>, b: Binding, i: nat, extra: nat)
    requires TableOk(table) && 0 < b.vmid < 64 && b.kind < 8 && i < ASIDS
    requires forall j :: 0 <= j < ASIDS ==> BindingOf(table[j]) != b
    ensures TableOk(Bound(table, b, i, extra))
  {
    hide Hash, Slot, BitLen, Bound, Pow2;
    var t2, h := Bound(table, b, i, extra), Hash(b.ptb);
    SmallBitLen(i);
    BoundSize(table, b, i, extra);
    forall j | 0 <= j < ASIDS
      ensures EntryOk(t2[j]) && (t2[j].vmid > 0 ==> Reached(t2, j))
      ensures BindingOf(t2[j]) == if j == Slot(h, i) then b else BindingOf(table[j])
    {
      BoundLogs(table, b, i, extra, j);
      if t2[j].vmid > 0 { BoundReached(table, b, i, extra, j); }
    }
  }

  lemma BoundSize(table: seq<Entry>, b: Binding, i: nat, extra: nat)
    requires |table| == ASIDS
    ensures |Bound(table, b, i, extra)| == ASIDS
  {
  }

  lemma BoundReached(table: seq<Entry>, b: Binding, i: nat, extra: nat, j: nat)
    requires TableOk(table) && i < ASIDS && j < ASIDS && Bound(table, b, i, extra)[j].vmid > 0
    ensures Reached(Bound(table, b, i, extra), j)
  {
    hide Hash, Slot, BitLen, Bound, Pow2;
    var t2, h := Bound(table, b, i, extra), Hash(b.ptb);
    BoundSize(table, b, i, extra);
    BoundLogs(table, b, i, extra, j);
    var g := Hash(t2[j].ptb);
    BoundLogs(table, b, i, extra, g);
    var k := i;
    if j == Slot(h, i) {
      SmallBitLen(i);
      Pow2Grows(BitLen(i), t2[h].logMax);
    } else {
      assert Reached(table, j);
      k :| 0 <= k <= Pow2(table[g].logMax) && Slot(g, k) == j;
      Pow2Grows(table[g].logMax, t2[g].logMax);
    }
    assert 0 <= k <= Pow2(t2[g].logMax) && Slot(g, k) == j;
  }

  /** H2K_asid_table_eviction: the first slot on the chain that nobody uses; it fails only
      when all 128 are in use. */
  method Eviction(table: seq<Entry>, ptb: nat) returns (r: int, i: nat, table1: seq<Entry>)
    requires TableOk(table)
    ensures if r < 0 then r == -1 && table1 == table && forall j :: 0 <= j < ASIDS ==> table[j].count != 0
            else i < ASIDS && r == Slot(Hash(ptb), i) && table[r].count == 0
                 && (forall k :: 0 <= k < i ==> table[Slot(Hash(ptb), k)].count != 0)
                 && table1 == table[Hash(ptb) := table[Hash(ptb)].(logMax :=
                      if BitLen(i) > table[Hash(ptb)].logMax then BitLen(i) else table[Hash(ptb)].logMax)]
  {
    hide Hash, Slot, BitLen, TableOk;
    Sized(table);
    var idx := Hash(ptb);
    var start, chain := idx, Chain(idx);
    i, table1 := 0, table;
    SlotZero(start);
    while table[idx].count != 0
      invariant i < ASIDS && idx == Slot(start, i)
      invariant forall k :: 0 <= k < i ==> table[Slot(start, k)].count != 0
      decreases ASIDS - i
    {
      SlotNext(start, i);
      i := i + 1;
      idx := (idx + chain) % ASIDS;
      if i >= ASIDS {
        AllUsed(table, start);
        return -1, i, table;
      }
    }
    var log := BitLen(i);
    table1 := table[start := table[start].(logMax := if log > table[start].logMax then log else table[start].logMax)];
    r := idx;
  }

  lemma AllUsed(table: seq<Entry>, h: nat)
    requires |table| == ASIDS && h < ASIDS && forall k :: 0 <= k < ASIDS ==> table[Slot(h, k)].count != 0
    ensures forall j :: 0 <= j < ASIDS ==> table[j].count != 0
  {
    hide Slot;
    forall j | 0 <= j < ASIDS
      ensures table[j].count != 0
    {
      var k := HopsCover(h, j);
    }
  }

  // ---------------------------------------------------------------- references

  /** What a context has to do with ids: nothing, one in use, or, inside H2K_vmtrap_newmap,
      the old one and the new one, then only the new one with ssr_asid not yet written. */
  datatype Use = Idle | Using(asid: nat) | Moving(asid: nat, next: nat) | Moved(asid: nat, next: nat)

  ghost function Refs(u: Use, j: nat): nat {
    match u
    case Idle => 0
    case Using(a) => if a == j then 1 else 0
    case Moving(a, n) => (if a == j then 1 else 0) + (if n == j then 1 else 0)
    case Moved(a, n) => if n == j then 1 else 0
  }

  /** The references to id j held by all contexts. */
  ghost function RefCount(uses: seq<Use>, j: nat): nat {
    if uses == [] then 0 else Refs(uses[0], j) + RefCount(uses[1..], j)
  }

  lemma {:induction false} RefUpdate(uses: seq<Use>, t: nat, u: Use, j: nat)
    requires t < |uses|
    ensures RefCount(uses[t := u], j) == RefCount(uses, j) - Refs(uses[t], j) + Refs(u, j)
    ensures RefCount(uses, j) >= Refs(uses[t], j)
  {
    if t > 0 {
      RefUpdate(uses[1..], t - 1, u, j);
      assert uses[t := u][1..] == uses[1..][t - 1 := u];
    } else {
      assert uses[t := u][1..] == uses[1..];
    }
  }

  ghost predicate UseOk(u: Use) {
    match u
    case Idle => true
    case Using(a) => a < ASIDS
    case Moving(a, n) => a < ASIDS && n < ASIDS
    case Moved(a, n) => a < ASIDS && n < ASIDS
  }

  /** Each count is the number of references, and each fits its 12 bits. */
  ghost predicate CountsOk(table: seq<Entry>, uses: seq<Use>) {
    && |table| == ASIDS
    && (forall t :: 0 <= t < |uses| ==> UseOk(uses[t]))
    && forall j :: 0 <= j < ASIDS ==> table[j].count == RefCount(uses, j)
  }

  /** One more thread may come to use any id. */
  ghost predicate Room(uses: seq<Use>) {
    forall j :: 0 <= j < ASIDS ==> RefCount(uses, j) < 4095
  }

  lemma CountsAfter(table: seq<Entry>, uses: seq<Use>, table1: seq<Entry>, t: nat, u: Use)
    requires CountsOk(table, uses) && t < |uses| && UseOk(u) && |table1| == ASIDS
    requires forall j :: 0 <= j < ASIDS ==> table1[j].count == table[j].count - Refs(uses[t], j) + Refs(u, j)
    ensures CountsOk(table1, uses[t := u])
  {
    hide RefCount, Refs;
    forall j | 0 <= j < ASIDS
      ensures table1[j].count == RefCount(uses[t := u], j)
    {
      RefUpdate(uses, t, u, j);
    }
  }

  /** Changing a count changes nothing a search sees. */
  lemma CountKeeps(table: seq<Entry>, j: nat, n: nat)
    requires TableOk(table) && j < ASIDS && n < 4096
    ensures TableOk(table[j := table[j].(count := n)])
  {
    hide Hash, Slot, Pow2;
    var t1 := table[j := table[j].(count := n)];
    forall i | 0 <= i < ASIDS && t1[i].vmid > 0
      ensures Reached(t1, i)
    {
      assert Reached(table, i);
      var h := Hash(table[i].ptb);
      var k :| 0 <= k <= Pow2(table[h].logMax) && Slot(h, k) == i;
      assert 0 <= k <= Pow2(t1[h].logMax) && Slot(h, k) == i;
    }
  }

  /** The ids in use are bound as before. */
  ghost predicate UsedKept(table: seq<Entry>, uses: seq<Use>, table1: seq<Entry>)
    requires |table| == |table1| == ASIDS
  {
    forall j :: 0 <= j < ASIDS && RefCount(uses, j) > 0 ==> BindingOf(table1[j]) == BindingOf(table[j])
  }

  /** What H2K_do_asid_table_inc does: count up the id bound to b, or bind an unused one,
      or fail when there is neither. */
  ghost predicate Inced(table: seq<Entry>, b: Binding, r: int, table1: seq<Entry>)
    requires |table| == |table1| == ASIDS
  {
    && -1 <= r < ASIDS
    && (r >= 0 ==> BindingOf(table1[r]) == b && (BindingOf(table[r]) == b || table[r].count == 0))
    && (r < 0 <==> forall j :: 0 <= j < ASIDS ==> BindingOf(table[j]) != b && table[j].count != 0)
    && ((exists j :: 0 <= j < ASIDS && BindingOf(table[j]) == b) ==> r >= 0 && BindingOf(table[r]) == b)
    && (forall j ::
          0 <= j < ASIDS && j != r ==> BindingOf(table1[j]) == BindingOf(table[j]) && table1[j].extra == table[j].extra)
    && (forall j :: 0 <= j < ASIDS ==> table1[j].count == table[j].count + if j == r then 1 else 0)
  }

  class AddressSpaces {
    var table: seq<Entry>
    const stlb: Stlb.SoftTlb
    // what each context does with ids
    var uses: seq<Use>
    // the software TLB entries added for each id since its last invalidation, each with
    // what the id stood for when it was added
    ghost var added: seq<set<(Stlb.Tlb, Binding)>>

    /** No software TLB entry is older than what its id stands for now. */
    ghost predicate Current()
      reads this, stlb
      requires |table| == ASIDS
    {
      && |added| == |stlb.live| == ASIDS
      && (forall a, e, b :: 0 <= a < ASIDS && (e, b) in added[a] ==> b == BindingOf(table[a]))
      && (forall a, e :: 0 <= a < ASIDS && e in stlb.live[a] ==> (e, BindingOf(table[a])) in added[a])
    }

    ghost predicate Valid()
      reads this, stlb
    {
      TableOk(table) && CountsOk(table, uses) && stlb.Valid() && Current()
    }

    /** The logs are those of before, but id r's are empty if it was invalidated. */
    ghost predicate LogsAfter(added0: seq<set<(Stlb.Tlb, Binding)>>, live0: seq<set<Stlb.Tlb>>, r: int,
                              invalidated: bool)
      reads this, stlb
    {
      if invalidated then
        && 0 <= r < |added0| && r < |live0|
        && added == added0[r := {}] && stlb.live == live0[r := {}]
      else added == added0 && stlb.live == live0
    }

    /** A zeroed table over a software TLB of arbitrary memory, and n contexts. */
    constructor (n: nat, garbage: seq<Stlb.Tlb>)
      requires |garbage| == Stlb.ENTRIES
      ensures Valid() && fresh(stlb) && uses == seq(n, i => Idle)
      ensures stlb.live == seq(ASIDS, i => {}) && added == seq(ASIDS, i => {})
    {
      table := seq(ASIDS, i => Entry(0, 0, 0, 0, 0, 0));
      stlb := new Stlb.SoftTlb(garbage);
      uses := seq(n, i => Idle);
      added := seq(ASIDS, i => {});
      new;
      NoRefs(uses);
    }

    /** The eviction half of H2K_do_asid_table_inc, for a binding that is nowhere. */
    method BindNew(b: Binding, extra: nat) returns (r: int)
      requires Valid() && 0 < b.vmid < 64 && b.kind < 8 && forall j :: 0 <= j < ASIDS ==> BindingOf(table[j]) != b
      modifies this, stlb
      ensures |old(table)| == |table| == ASIDS && Inced(old(table), b, r, table)
      ensures TableOk(table) && stlb.Valid() && Current() && uses == old(uses)
      ensures r >= 0 ==> old(table)[r].count == 0 && table[r].extra == extra % 256
      ensures LogsAfter(old(added), old(stlb.live), r, r >= 0)
    {
      hide Hash, Slot, BitLen, Pow2, TableOk, CountsOk;
      Sized(table);
      ghost var t0 := table;
      var i, t1;
      r, i, t1 := Eviction(table, b.ptb);
      if r >= 0 {
        table := t1[r := Entry(b.ptb, 1, b.vmid, b.kind, t1[r].logMax, extra % 256)];
        assert table == Bound(t0, b, i, extra);
        BoundKeeps(t0, b, i, extra);
        forall j | 0 <= j < ASIDS
          ensures j != r ==>
                    && BindingOf(table[j]) == BindingOf(t0[j])
                    && table[j].count == t0[j].count && table[j].extra == t0[j].extra
        {
          BoundLogs(t0, b, i, extra, j);
        }
        stlb.InvalidateAsid(r);
        added := added[r := {}];
      }
    }

    /** H2K_do_asid_table_inc; the reference goes to the caller. */
    method Inc(b: Binding, flush: bool, extra: nat) returns (r: int)
      requires Valid() && Room(uses) && 0 < b.vmid < 64 && b.kind < 8
      modifies this, stlb
      ensures |old(table)| == |table| == ASIDS && Inced(old(table), b, r, table)
      ensures TableOk(table) && stlb.Valid() && Current() && uses == old(uses)
      ensures UsedKept(old(table), uses, table)
      ensures r >= 0 ==> table[r].extra == if BindingOf(old(table)[r]) == b then old(table)[r].extra else extra % 256
      ensures LogsAfter(old(added), old(stlb.live), r, r >= 0 && (flush || BindingOf(old(table)[r]) != b))
    {
      hide Hash, Slot, BitLen, Pow2, RefCount, Refs, TableOk;
      Sized(table);
      ghost var t0 := table;
      var s := Search(table, b);
      if s >= 0 {
        CountKeeps(table, s, (table[s].count + 1) % 4096);
        table := table[s := table[s].(count := (table[s].count + 1) % 4096)];
        r := s;
        if flush {
          stlb.InvalidateAsid(r);
          added := added[r := {}];
        }
      } else {
        forall j | 0 <= j < ASIDS
          ensures BindingOf(t0[j]) != b
        {
          SearchComplete(t0, b, j);
        }
        r := BindNew(b, extra);
      }
    }

    /** H2K_asid_table_dec: add 4095 to the 12-bit count. */
    method Dec(a: nat)
      requires TableOk(table) && stlb.Valid() && Current() && a < ASIDS && table[a].count > 0
      modifies this
      ensures TableOk(table) && stlb.Valid() && Current() && uses == old(uses) && |old(table)| == ASIDS
      ensures table == old(table)[a := old(table)[a].(count := old(table)[a].count - 1)] && added == old(added)
    {
      CountKeeps(table, a, (table[a].count + 4095) % 4096);
      table := table[a := table[a].(count := (table[a].count + 4095) % 4096)];
    }

    /** Thread t is created: it comes to use the id bound to b. */
    method Create(t: nat, b: Binding, extra: nat) returns (r: int)
      requires Valid() && Room(uses) && t < |uses| && uses[t] == Idle && 0 < b.vmid < 64 && b.kind < 8
      modifies this, stlb
      ensures Valid() && |old(table)| == ASIDS && Inced(old(table), b, r, table) &&
              UsedKept(old(table), old(uses), table)
      ensures uses == if r < 0 then old(uses) else old(uses)[t := Using(r)]
      ensures LogsAfter(old(added), old(stlb.live), r, r >= 0 && BindingOf(old(table)[r]) != b)
      ensures r >= 0 ==> table[r].extra == if BindingOf(old(table)[r]) == b then old(table)[r].extra else extra % 256
    {
      hide TableOk, RefCount;
      r := Inc(b, false, extra);
      ghost var u := if r < 0 then Idle else Using(r);
      CountsAfter(old(table), uses, table, t, u);
      if r >= 0 { uses := uses[t := Using(r)]; } else { assert uses[t := Idle] == uses; }
    }

    /** Thread t stops: its id loses a reference. */
    method Stop(t: nat)
      requires Valid() && t < |uses| && uses[t].Using?
      modifies this
      ensures Valid() && |old(table)| == ASIDS && uses == old(uses)[t := Idle] && UsedKept(old(table), old(uses), table)
      ensures added == old(added)
    {
      hide TableOk, RefCount;
      RefUpdate(uses, t, Idle, uses[t].asid);
      Dec(uses[t].asid);
      CountsAfter(old(table), uses, table, t, Idle);
      uses := uses[t := Idle];
    }

    /** H2K_vmtrap_newmap, first step: a reference to the new id. */
    method NewmapInc(t: nat, b: Binding, flush: bool, extra: nat) returns (r: int)
      requires Valid() && Room(uses) && t < |uses| && uses[t].Using? && 0 < b.vmid < 64 && b.kind < 8
      modifies this, stlb
      ensures Valid() && |old(table)| == ASIDS && Inced(old(table), b, r, table) &&
              UsedKept(old(table), old(uses), table)
      ensures uses == if r < 0 then old(uses) else old(uses)[t := Moving(old(uses)[t].asid, r)]
      ensures LogsAfter(old(added), old(stlb.live), r, r >= 0 && (flush || BindingOf(old(table)[r]) != b))
      ensures r >= 0 ==> table[r].extra == if BindingOf(old(table)[r]) == b then old(table)[r].extra else extra % 256
    {
      hide TableOk, RefCount;
      r := Inc(b, flush, extra);
      ghost var u := if r < 0 then uses[t] else Moving(uses[t].asid, r);
      CountsAfter(old(table), uses, table, t, u);
      if r >= 0 { uses := uses[t := Moving(uses[t].asid, r)]; } else { assert uses[t := uses[t]] == uses; }
    }

    /** Second step: the old id loses its reference. */
    method NewmapDec(t: nat)
      requires Valid() && t < |uses| && uses[t].Moving?
      modifies this
      ensures Valid() && |old(table)| == ASIDS && UsedKept(old(table), old(uses), table)
      ensures uses == old(uses)[t := Moved(old(uses)[t].asid, old(uses)[t].next)] && added == old(added)
    {
      hide TableOk, RefCount;
      var u := Moved(uses[t].asid, uses[t].next);
      RefUpdate(uses, t, u, uses[t].asid);
      Dec(uses[t].asid);
      CountsAfter(old(table), uses, table, t, u);
      uses := uses[t := u];
    }

    /** Third step: ssr_asid is written. */
    method NewmapSet(t: nat)
      requires Valid() && t < |uses| && uses[t].Moved?
      modifies this
      ensures Valid() && table == old(table) && uses == old(uses)[t := Using(old(uses)[t].next)] && added == old(added)
    {
      hide TableOk, RefCount;
      CountsAfter(table, uses, table, t, Using(uses[t].next));
      uses := uses[t := Using(uses[t].next)];
    }

    /** A translation of the address space of id a is added to the software TLB. */
    method AddTranslation(va: nat, a: nat, e: Stlb.Tlb, way: nat)
      requires Valid() && a < ASIDS && way < Stlb.WAYS && e.asid == a
      modifies this, stlb
      ensures Valid() && table == old(table) && uses == old(uses) &&
              |table| == |old(added)| == |old(stlb.live)| == ASIDS
      ensures added == old(added)[a := old(added)[a] + {(e, BindingOf(table[a]))}]
      ensures stlb.live == old(stlb.live)[a := old(stlb.live)[a] + {e}]
      ensures Stlb.Shape(stlb.bulk, stlb.valids) && Stlb.SetValid(stlb.valids, a, Stlb.SetOf(va))
      ensures stlb.bulk[Stlb.Cell(a, Stlb.SetOf(va), way)] == e
    {
      hide TableOk, CountsOk;
      Sized(table);
      stlb.Add(va, a, e, way);
      added := added[a := added[a] + {(e, BindingOf(table[a]))}];
    }

    /** What the software TLB answers was added for what the id stands for now. */
    method LookupTranslation(va: nat, a: nat) returns (e: Stlb.Tlb)
      requires Valid() && a < ASIDS
      ensures e == Stlb.ZERO || (Stlb.Matches(va, a, e) && (e, BindingOf(table[a])) in added[a])
      ensures Stlb.Shape(stlb.bulk, stlb.valids)
      ensures e != Stlb.ZERO <==>
                && Stlb.SetValid(stlb.valids, a, Stlb.SetOf(va))
                && exists w :: 0 <= w < Stlb.WAYS && Stlb.Matches(va, a, stlb.bulk[Stlb.Cell(a, Stlb.SetOf(va), w)])
    {
      hide TableOk, CountsOk;
      Sized(table);
      e := stlb.Lookup(va, a);
    }

    /** A thread is created under a binding that no id had, and a page is looked up under the
        id it got: nothing added for the id before answers. */
    method CreateThenLookup(t: nat, b: Binding, extra: nat, va: nat) returns (r: int, e: Stlb.Tlb)
      requires Valid() && Room(uses) && t < |uses| && uses[t] == Idle && 0 < b.vmid < 64 && b.kind < 8
      requires forall j :: 0 <= j < |table| ==> BindingOf(table[j]) != b
      modifies this, stlb
      ensures Valid() && e == Stlb.ZERO
      ensures r >= 0 ==> r < ASIDS <= |added| && BindingOf(table[r]) == b && added[r] == {}
    {
      hide TableOk, CountsOk, RefCount;
      Sized(table);
      r := Create(t, b, extra);
      e := Stlb.ZERO;
      if r >= 0 { e := LookupTranslation(va, r); }
    }

    /** And after one translation is added for it, a lookup answers that one or nothing, and that
        one for every address of the page it was added for. */
    method CreateAddLookup(t: nat, b: Binding, extra: nat, va: nat, e: Stlb.Tlb, way: nat, va1: nat)
      returns (r: int, e1: Stlb.Tlb)
      requires Valid() && Room(uses) && t < |uses| && uses[t] == Idle && 0 < b.vmid < 64 && b.kind < 8 &&
               way < Stlb.WAYS
      requires forall j :: 0 <= j < |table| ==> BindingOf(table[j]) != b
      modifies this, stlb
      ensures Valid() && (e1 == Stlb.ZERO || (r >= 0 && e1 == e.(asid := r)))
      ensures r >= 0 && Stlb.Page(va1) == Stlb.Page(va) && Stlb.Matches(va1, r, e.(asid := r)) ==> e1 == e.(asid := r)
    {
      hide TableOk, CountsOk, RefCount;
      Sized(table);
      r := Create(t, b, extra);
      e1 := Stlb.ZERO;
      if r >= 0 {
        AddTranslation(va, r, e.(asid := r), way);
        e1 := LookupTranslation(va1, r);
      }
    }
  }

  lemma {:induction false} NoRefs(uses: seq<Use>)
    requires forall t :: 0 <= t < |uses| ==> uses[t] == Idle
    ensures forall j :: RefCount(uses, j) == 0
  {
    if uses == [] {
    } else {
      NoRefs(uses[1..]);
    }
  }
}
