/** The software TLB: one array of entries in which the windows of all address space ids
    overlap, and per id a bitmap of the sets that are valid.  Invalidating an id only clears
    its bitmap; stale entries are purged when a set is next used. */
module Stlb {
  import Bits

  const ASIDS: nat := 128
  const SETS: nat := 2048
  const WAYS: nat := 4
  const ENTRIES: nat := SETS * WAYS * 2

  /** A hardware-format translation; rest stands for the physical page and permissions. */
  datatype Tlb = Tlb(valid: bool, asid: nat, vpn: nat, size: nat, rest: nat)

  /** The entry whose raw value is 0. */
  const ZERO: Tlb := Tlb(false, 0, 0, 0, 0)

  function Pow4(n: nat): (p: nat)
    ensures p > 0
  {
    if n == 0 then 1 else 4 * Pow4(n - 1)
  }

  const PAGE: nat := 4096

  function Page(va: nat): nat { va / PAGE }

  function SetOf(va: nat): (idx: nat)
    ensures idx < SETS
  {
    Page(va) % SETS
  }

  /** H2K_mem_stlb_check: the entry translates va for this id, at the entry's page size. */
  predicate Matches(va: nat, asid: nat, e: Tlb) {
    e.valid && e.asid == asid && Page(va) / Pow4(e.size) == e.vpn / Pow4(e.size)
  }

  /** Where way w of set idx of an id lies in the shared array. */
  function Cell(asid: nat, idx: nat, w: nat): (p: nat)
    requires asid < ASIDS && idx < SETS && w < WAYS
    ensures p < ENTRIES
  {
    asid * (SETS / ASIDS) + idx * WAYS + w
  }

  ghost predicate Shape(bulk: seq<Tlb>, valids: seq<seq<seq<bool>>>) {
    && |bulk| == ENTRIES && |valids| == ASIDS
    && forall a :: 0 <= a < ASIDS ==> |valids[a]| == SETS / 64 && Bits.IsMap(valids[a])
  }

  ghost predicate SetValid(valids: seq<seq<seq<bool>>>, a: nat, idx: nat)
    requires |valids| == ASIDS && a < ASIDS && |valids[a]| == SETS / 64 && Bits.IsMap(valids[a]) && idx < SETS
  {
    Bits.Bit(valids[a], idx)
  }

  /** An entry that id a can see in this cell was added for a and not invalidated since. */
  ghost predicate CellOk(bulk: seq<Tlb>, valids: seq<seq<seq<bool>>>, live: seq<set<Tlb>>, a: nat, idx: nat, w: nat)
    requires Shape(bulk, valids) && |live| == ASIDS && a < ASIDS && idx < SETS && w < WAYS
  {
    var e := bulk[Cell(a, idx, w)];
    SetValid(valids, a, idx) && e.valid && e.asid == a ==> e in live[a]
  }

  ghost predicate Fresh(bulk: seq<Tlb>, valids: seq<seq<seq<bool>>>, live: seq<set<Tlb>>) {
    && Shape(bulk, valids) && |live| == ASIDS
    && forall a, idx, w :: 0 <= a < ASIDS && 0 <= idx < SETS && 0 <= w < WAYS ==> CellOk(bulk, valids, live, a, idx, w)
  }

  /** Way w of the set of va is the first that matches. */
  ghost predicate IsFirst(bulk: seq<Tlb>, va: nat, asid: nat, w: nat)
    requires |bulk| == ENTRIES && asid < ASIDS && w < WAYS
  {
    && Matches(va, asid, bulk[Cell(asid, SetOf(va), w)])
    && forall v :: 0 <= v < w ==> !Matches(va, asid, bulk[Cell(asid, SetOf(va), v)])
  }

  /** Way w of the set of va translates va for the id. */
  ghost predicate Hits(bulk: seq<Tlb>, va: nat, asid: nat, w: nat)
    requires |bulk| == ENTRIES && asid < ASIDS && w < WAYS
  {
    Matches(va, asid, bulk[Cell(asid, SetOf(va), w)])
  }

  ghost predicate AtMostOne(bulk: seq<Tlb>, va: nat, asid: nat)
    requires |bulk| == ENTRIES && asid < ASIDS
  {
    forall v, w :: 0 <= v < w < WAYS ==> !(Hits(bulk, va, asid, v) && Hits(bulk, va, asid, w))
  }

  ghost predicate NoneHits(bulk: seq<Tlb>, va: nat, asid: nat)
    requires |bulk| == ENTRIES && asid < ASIDS
  {
    forall w :: 0 <= w < WAYS ==> !Hits(bulk, va, asid, w)
  }

  /** Zeroing the first way that hits leaves none exactly when it was the only one. */
  lemma ZeroFirst(bulk: seq<Tlb>, va: nat, asid: nat, w: nat)
    requires |bulk| == ENTRIES && asid < ASIDS && w < WAYS && IsFirst(bulk, va, asid, w)
    ensures NoneHits(bulk[Cell(asid, SetOf(va), w) := ZERO], va, asid) <==> AtMostOne(bulk, va, asid)
  {
    hide Matches, SetOf;
    var bulk1 := bulk[Cell(asid, SetOf(va), w) := ZERO];
    assert !Matches(va, asid, ZERO) by { NotZero(va, asid); }
    assert Hits(bulk, va, asid, w);
    forall v | 0 <= v < WAYS
      ensures Hits(bulk1, va, asid, v) <==> Hits(bulk, va, asid, v) && v != w
    {
    }
    if !AtMostOne(bulk, va, asid) {
      var u, v :| 0 <= u < v < WAYS && Hits(bulk, va, asid, u) && Hits(bulk, va, asid, v);
      assert v != w && Hits(bulk1, va, asid, v);
    }
  }

  lemma NotZero(va: nat, asid: nat)
    ensures !Matches(va, asid, ZERO)
  {
  }

  /** A page that at most one way of a valid set held is no longer there. */
  ghost predicate PageGone(bulk: seq<Tlb>, bulk1: seq<Tlb>, valids: seq<seq<seq<bool>>>, q: nat, asid: nat)
    requires Shape(bulk, valids) && |bulk1| == ENTRIES && asid < ASIDS
  {
    SetValid(valids, asid, SetOf(PAGE * q)) && AtMostOne(bulk, PAGE * q, asid) ==> NoneHits(bulk1, PAGE * q, asid)
  }

  lemma RangeNotEmpty(va: nat, count: nat)
    requires count > 0
    ensures Page(va) <= Page(va + count - 1)
  {
  }

  /** bulk1 is bulk with some cells zeroed. */
  ghost predicate OnlyZeroed(bulk: seq<Tlb>, bulk1: seq<Tlb>) {
    |bulk1| == |bulk| && forall p :: 0 <= p < |bulk| ==> bulk1[p] == bulk[p] || bulk1[p] == ZERO
  }

  /** Cell p is a way that translates page q for the id, in a valid set. */
  ghost predicate IsHit(bulk: seq<Tlb>, valids: seq<seq<seq<bool>>>, q: nat, asid: nat, p: nat)
    requires Shape(bulk, valids) && asid < ASIDS
  {
    && SetValid(valids, asid, SetOf(PAGE * q))
    && exists w :: 0 <= w < WAYS && Hits(bulk, PAGE * q, asid, w) && p == Cell(asid, SetOf(PAGE * q), w)
  }

  /** Only ways that translate a page from start up to end were zeroed. */
  ghost predicate OnlyInRange(bulk: seq<Tlb>, bulk1: seq<Tlb>, valids: seq<seq<seq<bool>>>, start: nat, end: nat,
                              asid: nat)
    requires Shape(bulk, valids) && |bulk1| == ENTRIES && asid < ASIDS
  {
    forall p :: 0 <= p < ENTRIES && bulk1[p] != bulk[p] ==>
      exists q :: start <= q < end && IsHit(bulk, valids, q, asid, p)
  }

  lemma OnePageMore(bulk: seq<Tlb>, bulk1: seq<Tlb>, bulk2: seq<Tlb>, valids: seq<seq<seq<bool>>>, start: nat,
                    page: nat, asid: nat)
    requires Shape(bulk, valids) && |bulk1| == |bulk2| == ENTRIES && asid < ASIDS && start <= page
    requires OnlyZeroed(bulk, bulk1) && OnlyInRange(bulk, bulk1, valids, start, page, asid)
    requires bulk2 == bulk1 ||
             (SetValid(valids, asid, SetOf(PAGE * page)) &&
              exists w :: 0 <= w < WAYS && IsFirst(bulk1, PAGE * page, asid, w) &&
                          bulk2 == bulk1[Cell(asid, SetOf(PAGE * page), w) := ZERO])
    ensures OnlyInRange(bulk, bulk2, valids, start, page + 1, asid)
  {
    hide Matches, Bits.Bit, SetOf;
    forall p | 0 <= p < ENTRIES && bulk2[p] != bulk[p]
      ensures exists q :: start <= q < page + 1 && IsHit(bulk, valids, q, asid, p)
    {
      if bulk1[p] != bulk[p] {
        var q :| start <= q < page && IsHit(bulk, valids, q, asid, p);
        assert start <= q < page + 1;
      } else {
        assert IsHit(bulk, valids, page, asid, p);
      }
    }
  }

  /** Zeroing makes no way hit. */
  lemma ZeroedHits(bulk: seq<Tlb>, bulk1: seq<Tlb>, va: nat, asid: nat)
    requires |bulk| == ENTRIES && asid < ASIDS && OnlyZeroed(bulk, bulk1)
    ensures NoneHits(bulk, va, asid) ==> NoneHits(bulk1, va, asid)
    ensures AtMostOne(bulk, va, asid) ==> AtMostOne(bulk1, va, asid)
  {
    hide Pow4;
    forall w | 0 <= w < WAYS
      ensures Hits(bulk1, va, asid, w) ==> Hits(bulk, va, asid, w)
    {
    }
  }

  /** What an add leaves in cell p: the new entry in its way, and, when the set was not
      valid, nothing of the same id in the other ways. */
  ghost function Added(bulk: seq<Tlb>, unused: bool, asid: nat, idx: nat, w: nat, e: Tlb, p: nat): Tlb
    requires |bulk| == ENTRIES && p < ENTRIES && asid < ASIDS && idx < SETS && w < WAYS
  {
    if p == Cell(asid, idx, w) then e
    else if unused && Cell(asid, idx, 0) <= p <= Cell(asid, idx, WAYS - 1) && bulk[p].asid == asid then ZERO
    else bulk[p]
  }

  /** What id a sees in way w of set i is as before an add for another id or set, unless it lay where
      the new entry went; in the set added to, the ways of a set that was valid stay, and those of
      one that was not show nothing. */
  ghost predicate Kept(bulk: seq<Tlb>, valids: seq<seq<seq<bool>>>, bulk1: seq<Tlb>, asid: nat, idx: nat, way: nat,
                       a: nat, i: nat, w: nat)
    requires Shape(bulk, valids) && |bulk1| == ENTRIES && asid < ASIDS && idx < SETS && way < WAYS
    requires a < ASIDS && i < SETS && w < WAYS
  {
    var e, e1 := bulk[Cell(a, i, w)], bulk1[Cell(a, i, w)];
    && (a != asid && e.asid == a && Cell(a, i, w) != Cell(asid, idx, way) ==> e1 == e)
    && (a == asid && i == idx && w != way ==>
          if SetValid(valids, a, i) then e1 == e else !(e1.valid && e1.asid == a))
    && (a == asid && i != idx ==> e1 == e)
  }

  /** An entry translates va exactly when va lies in its page, of 4^size times 4096 bytes. */
  lemma MatchesRange(va: nat, asid: nat, e: Tlb)
    ensures var bytes := PAGE * Pow4(e.size);
            var base := e.vpn / Pow4(e.size) * bytes;
            Matches(va, asid, e) <==> e.valid && e.asid == asid && base <= va < base + bytes
  {
    hide Pow4;
    var n := Pow4(e.size);
    var q := e.vpn / n;
    InMultiple(Page(va), n, q);
    Regroup(q, n);
    assert q * n <= Page(va) < q * n + n <==> PAGE * (q * n) <= va < PAGE * (q * n) + PAGE * n;
  }

  lemma Regroup(q: nat, n: nat)
    ensures q * (PAGE * n) == PAGE * (q * n)
  {
  }

  lemma InMultiple(a: nat, m: nat, q: nat)
    requires m > 0
    ensures a / m == q <==> q * m <= a < q * m + m
  {
    var d := a / m;
    assert a == d * m + a % m;
    if d < q {
      assert (d + 1) * m <= q * m;
    } else if d > q {
      assert (q + 1) * m <= d * m;
    }
  }

  lemma AddKeeps(bulk: seq<Tlb>, valids: seq<seq<seq<bool>>>, live: seq<set<Tlb>>, asid: nat, idx: nat, way: nat,
                 e: Tlb, bulk1: seq<Tlb>, valids1: seq<seq<seq<bool>>>)
    requires Fresh(bulk, valids, live) && asid < ASIDS && idx < SETS && way < WAYS && e.asid == asid
    requires |bulk1| == ENTRIES && forall p :: 0 <= p < ENTRIES ==>
               bulk1[p] == Added(bulk, !SetValid(valids, asid, idx), asid, idx, way, e, p)
    requires valids1 == valids[asid := Bits.Put(valids[asid], idx, true)]
    ensures Fresh(bulk1, valids1, live[asid := live[asid] + {e}])
  {
    hide Bits.Put, Bits.Bit;
    var live1 := live[asid := live[asid] + {e}];
    forall a, i, w | 0 <= a < ASIDS && 0 <= i < SETS && 0 <= w < WAYS
      ensures CellOk(bulk1, valids1, live1, a, i, w)
    {
      assert CellOk(bulk, valids, live, a, i, w);
      assert bulk1[Cell(a, i, w)] == Added(bulk, !SetValid(valids, asid, idx), asid, idx, way, e, Cell(a, i, w));
    }
  }

  lemma InvalidateKeeps(bulk: seq<Tlb>, valids: seq<seq<seq<bool>>>, live: seq<set<Tlb>>, asid: nat,
                        none: seq<seq<bool>>)
    requires Fresh(bulk, valids, live) && asid < ASIDS && |none| == SETS / 64 && Bits.IsMap(none)
    requires forall i :: 0 <= i < SETS ==> !Bits.Bit(none, i)
    ensures Fresh(bulk, valids[asid := none], live[asid := {}])
  {
    hide Bits.Bit;
    var valids1, live1 := valids[asid := none], live[asid := {}];
    forall a, i, w | 0 <= a < ASIDS && 0 <= i < SETS && 0 <= w < WAYS
      ensures CellOk(bulk, valids1, live1, a, i, w)
    {
      assert CellOk(bulk, valids, live, a, i, w);
    }
  }

  lemma ClearKeeps(bulk: seq<Tlb>, valids: seq<seq<seq<bool>>>, live: seq<set<Tlb>>, p: nat)
    requires Fresh(bulk, valids, live) && p < ENTRIES
    ensures Fresh(bulk[p := ZERO], valids, live)
  {
    hide Bits.Bit;
    var bulk1 := bulk[p := ZERO];
    forall a, i, w | 0 <= a < ASIDS && 0 <= i < SETS && 0 <= w < WAYS
      ensures CellOk(bulk1, valids, live, a, i, w)
    {
      assert CellOk(bulk, valids, live, a, i, w);
    }
  }

  class SoftTlb {
    var bulk: seq<Tlb>
    var valids: seq<seq<seq<bool>>>
    // the entries added for each id since it was last invalidated
    ghost var live: seq<set<Tlb>>

    ghost predicate Valid()
      reads this
    {
      Fresh(bulk, valids, live)
    }

    /** H2K_mem_stlb_init over memory with arbitrary contents. */
    constructor (garbage: seq<Tlb>)
      requires |garbage| == ENTRIES
      ensures Valid() && live == seq(ASIDS, i => {})
    {
      bulk := garbage;
      valids := seq(ASIDS, i => seq(SETS / 64, j => seq(64, k => false)));
      live := seq(ASIDS, i => {});
    }

    /** H2K_mem_stlb_find: the cell of the first way that matches, or -1. */
    method Find(va: nat, asid: nat) returns (p: int)
      requires Valid() && asid < ASIDS
      ensures var idx := SetOf(va);
              if p < 0 then
                p == -1 && (SetValid(valids, asid, idx) ==>
                              forall w :: 0 <= w < WAYS ==> !Matches(va, asid, bulk[Cell(asid, idx, w)]))
              else
                && p < ENTRIES && Matches(va, asid, bulk[p]) && bulk[p] in live[asid] && SetValid(valids, asid, idx)
                && exists w :: 0 <= w < WAYS && IsFirst(bulk, va, asid, w) && p == Cell(asid, idx, w)
    {
      hide Bits.Bit, Pow4;
      var idx := SetOf(va);
      if !Bits.Bit(valids[asid], idx) { return -1; }
      for i := 0 to WAYS
        invariant forall w :: 0 <= w < i ==> !Matches(va, asid, bulk[Cell(asid, idx, w)])
      {
        if Matches(va, asid, bulk[Cell(asid, idx, i)]) {
          assert CellOk(bulk, valids, live, asid, idx, i);
          assert IsFirst(bulk, va, asid, i);
          return Cell(asid, idx, i);
        }
      }
      p := -1;
    }

    /** H2K_mem_stlb_lookup: a non-zero answer matches va and was added for this id since
        its last invalidation; the answer is zero only when no way of a valid set matches. */
    method Lookup(va: nat, asid: nat) returns (e: Tlb)
      requires Valid() && asid < ASIDS
      ensures e == ZERO || (Matches(va, asid, e) && e in live[asid])
      ensures e != ZERO <==>
                && SetValid(valids, asid, SetOf(va))
                && exists w :: 0 <= w < WAYS && Matches(va, asid, bulk[Cell(asid, SetOf(va), w)])
      ensures e != ZERO ==>
                exists w :: 0 <= w < WAYS && IsFirst(bulk, va, asid, w) && e == bulk[Cell(asid, SetOf(va), w)]
    {
      hide Bits.Bit, Pow4;
      var i := Find(va, asid);
      e := if i >= 0 then bulk[i] else ZERO;
    }

    /** H2K_mem_stlb_add; way is the random way. */
    method Add(va: nat, asid: nat, e: Tlb, way: nat)
      requires Valid() && asid < ASIDS && way < WAYS && e.asid == asid
      modifies this
      ensures Valid() && live == old(live)[asid := old(live)[asid] + {e}]
      ensures SetValid(valids, asid, SetOf(va)) && bulk[Cell(asid, SetOf(va), way)] == e
      ensures Shape(old(bulk), old(valids))
      ensures forall a, i :: 0 <= a < ASIDS && 0 <= i < SETS && (a != asid || i != SetOf(va)) ==>
                (SetValid(valids, a, i) <==> SetValid(old(valids), a, i))
      ensures forall p :: 0 <= p < ENTRIES ==>
                bulk[p] == Added(old(bulk), !SetValid(old(valids), asid, SetOf(va)), asid, SetOf(va), way, e, p)
      ensures forall a, i, w :: 0 <= a < ASIDS && 0 <= i < SETS && 0 <= w < WAYS ==>
                Kept(old(bulk), old(valids), bulk, asid, SetOf(va), way, a, i, w)
    {
      hide Bits.Bit, Bits.Put;
      var idx := SetOf(va);
      if !Bits.Bit(valids[asid], idx) {
        for i := 0 to WAYS
          invariant |bulk| == ENTRIES && valids == old(valids) && live == old(live)
          invariant forall p :: 0 <= p < ENTRIES ==>
                      bulk[p] ==
                        if Cell(asid, idx, 0) <= p < Cell(asid, idx, 0) + i && old(bulk[p]).asid == asid then ZERO
                        else old(bulk)[p]
        {
          if bulk[Cell(asid, idx, i)].asid == asid {
            bulk := bulk[Cell(asid, idx, i) := ZERO];
          }
        }
        valids := valids[asid := Bits.Put(valids[asid], idx, true)];
      } else {
        Unchanged(valids[asid], idx);
      }
      bulk := bulk[Cell(asid, idx, way) := e];
      AddKeeps(old(bulk), old(valids), live, asid, idx, way, e, bulk, valids);
      live := live[asid := live[asid] + {e}];
    }

    /** H2K_mem_stlb_invalidate_asid. */
    method InvalidateAsid(asid: nat)
      requires Valid() && asid < ASIDS
      modifies this
      ensures Valid() && live == old(live)[asid := {}] && bulk == old(bulk) && |old(valids)| == ASIDS
      ensures forall i :: 0 <= i < SETS ==> !SetValid(valids, asid, i)
      ensures forall a :: 0 <= a < ASIDS && a != asid ==> valids[a] == old(valids)[a]
    {
      hide Bits.Bit;
      var words := valids[asid];
      for i := 0 to SETS / 64
        invariant |words| == SETS / 64 && Bits.IsMap(words)
        invariant forall j, b :: 0 <= j < i && 0 <= b < 64 ==> !words[j][b]
      {
        words := words[i := seq(64, k => false)];
      }
      NoBits(words);
      InvalidateKeeps(bulk, valids, live, asid, words);
      valids := valids[asid := words];
      live := live[asid := {}];
    }

    /** The loop body of H2K_mem_stlb_invalidate_va: only the first way that hits is zeroed, so
        the page is gone from a valid set exactly when at most one way hit. */
    method InvalidatePage(va: nat, asid: nat)
      requires Valid() && asid < ASIDS
      modifies this
      ensures Valid() && live == old(live) && valids == old(valids) && |old(bulk)| == ENTRIES &&
              OnlyZeroed(old(bulk), bulk)
      ensures SetValid(valids, asid, SetOf(va)) ==> (NoneHits(bulk, va, asid) <==> AtMostOne(old(bulk), va, asid))
      ensures bulk == old(bulk) ||
              (SetValid(valids, asid, SetOf(va)) &&
               exists w :: 0 <= w < WAYS && IsFirst(old(bulk), va, asid, w) &&
                           bulk == old(bulk)[Cell(asid, SetOf(va), w) := ZERO])
    {
      hide Bits.Bit, Pow4, Fresh, Matches, IsFirst;
      IsShape(bulk, valids, live);
      var i := Find(va, asid);
      if i >= 0 {
        ghost var w :| 0 <= w < WAYS && IsFirst(bulk, va, asid, w) && i == Cell(asid, SetOf(va), w);
        ZeroFirst(bulk, va, asid, w);
        ClearKeeps(bulk, valids, live, i);
        bulk := bulk[i := ZERO];
      }
    }

    /** H2K_mem_stlb_invalidate_va over the pages of a range.  A page that at most one way held
        is gone; for a range of one page that is exact. */
    method InvalidateVa(va: nat, count: nat, asid: nat)
      requires Valid() && asid < ASIDS && count > 0
      modifies this
      ensures Valid() && live == old(live) && valids == old(valids) && |old(bulk)| == ENTRIES &&
              OnlyZeroed(old(bulk), bulk)
      ensures forall q :: Page(va) <= q <= Page(va + count - 1) ==> PageGone(old(bulk), bulk, valids, q, asid)
      ensures OnlyInRange(old(bulk), bulk, valids, Page(va), Page(va + count - 1) + 1, asid)
      ensures Page(va) == Page(va + count - 1) && SetValid(valids, asid, SetOf(PAGE * Page(va))) ==>
                (NoneHits(bulk, PAGE * Page(va), asid) <==> AtMostOne(old(bulk), PAGE * Page(va), asid))
    {
      hide Bits.Bit, Fresh, Hits, AtMostOne, NoneHits, Page;
      var page, end := Page(va), Page(va + count - 1);
      ghost var start := page;
      RangeNotEmpty(va, count);
      IsShape(bulk, valids, live);
      while page <= end
        invariant start <= page <= end + 1
        invariant Valid() && live == old(live) && valids == old(valids) && Shape(bulk, valids) &&
                  OnlyZeroed(old(bulk), bulk)
        invariant page == start ==> bulk == old(bulk)
        invariant OnlyInRange(old(bulk), bulk, valids, start, page, asid)
        invariant forall q :: start <= q < page ==> PageGone(old(bulk), bulk, valids, q, asid)
        invariant page == start + 1 && SetValid(valids, asid, SetOf(PAGE * start)) ==>
                    (NoneHits(bulk, PAGE * start, asid) <==> AtMostOne(old(bulk), PAGE * start, asid))
      {
        ghost var before := bulk;
        InvalidatePage(PAGE * page, asid);
        IsShape(bulk, valids, live);
        forall q: nat | start <= q <= page
          ensures PageGone(old(bulk), bulk, valids, q, asid)
        {
          if q < page { assert PageGone(old(bulk), before, valids, q, asid); }
          ZeroedHits(before, bulk, PAGE * q, asid);
          ZeroedHits(old(bulk), before, PAGE * q, asid);
        }
        OnePageMore(old(bulk), before, bulk, valids, start, page, asid);
        page := page + 1;
      }
    }

    /** Two hardware threads that miss on a page at once both add it; the invalidation of the page
        takes out one entry, and a lookup still answers. */
    static method TwiceAdded(garbage: seq<Tlb>, rest: nat) returns (e: Tlb)
      requires |garbage| == ENTRIES
      ensures e == Tlb(true, 1, 0, 0, rest)
    {
      hide Bits.Bit, Bits.Put, Fresh;
      var s := new SoftTlb(garbage);
      var page := Tlb(true, 1, 0, 0, rest);
      s.Add(0, 1, page, 0);
      s.Add(0, 1, page, 1);
      IsShape(s.bulk, s.valids, s.live);
      assert Hits(s.bulk, 0, 1, 0) && Hits(s.bulk, 0, 1, 1);
      s.InvalidateVa(0, PAGE, 1);
      e := s.Lookup(0, 1);
    }
  }

  lemma IsShape(bulk: seq<Tlb>, valids: seq<seq<seq<bool>>>, live: seq<set<Tlb>>)
    requires Fresh(bulk, valids, live)
    ensures Shape(bulk, valids)
  {
  }

  /** Setting a bit that is set changes nothing. */
  lemma Unchanged(ws: seq<seq<bool>>, p: nat)
    requires Bits.IsMap(ws) && p < 64 * |ws| && Bits.Bit(ws, p)
    ensures Bits.Put(ws, p, true) == ws
  {
    var i, j := p / 64, p % 64;
    assert ws[i][j := true] == ws[i];
  }

  lemma NoBits(ws: seq<seq<bool>>)
    requires Bits.IsMap(ws) && forall j, b :: 0 <= j < |ws| && 0 <= b < 64 ==> !ws[j][b]
    ensures forall i :: 0 <= i < 64 * |ws| ==> !Bits.Bit(ws, i)
  {
  }
}
