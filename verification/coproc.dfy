/** Coprocessor contexts: per unit a 32-bit mask of the contexts that exist, and the map from
    an ordinal over the selected units to a unit and a bit. */
module Coproc {

  const BITS: nat := 32
  const WORD: nat := 0x1_0000_0000

  /** The set bits below position b. */
  ghost function CountBelow(bits: seq<bool>, b: nat): (n: nat)
    requires b <= |bits|
    ensures n <= b
  {
    if b == 0 then 0 else CountBelow(bits, b - 1) + if bits[b - 1] then 1 else 0
  }

  ghost function Pop(bits: seq<bool>): nat {
    CountBelow(bits, |bits|)
  }

  lemma {:induction false} CountGrows(bits: seq<bool>, a: nat, b: nat)
    requires a <= b <= |bits|
    ensures CountBelow(bits, a) <= CountBelow(bits, b)
    ensures a < b && bits[a] ==> CountBelow(bits, a) < CountBelow(bits, b)
  {
    if a == b {
    } else {
      CountGrows(bits, a, b - 1);
    }
  }

  // ---------------------------------------------------------------- bit positions

  /** The first entries of out are the positions of the set bits, in ascending order. */
  ghost predicate IsBitpos(bits: seq<bool>, out: seq<nat>) {
    && |out| == |bits|
    && forall b :: 0 <= b < |bits| && bits[b] ==> PlacedBit(bits, out, b)
  }

  ghost predicate PlacedBit(bits: seq<bool>, out: seq<nat>, b: nat)
    requires |out| == |bits| && b < |bits|
  {
    CountBelow(bits, b) < |out| && out[CountBelow(bits, b)] == b
  }

  /** coproc_build_bitpos over a buffer of 32 bytes. */
  method BuildBitpos(bits: seq<bool>, buffer: seq<nat>) returns (out: seq<nat>)
    requires |buffer| == |bits|
    ensures IsBitpos(bits, out)
  {
    out := buffer;
    var pos, k := 0, 0;
    while pos < |bits| && exists b :: pos <= b < |bits| && bits[b]
      invariant pos <= |bits| && |out| == |bits| && k == CountBelow(bits, pos)
      invariant forall b :: 0 <= b < pos && bits[b] ==> PlacedBit(bits, out, b)
      decreases |bits| - pos
    {
      if bits[pos] {
        forall b | 0 <= b < pos && bits[b] ensures CountBelow(bits, b) < k { CountGrows(bits, b, pos); }
        out := out[k := pos];
        k := k + 1;
      }
      pos := pos + 1;
    }
  }

  /** The k-th table entry of a unit with more than k contexts is one of its contexts. */
  lemma {:induction false} KthBit(bits: seq<bool>, out: seq<nat>, k: nat, b: nat)
    requires IsBitpos(bits, out) && b <= |bits| && k < CountBelow(bits, b)
    ensures k < |out| && out[k] < |bits| && bits[out[k]] && CountBelow(bits, out[k]) == k
  {
    if bits[b - 1] && CountBelow(bits, b - 1) == k {
      assert PlacedBit(bits, out, b - 1);
    } else {
      KthBit(bits, out, k, b - 1);
    }
  }

  // ---------------------------------------------------------------- ordinals

  /** The contexts in the selected units before unit u. */
  ghost function Before(units: seq<seq<bool>>, mask: seq<bool>, u: nat): nat
    requires u <= |units| <= |mask|
  {
    if u == 0 then 0 else Before(units, mask, u - 1) + if mask[u - 1] then Pop(units[u - 1]) else 0
  }

  ghost function Total(units: seq<seq<bool>>, mask: seq<bool>): nat
    requires |units| <= |mask|
  {
    Before(units, mask, |units|)
  }

  /** Bit b of unit u is a context of a selected unit. */
  ghost predicate Exists(units: seq<seq<bool>>, mask: seq<bool>, u: nat, b: nat)
    requires |units| <= |mask|
  {
    u < |units| && mask[u] && b < |units[u]| && units[u][b]
  }

  ghost function Ordinal(units: seq<seq<bool>>, mask: seq<bool>, u: nat, b: nat): nat
    requires |units| <= |mask| && Exists(units, mask, u, b)
  {
    Before(units, mask, u) + CountBelow(units[u], b)
  }

  lemma {:induction false} BeforeGrows(units: seq<seq<bool>>, mask: seq<bool>, u: nat, v: nat)
    requires u < v <= |units| <= |mask|
    ensures Before(units, mask, u) + (if mask[u] then Pop(units[u]) else 0) <= Before(units, mask, v)
  {
    if u == v - 1 {
    } else {
      BeforeGrows(units, mask, u, v - 1);
    }
  }

  /** Ordinals are below the total. */
  lemma OrdinalRange(units: seq<seq<bool>>, mask: seq<bool>, u: nat, b: nat)
    requires |units| <= |mask| && Exists(units, mask, u, b)
    ensures Ordinal(units, mask, u, b) < Before(units, mask, u) + Pop(units[u]) <= Total(units, mask)
  {
    CountGrows(units[u], b, |units[u]|);
    BeforeGrows(units, mask, u, |units|);
  }

  /** Different contexts have different ordinals. */
  lemma OrdinalInjective(units: seq<seq<bool>>, mask: seq<bool>, u: nat, b: nat, v: nat, c: nat)
    requires |units| <= |mask| && Exists(units, mask, u, b) && Exists(units, mask, v, c)
    requires Ordinal(units, mask, u, b) == Ordinal(units, mask, v, c)
    ensures u == v && b == c
  {
    hide Before, CountBelow;
    OrdinalRange(units, mask, u, b);
    OrdinalRange(units, mask, v, c);
    if u < v {
      BeforeGrows(units, mask, u, v);
    } else if v < u {
      BeforeGrows(units, mask, v, u);
    } else if b < c {
      CountGrows(units[u], b, c);
    } else if c < b {
      CountGrows(units[u], c, b);
    }
  }

  /** Ordinals count the contexts unit by unit and, within a unit, bit by bit. */
  lemma OrdinalOrder(units: seq<seq<bool>>, mask: seq<bool>, u: nat, b: nat, v: nat, c: nat)
    requires |units| <= |mask| && Exists(units, mask, u, b) && Exists(units, mask, v, c)
    ensures Ordinal(units, mask, u, b) < Ordinal(units, mask, v, c) <==> u < v || (u == v && b < c)
  {
    hide Before, CountBelow;
    OrdinalRange(units, mask, u, b);
    OrdinalRange(units, mask, v, c);
    if u < v {
      BeforeGrows(units, mask, u, v);
    } else if v < u {
      BeforeGrows(units, mask, v, u);
    } else if b < c {
      CountGrows(units[u], b, c);
    } else if c < b {
      CountGrows(units[u], c, b);
    }
  }

  lemma {:induction false} FindBit(bits: seq<bool>, k: nat, b: nat) returns (i: nat)
    requires b <= |bits| && k < CountBelow(bits, b)
    ensures i < b && bits[i] && CountBelow(bits, i) == k
  {
    if bits[b - 1] && CountBelow(bits, b - 1) == k { i := b - 1; } else { i := FindBit(bits, k, b - 1); }
  }

  /** Every ordinal below the total is that of a context: the map is a bijection. */
  lemma {:induction false} OrdinalExists(units: seq<seq<bool>>, mask: seq<bool>, n: nat, v: nat)
    returns (u: nat, b: nat)
    requires v <= |units| <= |mask| && n < Before(units, mask, v)
    ensures Exists(units, mask, u, b) && Ordinal(units, mask, u, b) == n
  {
    if n < Before(units, mask, v - 1) {
      u, b := OrdinalExists(units, mask, n, v - 1);
    } else {
      u := v - 1;
      b := FindBit(units[u], n - Before(units, mask, u), |units[u]|);
    }
  }

  // ---------------------------------------------------------------- the tables

  /** The count and position tables of one entry type describe the units. */
  ghost predicate Tables(units: seq<seq<bool>>, counts: seq<nat>, bitpos: seq<seq<nat>>) {
    && |counts| == |bitpos| == |units| <= BITS
    && forall u ::
         0 <= u < |units| ==> |units[u]| == BITS && counts[u] == Pop(units[u]) && IsBitpos(units[u], bitpos[u])
  }

  /** init_entry_contexts for the next unit. */
  method InitEntry(units: seq<seq<bool>>, counts: seq<nat>, bitpos: seq<seq<nat>>, bits: seq<bool>, buffer: seq<nat>)
      returns (counts1: seq<nat>, bitpos1: seq<seq<nat>>)
    requires Tables(units, counts, bitpos) && |units| < BITS && |bits| == |buffer| == BITS
    ensures Tables(units + [bits], counts1, bitpos1)
  {
    hide Pop, IsBitpos;
    var n := PopCount(bits);
    var out := BuildBitpos(bits, buffer);
    counts1, bitpos1 := counts + [n], bitpos + [out];
  }

  /** The population-count instruction. */
  method PopCount(bits: seq<bool>) returns (n: nat)
    ensures n == Pop(bits)
  {
    n := 0;
    for b := 0 to |bits|
      invariant n == CountBelow(bits, b)
    {
      if bits[b] { n := n + 1; }
    }
  }

  /** h2_coproc_count: the contexts of the selected units, by the sum over all units when all
      32 mask bits are set. */
  method Count(counts: seq<nat>, mask: seq<bool>, ghost units: seq<seq<bool>>, ghost bitpos: seq<seq<nat>>)
    returns (n: nat)
    requires Tables(units, counts, bitpos) && |mask| == BITS
    ensures n == Total(units, mask)
  {
    hide Pop, IsBitpos;
    n := 0;
    if forall i :: 0 <= i < BITS ==> mask[i] {
      for i := 0 to |counts|
        invariant n == Before(units, mask, i)
      {
        n := n + counts[i];
      }
    } else {
      var i := 0;
      while i < BITS
        invariant i <= |units| && n == Before(units, mask, i)
      {
        if i >= |counts| { break; }
        if mask[i] { n := n + counts[i]; }
        i := i + 1;
      }
    }
  }

  /** h2_coproc_set with enable: it succeeds iff num is below the count, and then it picks the
      context with that ordinal.  num is a 32-bit word. */
  method Select(counts: seq<nat>, bitpos: seq<seq<nat>>, mask: seq<bool>, num: nat, ghost units: seq<seq<bool>>)
      returns (ok: bool, unit: nat, bit: nat)
    requires Tables(units, counts, bitpos) && |mask| == BITS && num < WORD
    ensures ok <==> num < Total(units, mask)
    ensures ok ==> Exists(units, mask, unit, bit) && Ordinal(units, mask, unit, bit) == num
  {
    hide Pop, IsBitpos;
    TotalFits(units, mask);
    var left, idx := (num + 1) % WORD, 0;
    while left != 0 && idx < |counts|
      invariant idx <= |units| && left >= 0 && (left == 0 ==> num == WORD - 1)
      invariant left != 0 ==> left == num + 1 - Before(units, mask, idx)
      decreases |counts| - idx
    {
      if mask[idx] {
        var n := counts[idx];
        if left <= n {
          KthIn(units[idx], bitpos[idx], left - 1);
          unit, bit := idx, bitpos[idx][left - 1];
          OrdinalRange(units, mask, unit, bit);
          return true, unit, bit;
        }
        left := left - n;
      }
      idx := idx + 1;
    }
    ok, unit, bit := false, 0, 0;
  }

  lemma KthIn(bits: seq<bool>, out: seq<nat>, k: nat)
    requires IsBitpos(bits, out) && k < Pop(bits)
    ensures k < |out| && out[k] < |bits| && bits[out[k]] && CountBelow(bits, out[k]) == k
  {
    KthBit(bits, out, k, |bits|);
  }

  lemma {:induction false} BeforeFits(units: seq<seq<bool>>, mask: seq<bool>, u: nat)
    requires u <= |units| <= |mask| && forall v :: 0 <= v < |units| ==> |units[v]| == BITS
    ensures Before(units, mask, u) <= BITS * u
  {
    if u == 0 {
    } else {
      BeforeFits(units, mask, u - 1);
    }
  }

  lemma TotalFits(units: seq<seq<bool>>, mask: seq<bool>)
    requires |units| <= |mask| == BITS && forall v :: 0 <= v < |units| ==> |units[v]| == BITS
    ensures Total(units, mask) < WORD - 1
  {
    BeforeFits(units, mask, |units|);
  }
}
