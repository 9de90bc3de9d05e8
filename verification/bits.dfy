/** Machine words as their bits, least significant first. */
module Bits {

  /** Q6_R_ct0: the number of trailing zeros, the word length when there is no one. */
  function Ct0(w: seq<bool>): (i: nat)
    ensures i <= |w|
    ensures i < |w| ==> w[i]
    ensures forall j :: 0 <= j < i ==> !w[j]
  {
    if w == [] || w[0] then 0 else 1 + Ct0(w[1..])
  }

  /** Q6_R_ct1: the number of trailing ones. */
  function Ct1(w: seq<bool>): (i: nat)
    ensures i <= |w|
    ensures i < |w| ==> !w[i]
    ensures forall j :: 0 <= j < i ==> w[j]
  {
    if w == [] || !w[0] then 0 else 1 + Ct1(w[1..])
  }

  // ---------------------------------------------------------------- a bitmap of 64-bit words

  ghost predicate IsMap(ws: seq<seq<bool>>) {
    forall i :: 0 <= i < |ws| ==> |ws[i]| == 64
  }

  predicate Bit(ws: seq<seq<bool>>, p: nat)
    requires IsMap(ws) && p < 64 * |ws|
  {
    ws[p / 64][p % 64]
  }

  /** Setting or clearing bit p changes that bit only. */
  function Put(ws: seq<seq<bool>>, p: nat, b: bool): (ws1: seq<seq<bool>>)
    requires IsMap(ws) && p < 64 * |ws|
    ensures IsMap(ws1) && |ws1| == |ws|
    ensures forall q :: 0 <= q < 64 * |ws| ==> Bit(ws1, q) == if q == p then b else Bit(ws, q)
  {
    var ws1 := ws[p / 64 := ws[p / 64][p % 64 := b]];
    assert forall q :: 0 <= q < 64 * |ws| && q / 64 == p / 64 && q % 64 == p % 64 ==> q == p;
    ws1
  }

  /** H2K_ready_best_prio: the first bit that is set, scanning each word by halves. */
  method FirstBit(ws: seq<seq<bool>>) returns (p: nat)
    requires IsMap(ws)
    ensures p <= 64 * |ws|
    ensures p < 64 * |ws| ==> Bit(ws, p)
    ensures forall q :: 0 <= q < p ==> !Bit(ws, q)
  {
    p := 0;
    for i := 0 to |ws|
      invariant p == 64 * i
      invariant forall q :: 0 <= q < p ==> !Bit(ws, q)
    {
      HalfClear(ws, i);
      var ct0 := Ct0(ws[i][..32]);
      p := p + ct0;
      if ct0 < 32 { return; }
      ct0 := Ct0(ws[i][32..]);
      p := p + ct0;
      if ct0 < 32 { return; }
    }
  }

  /** The bits of word i, by position in the map. */
  lemma HalfClear(ws: seq<seq<bool>>, i: nat)
    requires IsMap(ws) && i < |ws|
    ensures forall q :: 64 * i <= q < 64 * i + 64 ==> Bit(ws, q) == ws[i][q - 64 * i]
  {
  }
}
