/** Which earlier block an Argon2 block refers to (RFC 9106, section 3.4). */
module Argon2Index {
  import opened Arith
  import opened Words

  /** The memory shape: `lanes` lanes of four segments each. */
  datatype Params = Params(lanes: nat, segment: nat) {
    predicate Valid() {
      lanes >= 1 && segment >= 2 && 4 * segment < 0x1_0000_0000
    }

    function LaneLength(): nat { 4 * segment }
  }

  /** The first two columns of the first slice are seeded, not filled. */
  function StartIndex(pass: nat, slice: nat): nat {
    if pass == 0 && slice == 0 then 2 else 0
  }

  predicate Place(p: Params, pass: nat, slice: nat, index: nat) {
    p.Valid() && slice < 4 && StartIndex(pass, slice) <= index < p.segment
  }

  /** How many blocks may be referred to. */
  function AreaSize(p: Params, pass: nat, slice: nat, index: nat, sameLane: bool): int {
    if pass == 0 then
      if slice == 0 then index - 1
      else if sameLane then slice * p.segment + index - 1
      else slice * p.segment + (if index == 0 then -1 else 0)
    else if sameLane then p.LaneLength() - p.segment + index - 1
    else p.LaneLength() - p.segment + (if index == 0 then -1 else 0)
  }

  lemma SliceMultiples(p: Params, slice: nat)
    requires slice < 4
    ensures slice * p.segment == [0, p.segment, 2 * p.segment, 3 * p.segment][slice]
    ensures (slice + 1) * p.segment == slice * p.segment + p.segment
  {
  }

  /** In the first slice of the first pass the code always refers to its own lane. */
  lemma AreaIsPositive(p: Params, pass: nat, slice: nat, index: nat, sameLane: bool)
    requires Place(p, pass, slice, index)
    ensures 1 <= AreaSize(p, pass, slice, index, sameLane) < p.LaneLength()
  {
    SliceMultiples(p, slice);
  }

  function WindowStart(p: Params, pass: nat, slice: nat): nat {
    if pass == 0 || slice == 3 then 0 else (slice + 1) * p.segment
  }

  /** `area - 1 - (area * (j1 * j1 >> 32) >> 32)`, never negative. */
  function Relative(area: nat, j1: u32): (r: nat)
    requires 1 <= area
    ensures r < area
  {
    HighWordFits(j1);
    ScaledBelow(area, HighWord(j1, j1));
    area - 1 - HighWord(area, HighWord(j1, j1))
  }

  lemma HighWordFits(x: u32)
    ensures HighWord(x, x) < 0x1_0000_0000
  {
    ProductFits(x, x);
  }

  lemma ScaledBelow(area: nat, square: u32)
    requires 1 <= area
    ensures HighWord(area, square) < area
  {
    MulMono(area, 0, square);
    MulMono(area, square, 0xffff_ffff);
    MulComm(area, 0xffff_ffff);
  }

  function Wrap(p: Params, x: nat): (c: nat)
    requires p.Valid()
    ensures c < p.LaneLength()
  {
    x % p.LaneLength()
  }

  /** The column referred to, as the Swift client computes it. */
  function IndexAlpha(p: Params, pass: nat, slice: nat, index: nat, sameLane: bool, j1: u32): (c: nat)
    requires Place(p, pass, slice, index)
    ensures c < p.LaneLength()
  {
    AreaIsPositive(p, pass, slice, index, sameLane);
    var area := AreaSize(p, pass, slice, index, sameLane);
    Wrap(p, WindowStart(p, pass, slice) + Relative(area, j1))
  }

  /** `area - 1 - mulHigh32(area, mulHigh32(j1, j1))` */
  function RelativeLanes(area: u32, j1: u32): (r: nat)
    requires 1 <= area
    ensures r == Relative(area, j1)
  {
    hide MulHigh32, HighWord;
    ScaledBelow(area, MulHigh32(j1, j1));
    area - 1 - MulHigh32(area, MulHigh32(j1, j1))
  }

  /** The JavaScript client takes both high words with `mulHigh32`. */
  function IndexAlphaLanes(p: Params, pass: nat, slice: nat, index: nat, sameLane: bool, j1: u32)
      : (c: nat)
    requires Place(p, pass, slice, index)
    ensures c == IndexAlpha(p, pass, slice, index, sameLane, j1)
  {
    hide RelativeLanes, Relative, AreaSize, Wrap;
    AreaIsPositive(p, pass, slice, index, sameLane);
    var area := AreaSize(p, pass, slice, index, sameLane);
    assert ToU32(area) == area;
    Wrap(p, WindowStart(p, pass, slice) + RelativeLanes(ToU32(area), j1))
  }

  function Column(p: Params, slice: nat, index: nat): nat { slice * p.segment + index }

  lemma ColumnInRange(p: Params, pass: nat, slice: nat, index: nat)
    requires Place(p, pass, slice, index)
    ensures Column(p, slice, index) < p.LaneLength()
  {
    SliceMultiples(p, slice);
  }

  function Previous(p: Params, column: nat): (c: nat)
    requires p.Valid()
    ensures column < p.LaneLength() ==> c < p.LaneLength()
  {
    if column == 0 then 4 * p.segment - 1 else column - 1
  }

  /** The window of columns that may be read while filling a block. */
  lemma ReadableColumns(p: Params, pass: nat, slice: nat, index: nat, sameLane: bool, j1: u32)
    requires Place(p, pass, slice, index)
    ensures
      var c := IndexAlpha(p, pass, slice, index, sameLane, j1);
      var current := Column(p, slice, index);
      && c < p.LaneLength()
      // same lane: neither the block being filled nor the one before it
      && (sameLane ==> c != current && c != Previous(p, current))
      // another lane: nothing in the slice being filled
      && (!sameLane && (pass > 0 || slice > 0) ==>
            c < slice * p.segment || (slice + 1) * p.segment <= c)
      // first pass: only blocks filled or seeded before
      && (pass == 0 && (sameLane || slice == 0) ==> c < current)
      && (pass == 0 && !sameLane && slice > 0 ==> c < slice * p.segment)
  {
    hide Relative;
    AreaIsPositive(p, pass, slice, index, sameLane);
    SliceMultiples(p, slice);
    var r := Relative(AreaSize(p, pass, slice, index, sameLane), j1);
    WrapOnce(WindowStart(p, pass, slice) + r, p.LaneLength());
  }

  lemma WrapOnce(x: nat, m: nat)
    requires x < 2 * m
    ensures x % m == if x < m then x else x - m
  {
    DivModUnique(x, if x < m then 0 else 1, if x < m then x else x - m, m);
  }
}
