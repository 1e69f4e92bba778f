/** The five nested loops of the JavaScript `argon2id` over one flat buffer,
    proved to fill the memory as module `Argon2Memory` prescribes. */
module Argon2Fill {
  import opened Arith
  import opened Words
  import opened WordArrays
  import opened Blake2b
  import opened BlaMka
  import opened BlaMkaLanes
  import opened Argon2Index
  import opened Argon2Memory
  import opened Argon2id
  import opened Argon2Lanes

  // ------------------------------------------------- the flat memory layout

  /** The number of a block in the flat memory. */
  function Number(p: Params, l: nat, c: nat): nat { l * p.LaneLength() + c }

  function Blocks(p: Params): nat { p.lanes * p.LaneLength() }

  lemma NumberInRange(p: Params, l: nat, c: nat)
    requires p.Valid() && l < p.lanes && c < p.LaneLength()
    ensures Number(p, l, c) < Blocks(p)
    ensures Number(p, l, c) % p.LaneLength() == c
  {
    MulMono(p.LaneLength(), l + 1, p.lanes);
    MulComm(l, p.LaneLength());
    MulComm(p.lanes, p.LaneLength());
    MulDist(p.LaneLength(), l, 1);
    DivModUnique(Number(p, l, c), l, c, p.LaneLength());
  }

  lemma NumbersDiffer(p: Params, l: nat, c: nat, l': nat, c': nat)
    requires p.Valid() && c < p.LaneLength() && c' < p.LaneLength()
    requires l != l' || c != c'
    ensures Number(p, l, c) != Number(p, l', c')
  {
    MulComm(l, p.LaneLength());
    MulComm(l', p.LaneLength());
    DivModUnique(Number(p, l, c), l, c, p.LaneLength());
    DivModUnique(Number(p, l', c'), l', c', p.LaneLength());
  }

  /** Block `c` of lane `l`, read from the flat memory. */
  function Cell(p: Params, mem: seq<u32>, l: nat, c: nat): block
    requires p.Valid() && |mem| == 256 * Blocks(p) && l < p.lanes && c < p.LaneLength()
  {
    NumberInRange(p, l, c);
    BlockAt(mem, 256 * Number(p, l, c))
  }

  ghost function View(p: Params, mem: seq<u32>): (m: Memory<block>)
    requires p.Valid() && |mem| == 256 * Blocks(p)
    ensures Argon2Memory.Shape(p, m)
    ensures forall l, c :: 0 <= l < p.lanes && 0 <= c < p.LaneLength() ==> m[l][c] == Cell(p, mem, l, c)
  {
    seq(p.lanes, l requires 0 <= l < p.lanes =>
      seq(p.LaneLength(), c requires 0 <= c < p.LaneLength() => Cell(p, mem, l, c)))
  }

  /** The two memories differ in block `n` only. */
  ghost predicate OnlyBlock(mem: seq<u32>, mem': seq<u32>, n: nat) {
    && |mem| == |mem'| && 256 * n + 256 <= |mem|
    && mem'[..256 * n] == mem[..256 * n] && mem'[256 * n + 256..] == mem[256 * n + 256..]
  }

  lemma OtherBlock(mem: seq<u32>, mem': seq<u32>, n: nat, k: nat)
    requires OnlyBlock(mem, mem', n) && 256 * k + 256 <= |mem| && n != k
    ensures BlockAt(mem', 256 * k) == BlockAt(mem, 256 * k)
  {
    hide WordsOf;
    if k < n {
      SliceOfPrefix(mem, mem', 256 * n, 256 * k, 256 * k + 256);
    } else {
      SliceOfSuffix(mem, mem', 256 * n + 256, 256 * k, 256 * k + 256);
    }
  }

  /** Overwriting one block of the flat memory changes one cell of the view. */
  lemma ViewUpdate(p: Params, mem: seq<u32>, mem': seq<u32>, l: nat, c: nat, b: block)
    requires p.Valid() && |mem| == |mem'| == 256 * Blocks(p) && l < p.lanes && c < p.LaneLength()
    requires OnlyBlock(mem, mem', Number(p, l, c)) && BlockAt(mem', 256 * Number(p, l, c)) == b
    ensures View(p, mem') == PutBlock<block>(View(p, mem), l, c, b)
  {
    hide Number, BlockAt, Blocks;
    NumberInRange(p, l, c);
    var after := PutBlock<block>(View(p, mem), l, c, b);
    forall l', c' | 0 <= l' < p.lanes && 0 <= c' < p.LaneLength()
      ensures View(p, mem')[l'][c'] == after[l'][c']
    {
      if l' != l || c' != c {
        NumberInRange(p, l', c');
        NumbersDiffer(p, l, c, l', c');
        OtherBlock(mem, mem', Number(p, l, c), Number(p, l', c'));
      }
    }
    SameCells(p, View(p, mem'), after);
  }

  lemma SameCells<B>(p: Params, m: Memory<B>, m': Memory<B>)
    requires Argon2Memory.Shape(p, m) && Argon2Memory.Shape(p, m')
    requires forall l, c :: 0 <= l < p.lanes && 0 <= c < p.LaneLength() ==> m[l][c] == m'[l][c]
    ensures m == m'
  {
    forall l | 0 <= l < p.lanes
      ensures m[l] == m'[l]
    {
    }
  }

  // ------------------------------------------------------------ one block

  lemma HalvesOfMerge(p: Pair)
    ensures Halves(p.Word()) == p
  {
  }

  method DrawAddress(addressBlock: array<u32>, index: nat) returns (j: Pair)
    requires addressBlock.Length == 256
    ensures j == Halves(WordsOf(addressBlock[..])[index % 128])
  {
    var slot := 2 * (index % 128);
    j := Pair(addressBlock[slot], addressBlock[slot + 1]);
    HalvesOfMerge(j);
  }

  method DrawFromBlock(p: Params, mem: array<u32>, ghost l: nat, ghost c: nat, number: nat) returns (j: Pair)
    requires p.Valid() && mem.Length == 256 * Blocks(p) && l < p.lanes && c < p.LaneLength()
    requires number == Number(p, l, c)
    ensures j == Halves(View(p, mem[..])[l][c][0])
  {
    hide Number, Blocks;
    NumberInRange(p, l, c);
    j := Pair(mem[number * 256], mem[number * 256 + 1]);
    HalvesOfMerge(j);
  }

  lemma DrawIs(cost: Cost, h0: seq<byte>, m: Memory<block>, pass: nat, slice: nat, lane: nat, index: nat)
    requires cost.Valid() && lane < cost.lanes && Place(cost.Shape(), pass, slice, index) && |h0| == 64
    requires Argon2Memory.Shape(cost.Shape(), m)
    requires Column(cost.Shape(), slice, index) < cost.Shape().LaneLength()
    ensures var p := cost.Shape();
      Draw(EngineOf(cost, h0), p, m, pass, slice, lane, index) ==
        if DataIndependent(pass, slice) then Halves(AddressBlock(cost, lane, slice, index / 128 + 1)[index % 128])
        else Halves(m[lane][Previous(p, Column(p, slice, index))][0])
  {
    hide AddressBlock, Cost.Shape, Previous, Column;
  }

  lemma FirstPassFill(prev: block, ref: block, x: block, y: block)
    ensures FillBlock(prev, ref, x, false) == FillBlock(prev, ref, y, false)
  {
    hide Permute, XorBlocks;
  }

  method CopyLanes(source: array<u32>, from: nat, target: array<u32>, to: nat)
    requires from + 256 <= source.Length && to + 256 <= target.Length
    requires source != target || from + 256 <= to || to + 256 <= from
    modifies target
    ensures target[to..to + 256] == old(source[from..from + 256])
    ensures target[..to] == old(target[..to]) && target[to + 256..] == old(target[to + 256..])
  {
    ghost var block := source[from..from + 256];
    for i := 0 to 256
      invariant forall k :: 0 <= k < 256 ==> block[k] == source[from + k]
      invariant forall k :: 0 <= k < i ==> block[k] == target[to + k]
      invariant target[..to] == old(target[..to]) && target[to + 256..] == old(target[to + 256..])
    {
      assert source[from + i] == block[i];
      target[to + i] := source[from + i];
    }
  }

  method CopyBlock(source: array<u32>, from: nat, target: array<u32>, to: nat)
    requires from + 256 <= source.Length && to + 256 <= target.Length
    requires source != target || from + 256 <= to || to + 256 <= from
    modifies target
    ensures BlockAt(target[..], to) == old(BlockAt(source[..], from))
    ensures target[..to] == old(target[..to])
    ensures to >= 256 ==> BlockAt(target[..], 0) == old(BlockAt(target[..], 0))
  {
    hide WordsOf;
    ghost var before := target[..];
    CopyLanes(source, from, target, to);
    if to >= 256 {
      SamePrefix(before, target[..], 0, to);
    }
    assert target[..][to..to + 256] == target[to..to + 256];
  }

  lemma WholeBlock(s: seq<u32>)
    requires |s| == 256
    ensures BlockAt(s, 0) == WordsOf(s)
  {
    assert s[0..256] == s;
  }

  lemma SamePrefix(s: seq<u32>, s': seq<u32>, off: nat, n: nat)
    requires off + 256 <= n <= |s| && n <= |s'| && s[..n] == s'[..n]
    ensures BlockAt(s, off) == BlockAt(s', off)
  {
    assert s[off..off + 256] == s[..n][off..off + 256];
    assert s'[off..off + 256] == s'[..n][off..off + 256];
  }

  /** The counter block and the addresses it produces. */
  class Addresses {
    const input: array<u32>
    const addresses: array<u32>
    const mem: array<u32>
    const r: array<u32>
    const t: array<u32>

    constructor ()
      ensures Valid() && fresh(this) && fresh(input) && fresh(addresses) && fresh(mem) && fresh(r) && fresh(t)
    {
      input := new u32[256](_ => 0);
      addresses := new u32[256](_ => 0);
      mem := new u32[768](_ => 0);
      r := new u32[256](_ => 0);
      t := new u32[256](_ => 0);
    }

    predicate Valid() {
      && input.Length == addresses.Length == r.Length == t.Length == 256 && mem.Length == 768
      && input != addresses && input != mem && input != r && input != t
      && addresses != mem && addresses != r && addresses != t
      && mem != r && mem != t && r != t
    }

    ghost function Input(): block
      requires Valid()
      reads input
    {
      WordsOf(input[..])
    }

    ghost function Words(): block
      requires Valid()
      reads addresses
    {
      WordsOf(addresses[..])
    }

    method Clear()
      requires Valid()
      modifies input
      ensures Input() == ZeroBlock()
    {
      for i := 0 to 256
        invariant forall k :: 0 <= k < i ==> input[k] == 0
      {
        input[i] := 0;
      }
      ZeroLanes(input[..]);
    }

    /** Start counting for one lane of one slice of the first pass. */
    method Reset(cost: Cost, lane: nat, slice: nat)
      requires Valid() && cost.Valid() && lane < cost.lanes && slice < 4
      modifies input
      ensures Input() == AddressInput(cost, lane, slice, 0)
    {
      hide WordsOf, ZeroBlock, Cost.MemoryBlocks;
      Clear();
      BlocksFit(cost);
      Put(input, 0, Pair(0, 0));
      Put(input, 1, Pair(lane, 0));
      Put(input, 2, Pair(slice, 0));
      Put(input, 3, Pair(cost.MemoryBlocks(), 0));
      Put(input, 4, Pair(cost.time, 0));
      Put(input, 5, Pair(2, 0));
      SixWordsSet(Input(), cost, lane, slice);
    }

    /** The next 128 address pairs. */
    method Next(cost: Cost, lane: nat, slice: nat, ghost counter: nat)
      requires Valid() && cost.Valid() && lane < cost.lanes && slice < 4 && counter < 0x1_0000_0000
      requires Input() == AddressInput(cost, lane, slice, counter)
      modifies input, addresses, mem, r, t
      ensures Input() == AddressInput(cost, lane, slice, counter + 1)
      ensures Words() == AddressBlock(cost, lane, slice, counter + 1)
    {
      hide WordsOf, ZeroBlock, FillBlock, AddressInput, BlockAt;
      Count(cost, lane, slice, counter);
      LoadInput();
      FillOnce();
      CopyBlock(mem, 512, mem, 256);
      FillOnce();
      CopyBlock(mem, 512, addresses, 0);
      WholeBlock(addresses[..]);
    }

    method LoadInput()
      requires Valid()
      modifies mem
      ensures BlockAt(mem[..], 0) == ZeroBlock() && BlockAt(mem[..], 256) == Input()
    {
      hide WordsOf, ZeroBlock;
      for i := 0 to 256
        invariant forall k :: 0 <= k < i ==> mem[k] == 0
      {
        mem[i] := 0;
      }
      ZeroLanes(mem[..][0..256]);
      ghost var before := mem[..];
      CopyLanes(input, 0, mem, 256);
      SamePrefix(before, mem[..], 0, 256);
      assert mem[..][256..512] == input[..];
    }

    method FillOnce()
      requires Valid() && BlockAt(mem[..], 0) == ZeroBlock()
      modifies mem, r, t
      ensures BlockAt(mem[..], 0) == ZeroBlock()
      ensures BlockAt(mem[..], 512)
           == FillBlock(ZeroBlock(), old(BlockAt(mem[..], 256)), ZeroBlock(), false)
    {
      hide BlockAt, ZeroBlock, FillBlock;
      ghost var before := mem[..];
      FillBlockLanes(mem, 0, 256, 512, false, r, t);
      SamePrefix(before, mem[..], 0, 512);
      FirstPassFill(ZeroBlock(), BlockAt(before, 256), BlockAt(before, 512), ZeroBlock());
    }

    method Count(cost: Cost, lane: nat, slice: nat, ghost counter: nat)
      requires Valid() && cost.Valid() && lane < cost.lanes && slice < 4 && counter < 0x1_0000_0000
      requires Input() == AddressInput(cost, lane, slice, counter)
      modifies input
      ensures Input() == AddressInput(cost, lane, slice, counter + 1)
    {
      hide WordsOf, ZeroBlock, Cost.MemoryBlocks;
      var p := At(input, 6);
      assert p.Word() == counter;
      var lo := ToU32(p.lo + 1);
      Put(input, 6, Pair(lo, if lo == 0 then ToU32(p.hi + 1) else p.hi));
      CountPair(p);
    }
  }

  lemma CountPair(p: Pair)
    requires p.Word() < 0x1_0000_0000
    ensures
      var lo := ToU32(p.lo + 1);
      Pair(lo, if lo == 0 then ToU32(p.hi + 1) else p.hi).Word() == p.Word() + 1
  {
  }

  lemma BlocksFit(cost: Cost)
    requires cost.Valid()
    ensures cost.MemoryBlocks() < 0x1_0000_0000
  {
  }

  lemma SixWordsSet(b: block, cost: Cost, lane: nat, slice: nat)
    requires cost.Valid() && lane < cost.lanes && slice < 4
    requires b == ZeroBlock()[0 := 0][1 := lane][2 := slice][3 := cost.MemoryBlocks()][4 := cost.time][5 := 2]
    ensures b == AddressInput(cost, lane, slice, 0)
  {
    assert ZeroBlock()[0] == ZeroBlock()[6] == 0;
    hide ZeroBlock, Cost.MemoryBlocks;
  }

  lemma ZeroLanes(s: seq<u32>)
    requires |s| == 256 && forall k :: 0 <= k < 256 ==> s[k] == 0
    ensures WordsOf(s) == ZeroBlock()
  {
  }

  // ------------------------------------------------------------ the loops

  /** The buffers of one call. */
  ghost predicate Buffers(p: Params, mem: array<u32>, r: array<u32>, t: array<u32>, a: Addresses) {
    && p.Valid() && mem.Length == 256 * Blocks(p)
    && r.Length == t.Length == 256 && mem != r && mem != t && r != t
    && a.Valid()
    && mem != a.input && mem != a.addresses && mem != a.mem && mem != a.r && mem != a.t
    && r != a.input && r != a.addresses && t != a.input && t != a.addresses
  }

  /** Fill cell `(l, c)` from cells `(l, pc)` and `(rl, rc)`, all given by number. */
  method FillCell(p: Params, mem: array<u32>, r: array<u32>, t: array<u32>, withXor: bool,
                  ghost l: nat, ghost c: nat, ghost pc: nat, ghost rl: nat, ghost rc: nat,
                  current: nat, previous: nat, referred: nat)
    requires p.Valid() && mem.Length == 256 * Blocks(p)
    requires r.Length == t.Length == 256 && mem != r && mem != t && r != t
    requires l < p.lanes && c < p.LaneLength() && pc < p.LaneLength() && rl < p.lanes && rc < p.LaneLength()
    requires current == Number(p, l, c) && previous == Number(p, l, pc) && referred == Number(p, rl, rc)
    modifies mem, r, t
    ensures var m := old(View(p, mem[..]));
      View(p, mem[..]) == PutBlock<block>(m, l, c, FillBlock(m[l][pc], m[rl][rc], m[l][c], withXor))
  {
    hide Number, Blocks, FillBlock, BlockAt;
    NumberInRange(p, l, c);
    NumberInRange(p, l, pc);
    NumberInRange(p, rl, rc);
    ghost var before := mem[..];
    ghost var m := View(p, before);
    FillBlockLanes(mem, previous * 256, referred * 256, current * 256, withXor, r, t);
    ViewUpdate(p, before, mem[..], l, c, FillBlock(m[l][pc], m[rl][rc], m[l][c], withXor));
  }

  /** The innermost statement: draw, choose the reference block, fill. */
  method FillStep(cost: Cost, ghost h0: seq<byte>, mem: array<u32>, r: array<u32>, t: array<u32>, a: Addresses,
                  pass: nat, slice: nat, lane: nat, index: nat, current: nat, previous: nat)
    requires cost.Valid() && lane < cost.lanes && |h0| == 64
    requires Buffers(cost.Shape(), mem, r, t, a) && Place(cost.Shape(), pass, slice, index)
    requires current == Number(cost.Shape(), lane, Column(cost.Shape(), slice, index))
    requires previous == Number(cost.Shape(), lane, Previous(cost.Shape(), Column(cost.Shape(), slice, index)))
    requires DataIndependent(pass, slice) ==> a.Words() == AddressBlock(cost, lane, slice, index / 128 + 1)
    modifies mem, r, t
    ensures View(cost.Shape(), mem[..])
         == FillOne(EngineOf(cost, h0), cost.Shape(), old(View(cost.Shape(), mem[..])), pass, slice, lane, index)
  {
    hide AddressBlock, Cost.Shape, Blocks, Previous, Column, Number, IndexAlpha, FillBlock, Draw, View, AddressInput;
    var p := cost.Shape();
    ColumnInRange(p, pass, slice, index);
    ghost var c := Column(p, slice, index);
    DrawIs(cost, h0, View(p, mem[..]), pass, slice, lane, index);
    var j;
    if pass == 0 && slice < 2 {
      j := DrawAddress(a.addresses, index);
    } else {
      j := DrawFromBlock(p, mem, lane, Previous(p, c), previous);
    }
    var refLane := if pass == 0 && slice == 0 then lane else j.hi % p.lanes;
    var refIndex := IndexAlphaLanes(p, pass, slice, index, refLane == lane, j.lo);
    var referred := refLane * p.LaneLength() + refIndex;
    NumberIs(p, refLane, refIndex);
    assert j == Draw(EngineOf(cost, h0), p, View(p, mem[..]), pass, slice, lane, index);
    FillCell(p, mem, r, t, pass != 0, lane, c, Previous(p, c), refLane, refIndex, current, previous, referred);
  }

  lemma NumberIs(p: Params, l: nat, c: nat)
    ensures Number(p, l, c) == l * p.LaneLength() + c
  {
  }

  /** Address blocks drawn once the loop reaches `index`. */
  function Drawn(index: nat): nat { if index == 0 then 0 else (index - 1) / 128 + 1 }

  lemma DrawnAt(index: nat)
    ensures Drawn(index + 1) == index / 128 + 1
    ensures index % 128 == 0 ==> Drawn(index) + 1 == Drawn(index + 1)
    ensures index % 128 != 0 ==> Drawn(index) == Drawn(index + 1)
  {
  }

  /** The rolling block numbers stand for the column and the one before it. */
  ghost predicate Rolling(p: Params, lane: nat, column: nat, current: nat, previous: nat)
    requires p.Valid()
  {
    && current == Number(p, lane, column)
    && (column != 1 ==> previous == Number(p, lane, Previous(p, column)))
  }

  lemma StartColumn(p: Params, pass: nat, slice: nat)
    requires p.Valid() && slice < 4
    ensures Column(p, slice, StartIndex(pass, slice)) < p.LaneLength()
  {
    SliceMultiples(p, slice);
  }

  lemma ColumnStep(p: Params, slice: nat, index: nat)
    ensures Column(p, slice, index + 1) == Column(p, slice, index) + 1
  {
  }

  method StartNumbers(p: Params, pass: nat, slice: nat, lane: nat)
    returns (startIndex: nat, current: nat, previous: nat)
    requires p.Valid() && slice < 4
    ensures startIndex == StartIndex(pass, slice) <= p.segment
    ensures Rolling(p, lane, Column(p, slice, startIndex), current, previous)
  {
    startIndex := if pass == 0 && slice == 0 then 2 else 0;
    StartColumn(p, pass, slice);
    current := lane * p.LaneLength() + slice * p.segment + startIndex;
    StartRolling(p, lane, Column(p, slice, startIndex), current);
    previous := if current % p.LaneLength() == 0 then current + p.LaneLength() - 1 else current - 1;
  }

  method RollNumbers(p: Params, ghost lane: nat, ghost column: nat, current: nat, previous: nat) returns (now: nat)
    requires p.Valid() && column < p.LaneLength() && Rolling(p, lane, column, current, previous)
    ensures current == Number(p, lane, column)
    ensures now == Number(p, lane, Previous(p, column))
    ensures Rolling(p, lane, column + 1, current + 1, now + 1)
  {
    RollOn(p, lane, column, current, previous);
    now := previous;
    if current % p.LaneLength() == 1 {
      now := current - 1;
    }
  }

  lemma StartRolling(p: Params, lane: nat, column: nat, current: nat)
    requires p.Valid() && column < p.LaneLength() && current == Number(p, lane, column)
    ensures
      && (current % p.LaneLength() == 0 ==> Rolling(p, lane, column, current, current + p.LaneLength() - 1))
      && (current % p.LaneLength() != 0 ==> current >= 1 && Rolling(p, lane, column, current, current - 1))
  {
    MulComm(lane, p.LaneLength());
    MulMono(p.LaneLength(), 0, lane);
    DivModUnique(current, lane, column, p.LaneLength());
  }

  /** In column one the number of the previous block has run past the lane's end
      and is taken afresh. */
  lemma RollOn(p: Params, lane: nat, column: nat, current: nat, previous: nat)
    requires p.Valid() && column < p.LaneLength() && Rolling(p, lane, column, current, previous)
    ensures current >= 1 || current % p.LaneLength() != 1
    ensures
      var now := if current % p.LaneLength() == 1 then current - 1 else previous;
      && now == Number(p, lane, Previous(p, column))
      && Rolling(p, lane, column + 1, current + 1, now + 1)
  {
    MulComm(lane, p.LaneLength());
    MulMono(p.LaneLength(), 0, lane);
    DivModUnique(current, lane, column, p.LaneLength());
  }

  /** What is known of the address generator when the loop reaches `index`. */
  ghost predicate Ready(a: Addresses, cost: Cost, lane: nat, slice: nat, index: nat)
    requires cost.Valid() && a.Valid() && lane < cost.lanes && slice < 4 && index < 0x1_0000_0000
    reads a.input, a.addresses
  {
    && a.Input() == AddressInput(cost, lane, slice, Drawn(index))
    && (Drawn(index) > 0 ==> a.Words() == AddressBlock(cost, lane, slice, Drawn(index)))
  }

  method PrepareAddresses(cost: Cost, mem: array<u32>, a: Addresses, slice: nat, lane: nat)
    requires cost.Valid() && a.Valid() && lane < cost.lanes && slice < 4
    requires mem != a.input && mem != a.addresses && mem != a.mem && mem != a.r && mem != a.t
    modifies a.input, a.addresses, a.mem, a.r, a.t
    ensures Ready(a, cost, lane, slice, StartIndex(0, slice))
  {
    hide AddressInput, AddressBlock;
    a.Reset(cost, lane, slice);
    if slice == 0 {
      a.Next(cost, lane, slice, 0);
    }
  }

  method DrawIfDue(cost: Cost, a: Addresses, slice: nat, lane: nat, index: nat)
    requires cost.Valid() && a.Valid() && lane < cost.lanes && slice < 4 && index < 0x4000_0000
    requires Ready(a, cost, lane, slice, index)
    modifies a.input, a.addresses, a.mem, a.r, a.t
    ensures Ready(a, cost, lane, slice, index + 1)
  {
    hide AddressInput, AddressBlock, Drawn;
    DrawnAt(index);
    if index % 128 == 0 {
      SmallDrawn(index);
      a.Next(cost, lane, slice, Drawn(index));
    }
  }

  lemma SmallDrawn(index: nat)
    requires index < 0x4000_0000
    ensures Drawn(index) < 0x1_0000_0000
  {
  }

  /** One turn of the innermost loop, with its numbers already known. */
  method FillNext(cost: Cost, ghost h0: seq<byte>, mem: array<u32>, r: array<u32>, t: array<u32>, a: Addresses,
                  pass: nat, slice: nat, lane: nat, index: nat, current: nat, previous: nat)
    requires cost.Valid() && lane < cost.lanes && |h0| == 64
    requires Buffers(cost.Shape(), mem, r, t, a) && Place(cost.Shape(), pass, slice, index)
    requires current == Number(cost.Shape(), lane, Column(cost.Shape(), slice, index))
    requires previous == Number(cost.Shape(), lane, Previous(cost.Shape(), Column(cost.Shape(), slice, index)))
    requires DataIndependent(pass, slice) ==> Ready(a, cost, lane, slice, index)
    modifies mem, r, t, a.input, a.addresses, a.mem, a.r, a.t
    ensures DataIndependent(pass, slice) ==> Ready(a, cost, lane, slice, index + 1)
    ensures View(cost.Shape(), mem[..])
         == FillOne(EngineOf(cost, h0), cost.Shape(), old(View(cost.Shape(), mem[..])), pass, slice, lane, index)
  {
    hide AddressBlock, AddressInput, Cost.Shape, Blocks, Number, FillOne, EngineOf, View, Drawn, Column, Previous, Addresses.Words, Addresses.Input;
    if DataIndependent(pass, slice) {
      DrawIfDue(cost, a, slice, lane, index);
      DrawnAt(index);
    }
    FillStep(cost, h0, mem, r, t, a, pass, slice, lane, index, current, previous);
  }

  /** One lane's part of one slice. */
  method SegmentLanes(cost: Cost, ghost h0: seq<byte>, mem: array<u32>, r: array<u32>, t: array<u32>, a: Addresses,
                      pass: nat, slice: nat, lane: nat)
    requires cost.Valid() && lane < cost.lanes && |h0| == 64 && slice < 4
    requires Buffers(cost.Shape(), mem, r, t, a)
    modifies mem, r, t, a.input, a.addresses, a.mem, a.r, a.t
    ensures View(cost.Shape(), mem[..])
         == FillSegment(EngineOf(cost, h0), cost.Shape(), old(View(cost.Shape(), mem[..])), pass, slice, lane,
                        cost.Shape().segment)
  {
    hide Ready, Cost.Shape, Blocks, Number, FillOne, EngineOf, View, Rolling, Column;
    var p := cost.Shape();
    ghost var start := View(p, mem[..]);
    var dataIndependent := pass == 0 && slice < 2;
    if dataIndependent {
      PrepareAddresses(cost, mem, a, slice, lane);
    }
    var startIndex, current, previous := StartNumbers(p, pass, slice, lane);
    for index := startIndex to p.segment
      invariant Rolling(p, lane, Column(p, slice, index), current, previous)
      invariant dataIndependent ==> Ready(a, cost, lane, slice, index)
      invariant View(p, mem[..]) == FillSegment(EngineOf(cost, h0), p, start, pass, slice, lane, index)
    {
      ColumnInRange(p, pass, slice, index);
      ColumnStep(p, slice, index);
      previous := RollNumbers(p, lane, Column(p, slice, index), current, previous);
      FillNext(cost, h0, mem, r, t, a, pass, slice, lane, index, current, previous);
      current := current + 1;
      previous := previous + 1;
    }
  }
}
