/** A whole call of the JavaScript `argon2id`, with the buffer it keeps between
    calls: for every input it returns what the 64-bit form returns. */
module Argon2Call {
  import opened Words
  import opened WordArrays
  import opened Blake2b
  import opened Blake2bLanes
  import opened BlaMka
  import opened BlaMkaLanes
  import opened Argon2Index
  import opened Argon2Memory
  import opened Argon2id
  import opened Argon2Lanes
  import opened Argon2Fill

  /** All passes over the memory. */
  method FillMemory(cost: Cost, ghost h0: seq<byte>, mem: array<u32>, r: array<u32>, t: array<u32>, a: Addresses)
    requires cost.Valid() && |h0| == 64 && Buffers(cost.Shape(), mem, r, t, a)
    modifies mem, r, t, a.input, a.addresses, a.mem, a.r, a.t
    ensures View(cost.Shape(), mem[..])
         == FillPasses(EngineOf(cost, h0), cost.Shape(), old(View(cost.Shape(), mem[..])), cost.time)
  {
    hide Cost.Shape, EngineOf, View, FillSegment, Blocks;
    var p := cost.Shape();
    ghost var e := EngineOf(cost, h0);
    ghost var start := View(p, mem[..]);
    for pass := 0 to cost.time
      invariant View(p, mem[..]) == FillPasses(e, p, start, pass)
    {
      ghost var atPass := View(p, mem[..]);
      for slice := 0 to 4
        invariant View(p, mem[..]) == FillSlices(e, p, atPass, pass, slice)
      {
        ghost var atSlice := View(p, mem[..]);
        for lane := 0 to cost.lanes
          invariant View(p, mem[..]) == FillLanes(e, p, atSlice, pass, slice, lane)
        {
          SegmentLanes(cost, h0, mem, r, t, a, pass, slice, lane);
        }
      }
    }
  }

  // -------------------------------------------------------------- seeding

  method LoadCell(p: Params, mem: array<u32>, l: nat, c: nat, bytes: seq<byte>)
    requires p.Valid() && mem.Length == 256 * Blocks(p) && l < p.lanes && c < p.LaneLength() && |bytes| == 1024
    modifies mem
    ensures View(p, mem[..]) == PutBlock<block>(old(View(p, mem[..])), l, c, LoadWords(bytes))
  {
    hide Blocks, BlockAt, LoadWords;
    NumberInRange(p, l, c);
    ghost var before := mem[..];
    LoadBlockLanes(mem, (l * p.LaneLength() + c) * 256, bytes);
    ViewUpdate(p, before, mem[..], l, c, LoadWords(bytes));
  }

  method SeedBytes(seed: array<byte>, ghost h0: seq<byte>, lane: nat, column: nat) returns (bytes: array<byte>)
    requires seed.Length == 72 && |h0| == 64 && seed[..64] == h0
    modifies seed
    ensures seed[..64] == h0
    ensures fresh(bytes) && bytes[..] == HPrime(1024, h0 + LE32(column) + LE32(lane))
  {
    hide LE32, HPrime;
    WriteU32LE(seed, 64, column);
    WriteU32LE(seed, 68, lane);
    assert seed[..64] == seed[..68][..64] == h0;
    assert seed[..] == h0 + LE32(column) + LE32(lane);
    bytes := HPrimeLanes(1024, seed[..]);
  }

  ghost function SeedLane(h0: seq<byte>, row: seq<block>, l: nat): seq<block>
    requires |h0| == 64 && |row| >= 2
  {
    hide SeedBlock;
    row[0 := SeedBlock(h0, l, 0)][1 := SeedBlock(h0, l, 1)]
  }

  method SeedColumns(p: Params, mem: array<u32>, seed: array<byte>, ghost h0: seq<byte>, lane: nat)
    requires p.Valid() && mem.Length == 256 * Blocks(p) && lane < p.lanes
    requires seed.Length == 72 && |h0| == 64 && seed[..64] == h0
    modifies mem, seed
    ensures seed[..64] == h0
    ensures View(p, mem[..]) == old(View(p, mem[..]))[lane := SeedLane(h0, old(View(p, mem[..]))[lane], lane)]
  {
    hide Blocks, View, HPrime, LoadWords, LE32;
    var bytes := SeedBytes(seed, h0, lane, 0);
    LoadCell(p, mem, lane, 0, bytes[..]);
    bytes := SeedBytes(seed, h0, lane, 1);
    LoadCell(p, mem, lane, 1, bytes[..]);
  }

  /** Seed the first two columns of every lane. */
  method SeedMemory(cost: Cost, mem: array<u32>, h0: seq<byte>)
    requires cost.Valid() && mem.Length == 256 * Blocks(cost.Shape()) && |h0| == 64
    modifies mem
    ensures View(cost.Shape(), mem[..]) == Seed(EngineOf(cost, h0), cost.Shape(), old(View(cost.Shape(), mem[..])))
  {
    hide Cost.Shape, View, SeedBlock, Blocks;
    var p := cost.Shape();
    ghost var start := View(p, mem[..]);
    var seed := new byte[72];
    SetBytes(seed, 0, h0);
    for lane := 0 to cost.lanes
      invariant seed[..64] == h0
      invariant forall l :: 0 <= l < p.lanes ==>
        View(p, mem[..])[l] == if l < lane then SeedLane(h0, start[l], l) else start[l]
    {
      SeedColumns(p, mem, seed, h0, lane);
    }
  }

  // ------------------------------------------------------------ the digest

  method CopyFinal(p: Params, mem: array<u32>) returns (final: array<u32>)
    requires p.Valid() && mem.Length == 256 * Blocks(p)
    ensures fresh(final) && final.Length == 256
    ensures WordsOf(final[..]) == View(p, mem[..])[0][p.LaneLength() - 1]
  {
    hide Blocks, WordsOf;
    NumberInRange(p, 0, p.LaneLength() - 1);
    final := new u32[256](_ => 0);
    CopyLanes(mem, (p.LaneLength() - 1) * 256, final, 0);
    assert final[..] == final[0..256];
    assert 256 * Number(p, 0, p.LaneLength() - 1) == (p.LaneLength() - 1) * 256;
  }

  method XorFinal(p: Params, mem: array<u32>, final: array<u32>, lane: nat)
    requires p.Valid() && mem.Length == 256 * Blocks(p) && lane < p.lanes
    requires final.Length == 256 && final != mem
    modifies final
    ensures WordsOf(final[..]) == XorBlocks(old(WordsOf(final[..])), View(p, mem[..])[lane][p.LaneLength() - 1])
  {
    hide Blocks, WordsOf, Xor32, XorBlocks;
    NumberInRange(p, lane, p.LaneLength() - 1);
    ghost var before := final[..];
    var off := (lane * p.LaneLength() + p.LaneLength() - 1) * 256;
    assert off == 256 * Number(p, lane, p.LaneLength() - 1);
    for i := 0 to 256
      invariant forall k :: 0 <= k < i ==> final[k] == Xor32(before[k], mem[off + k])
      invariant forall k :: i <= k < 256 ==> final[k] == before[k]
    {
      final[i] := Xor32(final[i], mem[off + i]);
    }
    XorLanes(before, mem[..][off..off + 256], final[..]);
  }

  method FinalBlock(p: Params, mem: array<u32>) returns (final: array<u32>)
    requires p.Valid() && mem.Length == 256 * Blocks(p)
    ensures fresh(final) && final.Length == 256
    ensures WordsOf(final[..]) == XorAll(LastColumn(p, View(p, mem[..])))
  {
    hide Blocks, WordsOf, XorBlocks, View;
    final := CopyFinal(p, mem);
    ghost var column := LastColumn(p, View(p, mem[..]));
    assert column[..1] == [column[0]];
    for lane := 1 to p.lanes
      invariant WordsOf(final[..]) == XorAll(column[..lane])
    {
      XorFinal(p, mem, final, lane);
      assert column[..lane + 1][..lane] == column[..lane];
    }
    assert column[..p.lanes] == column;
  }

  method FinalBytes(final: array<u32>) returns (bytes: array<byte>)
    requires final.Length == 256
    ensures fresh(bytes) && bytes[..] == BlockBytes(WordsOf(final[..]))
  {
    hide WordsOf, BlockBytes, LE32, WrittenUpTo;
    bytes := new byte[1024];
    NothingWritten(final[..], bytes[..]);
    for i := 0 to 256
      invariant WrittenUpTo(final[..], bytes[..], i)
    {
      ghost var before := bytes[..];
      WriteU32LE(bytes, 4 * i, final[i]);
      WrittenNext(final[..], before, bytes[..], i);
    }
    BytesOfLanes(final[..], bytes[..]);
  }

  /** The first `n` lanes stand in the bytes, four each. */
  ghost predicate WrittenUpTo(lanes: seq<u32>, bytes: seq<byte>, n: nat) {
    n <= |lanes| && |bytes| == 4 * |lanes| && forall k :: 0 <= k < n ==> bytes[4 * k..4 * k + 4] == LE32(lanes[k])
  }

  lemma NothingWritten(lanes: seq<u32>, bytes: seq<byte>)
    requires |bytes| == 4 * |lanes|
    ensures WrittenUpTo(lanes, bytes, 0)
  {
  }

  lemma WrittenNext(lanes: seq<u32>, before: seq<byte>, after: seq<byte>, n: nat)
    requires WrittenUpTo(lanes, before, n) && n < |lanes| && |after| == |before|
    requires after[..4 * n + 4] == before[..4 * n] + LE32(lanes[n])
    ensures WrittenUpTo(lanes, after, n + 1)
  {
    hide LE32;
    assert after[..4 * n] == after[..4 * n + 4][..4 * n] == before[..4 * n];
    forall k | 0 <= k < n + 1
      ensures after[4 * k..4 * k + 4] == LE32(lanes[k])
    {
      if k < n {
        SliceOfPrefix(after, before, 4 * n, 4 * k, 4 * k + 4);
      } else {
        assert after[4 * n..4 * n + 4] == after[..4 * n + 4][4 * n..];
      }
    }
  }

  lemma ByteOfLanes(lanes: seq<u32>, bytes: seq<byte>, i: nat)
    requires |lanes| == 256 && WrittenUpTo(lanes, bytes, 256) && i < 1024
    ensures bytes[i] == BlockBytes(WordsOf(lanes))[i]
  {
    hide LE32, ByteOf, Merge, And32, Shr;
    var j, k := i / 8, i / 4;
    assert bytes[i] == bytes[4 * k..4 * k + 4][i % 4];
    assert bytes[4 * k..4 * k + 4] == LE32(lanes[k]);
    hide WrittenUpTo;
    LaneByte(lanes[2 * j], lanes[2 * j + 1], i % 4);
    LowBytes(lanes[k]);
    ShiftZero(lanes[k]);
    if i % 8 < 4 {
      assert k == 2 * j && i % 4 == i % 8;
    } else {
      assert k == 2 * j + 1 && i % 8 == 4 + i % 4;
    }
  }

  lemma BytesOfLanes(lanes: seq<u32>, bytes: seq<byte>)
    requires |lanes| == 256 && WrittenUpTo(lanes, bytes, 256)
    ensures bytes == BlockBytes(WordsOf(lanes))
  {
    forall i | 0 <= i < 1024
      ensures bytes[i] == BlockBytes(WordsOf(lanes))[i]
    {
      ByteOfLanes(lanes, bytes, i);
    }
  }

  lemma ShiftZero(x: u32)
    ensures Shr(x, 8 * 0) == x
  {
  }

  // ------------------------------------------------------------ whole call

  /** Seeding and all passes. */
  method RunLanes(cost: Cost, h0: seq<byte>, mem: array<u32>, r: array<u32>, t: array<u32>)
    requires cost.Valid() && mem.Length == 256 * Blocks(cost.Shape()) && |h0| == 64
    requires r.Length == t.Length == 256 && mem != r && mem != t && r != t
    modifies mem, r, t
    ensures View(cost.Shape(), mem[..])
         == Run(EngineOf(cost, h0), cost.Shape(), old(View(cost.Shape(), mem[..])), cost.time)
  {
    hide Cost.Shape, View, Blocks, EngineOf, Seed, FillPasses;
    SeedMemory(cost, mem, h0);
    var addresses := new Addresses();
    FillMemory(cost, h0, mem, r, t, addresses);
  }

  /** The digest of the memory after the last pass. */
  method FinishLanes(cost: Cost, mem: array<u32>) returns (out: array<byte>)
    requires cost.Valid() && mem.Length == 256 * Blocks(cost.Shape())
    ensures fresh(out) && out[..] == DigestOf(cost, View(cost.Shape(), mem[..]))
  {
    hide Cost.Shape, View, Blocks, HPrime, BlockBytes, XorAll, LastColumn, WordsOf;
    var final := FinalBlock(cost.Shape(), mem);
    var bytes := FinalBytes(final);
    out := HPrimeLanes(cost.hashLength, bytes[..]);
  }

  method DigestLanes(password: seq<byte>, salt: seq<byte>, cost: Cost, mem: array<u32>, r: array<u32>, t: array<u32>)
    returns (out: array<byte>)
    requires cost.Valid() && |password| < 0x1_0000_0000 && |salt| < 0x1_0000_0000
    requires mem.Length == 256 * Blocks(cost.Shape())
    requires r.Length == t.Length == 256 && mem != r && mem != t && r != t
    modifies mem, r, t
    ensures fresh(out) && out[..] == DigestIn(password, salt, cost, old(View(cost.Shape(), mem[..])))
  {
    hide Cost.Shape, View, Blocks, Hash, Preimage, DigestOf, Run, EngineOf;
    var preimage := PreimageLanes(password, salt, cost);
    var h0 := HashLanes(preimage[..], 64);
    RunLanes(cost, h0[..], mem, r, t);
    out := FinishLanes(cost, mem);
  }

  /** What the caller keeps between calls: the large buffer and two scratch
      blocks, all absent before the first call. */
  class State {
    var mem: array?<u32>
    var r: array?<u32>
    var t: array?<u32>

    constructor ()
      ensures Valid() && fresh(Repr()) && mem == null
    {
      mem, r, t := null, null, null;
    }

    ghost predicate Valid()
      reads this
    {
      && (r != null <==> t != null)
      && (r != null && t != null ==> r.Length == t.Length == 256 && r != t)
      && (mem != null && r != null && t != null ==> mem != r && mem != t)
    }

    ghost function Repr(): set<object>
      reads this
    {
      {this} + (if mem == null then {} else {mem}) + (if r == null then {} else {r}) + (if t == null then {} else {t})
    }

    /** Keep the buffer when it has the right size; otherwise take a zeroed one. */
    method Prepare(needed: nat) returns (buffer: array<u32>, r: array<u32>, t: array<u32>)
      requires Valid()
      modifies this
      ensures Valid() && this.mem == buffer && this.r == r && this.t == t
      ensures buffer.Length == needed && r.Length == t.Length == 256
      ensures buffer != r && buffer != t && r != t
      ensures old(mem) != null && old(mem).Length == needed ==> buffer == old(mem)
      ensures old(mem) == null || old(mem).Length != needed ==>
        fresh(buffer) && forall i :: 0 <= i < needed ==> buffer[i] == 0
      ensures fresh(Repr() - old(Repr()))
    {
      if mem == null || mem.Length != needed {
        mem := new u32[needed](_ => 0);
      }
      if this.r == null {
        this.r, this.t := new u32[256](_ => 0), new u32[256](_ => 0);
      }
      buffer, r, t := mem, this.r, this.t;
    }

    /** The digest, computed in whatever the last call left in the buffer. It is
        the digest of a cleared buffer as soon as there is one pass. */
    method Argon2id(password: seq<byte>, salt: seq<byte>, cost: Cost) returns (out: array<byte>)
      requires Valid() && cost.Valid() && |password| < 0x1_0000_0000 && |salt| < 0x1_0000_0000
      modifies Repr()
      ensures Valid() && fresh(Repr() - old(Repr())) && fresh(out)
      ensures cost.time >= 1 ==> out[..] == Digest(password, salt, cost)
      ensures old(mem) != null && old(mem).Length == 256 * Blocks(cost.Shape()) ==>
        out[..] == DigestIn(password, salt, cost, View(cost.Shape(), old(mem[..])))
    {
      hide Cost.Shape, View, Blocks, DigestIn, Digest;
      var p := cost.Shape();
      var buffer, r, t := Prepare(256 * Blocks(p));
      ghost var start := View(p, buffer[..]);
      out := DigestLanes(password, salt, cost, buffer, r, t);
      if cost.time >= 1 {
        DigestForgetsBuffer(password, salt, cost, start);
      }
    }
  }
}
