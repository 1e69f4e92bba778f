/** Argon2id (RFC 9106) end to end, as the Swift client computes it: the byte
    encodings, the variable-length hash H', the address blocks and the digest. */
module Argon2id {
  import opened Arith
  import opened Words
  import opened Blake2b
  import opened BlaMka
  import opened Argon2Index
  import opened Argon2Memory

  function LE32(x: nat): (b: seq<byte>)
    ensures |b| == 4
  {
    [x % 256, x / 0x100 % 256, x / 0x1_0000 % 256, x / 0x100_0000 % 256]
  }

  // ------------------------------------------------------------------ H'

  /** What follows the first 32 bytes taken from `chunk`. */
  function Chain(chunk: seq<byte>, remaining: nat): (out: seq<byte>)
    requires |chunk| == 64 && 1 <= remaining
    ensures |out| == remaining
    decreases remaining
  {
    hide Hash;
    if remaining > 64 then
      var next := Hash(chunk, 64);
      next[..32] + Chain(next, remaining - 32)
    else
      Hash(chunk, remaining)
  }

  /** The variable-length hash H' of RFC 9106 section 3.3. */
  function HPrime(outlen: nat, input: seq<byte>): (out: seq<byte>)
    requires 1 <= outlen && |input| < 0x10_0000_0000_0000
    ensures |out| == outlen
  {
    var prefixed := LE32(outlen) + input;
    if outlen <= 64 then Hash(prefixed, outlen)
    else
      var chunk := Hash(prefixed, 64);
      chunk[..32] + Chain(chunk, outlen - 32)
  }

  // -------------------------------------------------------------- blocks

  function LoadWords(bytes: seq<byte>): block
    requires |bytes| == 1024
  {
    seq(128, i requires 0 <= i < 128 =>
      Merge(Word32(bytes, 8 * i, 1024), Word32(bytes, 8 * i + 4, 1024)))
  }

  function BlockBytes(b: block): (bytes: seq<byte>)
    ensures |bytes| == 1024
  {
    seq(1024, i requires 0 <= i < 1024 => ByteOf(b[i / 8], i % 8))
  }

  function ZeroBlock(): block { seq(128, _ => 0) }

  function Halves(w: u64): (p: Pair)
    ensures p.Word() == w
  {
    Pair(w % 0x1_0000_0000, w / 0x1_0000_0000)
  }

  // ---------------------------------------------------------- parameters

  /** What the caller chooses. */
  datatype Cost = Cost(time: nat, memory: nat, lanes: nat, hashLength: nat) {
    predicate Valid() {
      && 1 <= lanes && 1 <= hashLength
      && 8 * lanes < 0x1_0000_0000 && memory < 0x1_0000_0000
      && time < 0x1_0000_0000 && hashLength < 0x1_0000_0000
    }

    function Clamped(): nat { if memory < 8 * lanes then 8 * lanes else memory }

    function MemoryBlocks(): nat
      requires lanes >= 1
    {
      ClampDivides(Clamped(), 4 * lanes);
      Clamped() - Clamped() % (4 * lanes)
    }

    function Shape(): (p: Params)
      requires Valid()
      ensures p.Valid() && p.lanes == lanes && p.lanes * p.LaneLength() == MemoryBlocks()
    {
      ShapeValid(Clamped(), lanes);
      Params(lanes, Clamped() / (4 * lanes))
    }
  }

  lemma ClampDivides(x: nat, m: nat)
    requires m > 0
    ensures x % m <= x
  {
    Euclid(x, m);
    MulMono(m, 0, x / m);
  }

  lemma ShapeValid(clamped: nat, lanes: nat)
    requires lanes >= 1 && 8 * lanes <= clamped < 0x1_0000_0000
    ensures
      var segment := clamped / (4 * lanes);
      && 2 <= segment && 4 * segment < 0x1_0000_0000
      && lanes * (4 * segment) == clamped - clamped % (4 * lanes)
  {
    var m, segment := 4 * lanes, clamped / (4 * lanes);
    Euclid(clamped, m);
    if segment < 2 {
      MulMono(m, segment, 1);
    }
    MulComm(m, segment);
    MulMono(segment, 4, m);
    MulAssoc(lanes, 4, segment);
    MulComm(lanes, 4);
  }

  // ------------------------------------------------- data-independent part

  /** The counter block from which addresses are drawn. */
  function AddressInput(cost: Cost, lane: nat, slice: nat, counter: nat): block
    requires cost.Valid() && lane < cost.lanes && slice < 4 && counter < 0x1_0000_0000_0000_0000
  {
    ZeroBlock()[1 := lane][2 := slice][3 := cost.MemoryBlocks()][4 := cost.time][5 := 2][6 := counter]
  }

  ghost function AddressBlock(cost: Cost, lane: nat, slice: nat, counter: nat): block
    requires cost.Valid() && lane < cost.lanes && slice < 4 && counter < 0x1_0000_0000_0000_0000
  {
    var zero := ZeroBlock();
    FillBlock(zero, FillBlock(zero, AddressInput(cost, lane, slice, counter), zero, false), zero, false)
  }

  /** The address of `index` is word `index % 128` of block number `index / 128 + 1`. */
  ghost function Address(cost: Cost, lane: nat, slice: nat, index: nat): Pair {
    if cost.Valid() && lane < cost.lanes && slice < 4 && index < 0x1_0000_0000 then
      Halves(AddressBlock(cost, lane, slice, index / 128 + 1)[index % 128])
    else Pair(0, 0)
  }

  // -------------------------------------------------------------- digest

  function Header(passwordLength: nat, cost: Cost): (bytes: seq<byte>)
    ensures |bytes| == 28
  {
    LE32(cost.lanes) + LE32(cost.hashLength) + LE32(cost.memory) + LE32(cost.time)
    + LE32(0x13) + LE32(2) + LE32(passwordLength)
  }

  /** The input of the first hash (RFC 9106 section 3.2), with no key and no
      associated data. */
  function Preimage(password: seq<byte>, salt: seq<byte>, cost: Cost): (bytes: seq<byte>)
    ensures |bytes| == 40 + |password| + |salt|
  {
    Header(|password|, cost) + password + LE32(|salt|) + salt + LE32(0) + LE32(0)
  }

  function SeedBlock(h0: seq<byte>, lane: nat, column: nat): block
    requires |h0| == 64
  {
    LoadWords(HPrime(1024, h0 + LE32(column) + LE32(lane)))
  }

  ghost function EngineOf(cost: Cost, h0: seq<byte>): Engine<block>
    requires |h0| == 64
  {
    Engine(
      (prev: block, ref: block, target: block, withXor: bool) => FillBlock(prev, ref, target, withXor),
      (b: block) => Halves(b[0]),
      (lane: nat, slice: nat, index: nat) => Address(cost, lane, slice, index),
      (lane: nat, column: nat) => SeedBlock(h0, lane, column))
  }

  lemma FirstPassIgnoresTarget(cost: Cost, h0: seq<byte>)
    requires |h0| == 64
    ensures IgnoresTarget(EngineOf(cost, h0))
  {
    hide Permute, XorBlocks;
  }

  function XorAll(column: seq<block>): block
    requires column != []
  {
    if |column| == 1 then column[0]
    else XorBlocks(XorAll(column[..|column| - 1]), column[|column| - 1])
  }

  ghost function DigestOf(cost: Cost, m: Memory<block>): (out: seq<byte>)
    requires cost.Valid() && Argon2Memory.Shape(cost.Shape(), m)
    ensures |out| == cost.hashLength
  {
    HPrime(cost.hashLength, BlockBytes(XorAll(LastColumn(cost.Shape(), m))))
  }

  /** The digest computed in a buffer with the given old contents. */
  ghost function DigestIn(password: seq<byte>, salt: seq<byte>, cost: Cost, buffer: Memory<block>): (out: seq<byte>)
    requires cost.Valid() && |password| < 0x1_0000_0000 && |salt| < 0x1_0000_0000
    requires Argon2Memory.Shape(cost.Shape(), buffer)
    ensures |out| == cost.hashLength
  {
    DigestOf(cost, Run(EngineOf(cost, Hash(Preimage(password, salt, cost), 64)), cost.Shape(), buffer, cost.time))
  }

  /** The Swift client clears its buffer before every call. */
  ghost function Digest(password: seq<byte>, salt: seq<byte>, cost: Cost): (out: seq<byte>)
    requires cost.Valid() && |password| < 0x1_0000_0000 && |salt| < 0x1_0000_0000
    ensures |out| == cost.hashLength
  {
    DigestIn(password, salt, cost, Uniform(cost.Shape(), ZeroBlock()))
  }

  /** With at least one pass the old contents of the buffer are irrelevant. */
  lemma DigestForgetsBuffer(password: seq<byte>, salt: seq<byte>, cost: Cost, buffer: Memory<block>)
    requires cost.Valid() && |password| < 0x1_0000_0000 && |salt| < 0x1_0000_0000
    requires Argon2Memory.Shape(cost.Shape(), buffer) && cost.time >= 1
    ensures DigestIn(password, salt, cost, buffer) == Digest(password, salt, cost)
  {
    hide IgnoresTarget, Run, EngineOf, Hash, Preimage, DigestOf;
    var h0 := Hash(Preimage(password, salt, cost), 64);
    FirstPassIgnoresTarget(cost, h0);
    RunForgetsBuffer(EngineOf(cost, h0), cost.Shape(), buffer, Uniform(cost.Shape(), ZeroBlock()), cost.time);
  }
}
