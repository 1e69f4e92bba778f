/** Argon2id as the JavaScript client computes it: one reused buffer of 32-bit
    lanes, byte arrays written in place, and five nested loops. */
module Argon2Lanes {
  import opened Arith
  import opened Bits
  import opened Words
  import opened WordArrays
  import opened Blake2b
  import opened Blake2bLanes
  import opened BlaMka
  import opened BlaMkaLanes
  import opened Argon2Index
  import opened Argon2Memory
  import opened Argon2id

  // ---------------------------------------------------------- byte arrays

  /** Four bytes, lowest first. */
  method WriteU32LE(target: array<byte>, offset: nat, value: nat)
    requires offset + 4 <= target.Length
    modifies target
    ensures target[..offset + 4] == old(target[..offset]) + LE32(value)
    ensures target[offset + 4..] == old(target[offset + 4..])
  {
    LowBytes(value);
    hide And32, Shr;
    target[offset] := And32(value, 0xff);
    target[offset + 1] := And32(Shr(value, 8), 0xff);
    target[offset + 2] := And32(Shr(value, 16), 0xff);
    target[offset + 3] := And32(Shr(value, 24), 0xff);
  }

  lemma LowBytes(value: nat)
    ensures And32(value, 0xff) == LE32(value)[0]
    ensures And32(Shr(value, 8), 0xff) == LE32(value)[1]
    ensures And32(Shr(value, 16), 0xff) == LE32(value)[2]
    ensures And32(Shr(value, 24), 0xff) == LE32(value)[3]
  {
    hide Bitwise, ShiftRight;
    BytePowers();
    AndMask(8, 24, 0x100, value);
    MaskByte(Shr(value, 8));
    MaskByte(Shr(value, 16));
    MaskByte(Shr(value, 24));
    ShiftRightDivides(ToU32(value), 8, 0x100);
    ShiftRightDivides(ToU32(value), 16, 0x1_0000);
    ShiftRightDivides(ToU32(value), 24, 0x100_0000);
    ByteOfRemainder(value, 0x100, 0x1_0000);
    ByteOfRemainder(value, 0x1_0000, 0x100);
    ByteOfRemainder(value, 0x100_0000, 1);
  }

  lemma ByteOfRemainder(value: nat, p: nat, q: nat)
    requires p > 0 && 256 * p * q == 0x1_0000_0000
    ensures value % 0x1_0000_0000 / p % 256 == value / p % 256
  {
    Euclid(value, 0x1_0000_0000);
    LowByteUnchanged(value % 0x1_0000_0000, value / 0x1_0000_0000, p, q);
  }

  method SetBytes(target: array<byte>, offset: nat, source: seq<byte>)
    requires offset + |source| <= target.Length
    modifies target
    ensures target[..offset + |source|] == old(target[..offset]) + source
  {
    for i := 0 to |source|
      invariant target[..offset + i] == old(target[..offset]) + source[..i]
    {
      target[offset + i] := source[i];
    }
  }

  /** The variable-length hash H', chunk by chunk into one array. */
  method HPrimeLanes(outlen: nat, input: seq<byte>) returns (out: array<byte>)
    requires 1 <= outlen && |input| < 0x10_0000_0000_0000
    ensures fresh(out) && out[..] == HPrime(outlen, input)
  {
    hide Hash, LE32, Chain;
    var prefixed := new byte[4 + |input|];
    WriteU32LE(prefixed, 0, outlen);
    SetBytes(prefixed, 4, input);
    assert prefixed[..] == LE32(outlen) + input;
    if outlen <= 64 {
      out := HashLanes(prefixed[..], outlen);
      return;
    }
    var chunk := HashLanes(prefixed[..], 64);
    out := ChainLanes(outlen, chunk);
  }

  method ChainLanes(outlen: nat, first: array<byte>) returns (out: array<byte>)
    requires first.Length == 64 && outlen > 64
    ensures fresh(out) && out[..] == first[..32] + Chain(first[..], outlen - 32)
  {
    hide Hash;
    out := new byte[outlen];
    var chunk := first;
    SetBytes(out, 0, chunk[..32]);
    var pos, remaining := 32, outlen - 32;
    ghost var goal := first[..32] + Chain(first[..], outlen - 32);
    while remaining > 64
      invariant chunk.Length == 64 && chunk != out && out.Length == outlen
      invariant pos + remaining == outlen && 1 <= remaining && 32 <= pos
      invariant out[..pos] + Chain(chunk[..], remaining) == goal
    {
      ghost var done := out[..pos];
      chunk := HashLanes(chunk[..], 64);
      SetBytes(out, pos, chunk[..32]);
      assert done + (chunk[..32] + Chain(chunk[..], remaining - 32))
          == (done + chunk[..32]) + Chain(chunk[..], remaining - 32);
      pos := pos + 32;
      remaining := remaining - 32;
    }
    var rest := HashLanes(chunk[..], remaining);
    SetBytes(out, pos, rest[..]);
    assert out[..] == out[..pos + remaining];
  }

  /** Write 1024 bytes as 256 lanes. */
  method LoadBlockLanes(mem: array<u32>, offset: nat, bytes: seq<byte>)
    requires offset + 256 <= mem.Length && |bytes| == 1024
    modifies mem
    ensures BlockAt(mem[..], offset) == LoadWords(bytes)
    ensures mem[..offset] == old(mem[..offset]) && mem[offset + 256..] == old(mem[offset + 256..])
  {
    hide Or32, Shl, Word32;
    for i := 0 to 256
      invariant forall k :: 0 <= k < i ==> mem[offset + k] == Word32(bytes, 4 * k, 1024)
      invariant mem[..offset] == old(mem[..offset])
      invariant mem[offset + 256..] == old(mem[offset + 256..])
    {
      var b := 4 * i;
      LaneOfBytes(bytes, b);
      mem[offset + i] := Or32(Or32(Or32(bytes[b], Shl(bytes[b + 1], 8)), Shl(bytes[b + 2], 16)), Shl(bytes[b + 3], 24));
    }
    LoadedBlock(mem[..][offset..offset + 256], bytes);
  }

  lemma LaneOfBytes(bytes: seq<byte>, b: nat)
    requires b + 4 <= |bytes|
    ensures Or32(Or32(Or32(bytes[b], Shl(bytes[b + 1], 8)), Shl(bytes[b + 2], 16)), Shl(bytes[b + 3], 24))
         == Word32(bytes, b, |bytes|)
  {
    hide Or32, Shl;
    BytePowers();
    var b0, b1, b2 := bytes[b] as int, bytes[b + 1] as int, bytes[b + 2] as int;
    AppendAt(8, 0x100, b0, b1);
    AppendAt(16, 0x1_0000, b0 + 0x100 * b1, b2);
    AppendAt(24, 0x100_0000, b0 + 0x100 * b1 + 0x1_0000 * b2, bytes[b + 3]);
  }

  lemma LoadedBlock(lanes: seq<u32>, bytes: seq<byte>)
    requires |lanes| == 256 && |bytes| == 1024
    requires forall k :: 0 <= k < 256 ==> lanes[k] == Word32(bytes, 4 * k, 1024)
    ensures WordsOf(lanes) == LoadWords(bytes)
  {
    hide Word32, Merge;
    forall i | 0 <= i < 128
      ensures WordsOf(lanes)[i] == LoadWords(bytes)[i]
    {
      assert 4 * (2 * i) == 8 * i && 4 * (2 * i + 1) == 8 * i + 4;
    }
  }

  method HeaderLanes(bytes: array<byte>, passwordLength: nat, cost: Cost)
    requires bytes.Length >= 28
    modifies bytes
    ensures bytes[..28] == Header(passwordLength, cost)
  {
    hide LE32;
    WriteU32LE(bytes, 0, cost.lanes);
    WriteU32LE(bytes, 4, cost.hashLength);
    WriteU32LE(bytes, 8, cost.memory);
    WriteU32LE(bytes, 12, cost.time);
    WriteU32LE(bytes, 16, 0x13);
    WriteU32LE(bytes, 20, 2);
    WriteU32LE(bytes, 24, passwordLength);
  }

  lemma PreimageIs(password: seq<byte>, salt: seq<byte>, cost: Cost)
    ensures Preimage(password, salt, cost)
         == Header(|password|, cost) + password + LE32(|salt|) + salt + LE32(0) + LE32(0)
  {
  }

  method PreimageLanes(password: seq<byte>, salt: seq<byte>, cost: Cost) returns (bytes: array<byte>)
    ensures fresh(bytes) && bytes[..] == Preimage(password, salt, cost)
  {
    hide LE32, Header, Preimage;
    bytes := new byte[40 + |password| + |salt|];
    HeaderLanes(bytes, |password|, cost);
    var p := 28;
    SetBytes(bytes, p, password);
    p := p + |password|;
    WriteU32LE(bytes, p, |salt|);
    p := p + 4;
    SetBytes(bytes, p, salt);
    p := p + |salt|;
    ghost var fields := bytes[..p];
    WriteU32LE(bytes, p, 0);
    p := p + 4;
    WriteU32LE(bytes, p, 0);
    p := p + 4;
    assert bytes[..p] == fields + LE32(0) + LE32(0);
    PreimageIs(password, salt, cost);
    assert bytes[..] == bytes[..p];
  }
}
