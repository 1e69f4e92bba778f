/** Keyless BLAKE2b (RFC 7693, sections 3.1 to 3.3) on 64-bit words, as the
    Swift client computes it. This is the meaning the JavaScript client's
    32-bit code is proved to have. */
module Blake2b {
  import opened Bits
  import opened Words

  type byte = x: int | 0 <= x < 256
  type index = x: int | 0 <= x < 16

  const IV: seq<u64> := [
    0x6a09e667f3bcc908, 0xbb67ae8584caa73b, 0x3c6ef372fe94f82b, 0xa54ff53a5f1d36f1,
    0x510e527fade682d1, 0x9b05688c2b3e6c1f, 0x1f83d9abfb41bd6b, 0x5be0cd19137e2179
  ]

  /** The message word schedule of each round. */
  const SIGMA: seq<seq<index>> := [
    [0, 1, 2, 3, 4, 5, 6, 7, 8, 9, 10, 11, 12, 13, 14, 15],
    [14, 10, 4, 8, 9, 15, 13, 6, 1, 12, 0, 2, 11, 7, 5, 3],
    [11, 8, 12, 0, 5, 2, 15, 13, 10, 14, 3, 6, 7, 1, 9, 4],
    [7, 9, 3, 1, 13, 12, 11, 14, 2, 6, 5, 10, 4, 0, 15, 8],
    [9, 0, 5, 7, 2, 4, 10, 15, 14, 1, 11, 12, 6, 8, 3, 13],
    [2, 12, 6, 10, 0, 11, 8, 3, 4, 13, 7, 5, 15, 14, 1, 9],
    [12, 5, 1, 15, 14, 13, 4, 10, 0, 7, 6, 3, 9, 2, 8, 11],
    [13, 11, 7, 14, 12, 1, 3, 9, 5, 0, 15, 4, 8, 6, 2, 10],
    [6, 15, 14, 9, 11, 3, 0, 8, 12, 2, 13, 7, 1, 4, 10, 5],
    [10, 2, 8, 4, 7, 6, 1, 5, 15, 11, 9, 14, 3, 12, 13, 0],
    [0, 1, 2, 3, 4, 5, 6, 7, 8, 9, 10, 11, 12, 13, 14, 15],
    [14, 10, 4, 8, 9, 15, 13, 6, 1, 12, 0, 2, 11, 7, 5, 3]
  ]

  function Schedule(round: nat): (s: seq<index>)
    requires round < 12
    ensures |s| == 16
  {
    SIGMA[round]
  }

  /** The mixing function of RFC 7693 section 3.1, updating `v` in place. */
  function Mix(v: seq<u64>, a: nat, b: nat, c: nat, d: nat, x: u64, y: u64): (r: seq<u64>)
    requires a < |v| && b < |v| && c < |v| && d < |v|
    ensures |r| == |v|
  {
    var v := v[a := Add64(Add64(v[a], v[b]), x)];
    var v := v[d := Rotr64(Xor64(v[d], v[a]), 32)];
    var v := v[c := Add64(v[c], v[d])];
    var v := v[b := Rotr64(Xor64(v[b], v[c]), 24)];
    var v := v[a := Add64(Add64(v[a], v[b]), y)];
    var v := v[d := Rotr64(Xor64(v[d], v[a]), 16)];
    var v := v[c := Add64(v[c], v[d])];
    v[b := Rotr64(Xor64(v[b], v[c]), 63)]
  }

  function MixColumns(v: seq<u64>, m: seq<u64>, s: seq<index>): (r: seq<u64>)
    requires |v| == |m| == |s| == 16
    ensures |r| == 16
  {
    var v := Mix(v, 0, 4, 8, 12, m[s[0]], m[s[1]]);
    var v := Mix(v, 1, 5, 9, 13, m[s[2]], m[s[3]]);
    var v := Mix(v, 2, 6, 10, 14, m[s[4]], m[s[5]]);
    Mix(v, 3, 7, 11, 15, m[s[6]], m[s[7]])
  }

  function MixDiagonals(v: seq<u64>, m: seq<u64>, s: seq<index>): (r: seq<u64>)
    requires |v| == |m| == |s| == 16
    ensures |r| == 16
  {
    var v := Mix(v, 0, 5, 10, 15, m[s[8]], m[s[9]]);
    var v := Mix(v, 1, 6, 11, 12, m[s[10]], m[s[11]]);
    var v := Mix(v, 2, 7, 8, 13, m[s[12]], m[s[13]]);
    Mix(v, 3, 4, 9, 14, m[s[14]], m[s[15]])
  }

  function Round(v: seq<u64>, m: seq<u64>, s: seq<index>): (r: seq<u64>)
    requires |v| == |m| == |s| == 16
    ensures |r| == 16
  {
    MixDiagonals(MixColumns(v, m, s), m, s)
  }

  function Rounds(v: seq<u64>, m: seq<u64>, n: nat): (r: seq<u64>)
    requires |v| == |m| == 16 && n <= 12
    ensures |r| == 16
  {
    if n == 0 then v else Round(Rounds(v, m, n - 1), m, Schedule(n - 1))
  }

  /** The working vector before the first round. */
  function StartVector(h: seq<u64>, counter: u64, last: bool): (v: seq<u64>)
    requires |h| == 8
    ensures |v| == 16
  {
    var v := h + IV;
    var v := v[12 := Xor64(v[12], counter)];
    if last then v[14 := Not64(v[14])] else v
  }

  function FoldHalves(h: seq<u64>, v: seq<u64>): (r: seq<u64>)
    requires |h| == 8 && |v| == 16
    ensures |r| == 8
  {
    seq(8, i requires 0 <= i < 8 => Xor64(h[i], Xor64(v[i], v[8 + i])))
  }

  /** The compression function of RFC 7693 section 3.2. */
  function Compress(h: seq<u64>, m: seq<u64>, counter: u64, last: bool): (r: seq<u64>)
    requires |h| == 8 && |m| == 16
    ensures |r| == 8
  {
    FoldHalves(h, Rounds(StartVector(h, counter, last), m, 12))
  }

  // ------------------------------------------------------- message bytes

  /** Byte `k` of the message, reading zeros from `limit` on. */
  function PaddedByte(input: seq<byte>, k: nat, limit: nat): byte
    requires limit <= |input|
  {
    if k < limit then input[k] else 0
  }

  function Word32(input: seq<byte>, k: nat, limit: nat): u32
    requires limit <= |input|
  {
    PaddedByte(input, k, limit)
    + 0x100 * PaddedByte(input, k + 1, limit)
    + 0x1_0000 * PaddedByte(input, k + 2, limit)
    + 0x100_0000 * PaddedByte(input, k + 3, limit)
  }

  /** Sixteen little-endian words, zero padded. */
  function MessageWords(input: seq<byte>, offset: nat, limit: nat): (m: seq<u64>)
    requires limit <= |input|
    ensures |m| == 16
  {
    seq(16, i requires 0 <= i < 16 =>
      Merge(Word32(input, offset + 8 * i, limit), Word32(input, offset + 8 * i + 4, limit)))
  }

  function BlockCount(length: nat): (n: nat)
    ensures n >= 1
    ensures 128 * (n - 1) <= length <= 128 * n
  {
    if length == 0 then 1 else (length + 127) / 128
  }

  /** How many message bytes are consumed once `b` of the blocks are absorbed. */
  function Counted(length: nat, b: nat): nat {
    if b == BlockCount(length) then length else 128 * b
  }

  /** The chaining value after `b` blocks. */
  function Absorb(input: seq<byte>, outlen: nat, b: nat): (h: seq<u64>)
    requires outlen <= 64 && b <= BlockCount(|input|) && |input| < 0x1_0000_0000_0000_0000
    ensures |h| == 8
  {
    if b == 0 then
      IV[0 := Xor64(IV[0], Xor64(0x0101_0000, outlen))]
    else
      var limit := Counted(|input|, b);
      Compress(Absorb(input, outlen, b - 1), MessageWords(input, 128 * (b - 1), limit),
               limit, b == BlockCount(|input|))
  }

  /** Byte `k` of a word, lowest first. */
  function ByteOf(w: u64, k: nat): byte
    requires k < 8
  {
    ShiftRight(w, 8 * k) % 256
  }

  function DigestBytes(h: seq<u64>, outlen: nat): (out: seq<byte>)
    requires |h| == 8 && outlen <= 64
    ensures |out| == outlen
  {
    seq(outlen, i requires 0 <= i < outlen => ByteOf(h[i / 8], i % 8))
  }

  /** RFC 7693 section 3.3, without a key. */
  function Hash(input: seq<byte>, outlen: nat): (out: seq<byte>)
    requires 1 <= outlen <= 64 && |input| < 0x1_0000_0000_0000_0000
    ensures |out| == outlen
  {
    DigestBytes(Absorb(input, outlen, BlockCount(|input|)), outlen)
  }
}
