/** BLAKE2b as the JavaScript client computes it: in place, on arrays of 32-bit
    lanes with explicit carries. Every routine is proved to compute the 64-bit
    function of module `Blake2b`. */
module Blake2bLanes {
  import opened Arith
  import opened Bits
  import opened Words
  import opened WordArrays
  import opened Blake2b

  method MixLanes(v: array<u32>, a: nat, b: nat, c: nat, d: nat, mx: Pair, my: Pair)
    requires v.Length == 32 && a < 16 && b < 16 && c < 16 && d < 16
    modifies v
    ensures WordsOf(v[..]) == Mix(old(WordsOf(v[..])), a, b, c, d, mx.Word(), my.Word())
  {
    hide AddPair, XorPairs, RotrPair, SwapPair, Rotl1Pair, Add64, Xor64, Rotr64, WordsOf, Pair.Word, At;
    Put(v, a, AddPair(AddPair(At(v, a), At(v, b)), mx));
    Put(v, d, SwapPair(XorPairs(At(v, d), At(v, a))));
    Put(v, c, AddPair(At(v, c), At(v, d)));
    Put(v, b, RotrPair(XorPairs(At(v, b), At(v, c)), 24));
    Put(v, a, AddPair(AddPair(At(v, a), At(v, b)), my));
    Put(v, d, RotrPair(XorPairs(At(v, d), At(v, a)), 16));
    Put(v, c, AddPair(At(v, c), At(v, d)));
    Put(v, b, Rotl1Pair(XorPairs(At(v, b), At(v, c))));
  }

  method MixColumnLanes(v: array<u32>, m: array<u32>, s: seq<index>)
    requires v.Length == 32 && m.Length == 32 && v != m && |s| == 16
    modifies v
    ensures WordsOf(v[..]) == MixColumns(old(WordsOf(v[..])), WordsOf(m[..]), s)
  {
    hide Mix, WordsOf, Pair.Word, At;
    MixLanes(v, 0, 4, 8, 12, At(m, s[0]), At(m, s[1]));
    MixLanes(v, 1, 5, 9, 13, At(m, s[2]), At(m, s[3]));
    MixLanes(v, 2, 6, 10, 14, At(m, s[4]), At(m, s[5]));
    MixLanes(v, 3, 7, 11, 15, At(m, s[6]), At(m, s[7]));
  }

  method MixDiagonalLanes(v: array<u32>, m: array<u32>, s: seq<index>)
    requires v.Length == 32 && m.Length == 32 && v != m && |s| == 16
    modifies v
    ensures WordsOf(v[..]) == MixDiagonals(old(WordsOf(v[..])), WordsOf(m[..]), s)
  {
    hide Mix, WordsOf, Pair.Word, At;
    MixLanes(v, 0, 5, 10, 15, At(m, s[8]), At(m, s[9]));
    MixLanes(v, 1, 6, 11, 12, At(m, s[10]), At(m, s[11]));
    MixLanes(v, 2, 7, 8, 13, At(m, s[12]), At(m, s[13]));
    MixLanes(v, 3, 4, 9, 14, At(m, s[14]), At(m, s[15]));
  }

  const IV_LANES: seq<u32> := [
    0xf3bcc908, 0x6a09e667, 0x84caa73b, 0xbb67ae85, 0xfe94f82b, 0x3c6ef372, 0x5f1d36f1, 0xa54ff53a,
    0xade682d1, 0x510e527f, 0x2b3e6c1f, 0x9b05688c, 0xfb41bd6b, 0x1f83d9ab, 0x137e2179, 0x5be0cd19
  ]

  lemma IVLanesSpellIV()
    ensures |IV_LANES| == 16 && |IV| == 8 && WordsOf(IV_LANES) == IV
  {
    var w := WordsOf(IV_LANES);
    assert w[0] == IV[0] && w[1] == IV[1] && w[2] == IV[2] && w[3] == IV[3];
    assert w[4] == IV[4] && w[5] == IV[5] && w[6] == IV[6] && w[7] == IV[7];
  }

  function NotPair(p: Pair): (r: Pair)
    ensures r.Word() == Not64(p.Word())
  {
    Pair(Not32(p.lo), Not32(p.hi))
  }

  /** The last loop of the compression function, lane by lane. */
  ghost predicate Folded(before: seq<u32>, v: seq<u32>, after: seq<u32>, n: nat)
    requires |before| == |after| == 16 && |v| == 32 && n <= 16
  {
    && (forall i :: 0 <= i < n ==> after[i] == Xor32(Xor32(before[i], v[i]), v[16 + i]))
    && (forall i :: n <= i < 16 ==> after[i] == before[i])
  }

  lemma FoldedWord(h: Pair, x: Pair, y: Pair)
    ensures Merge(Xor32(Xor32(h.lo, x.lo), y.lo), Xor32(Xor32(h.hi, x.hi), y.hi))
         == Xor64(h.Word(), Xor64(x.Word(), y.Word()))
  {
    hide Bitwise;
    XorPairCorrect(h.lo, h.hi, x.lo, x.hi);
    XorPairCorrect(Xor32(h.lo, x.lo), Xor32(h.hi, x.hi), y.lo, y.hi);
    XorAssociates(64, h.Word(), x.Word(), y.Word());
  }

  lemma FoldedIsFoldHalves(before: seq<u32>, v: seq<u32>, after: seq<u32>)
    requires |before| == |after| == 16 && |v| == 32 && Folded(before, v, after, 16)
    ensures WordsOf(after) == FoldHalves(WordsOf(before), WordsOf(v))
  {
    hide Xor32, Xor64, Merge;
    forall i | 0 <= i < 8
      ensures WordsOf(after)[i] == FoldHalves(WordsOf(before), WordsOf(v))[i]
    {
      FoldedWord(Pair(before[2 * i], before[2 * i + 1]), Pair(v[2 * i], v[2 * i + 1]),
                 Pair(v[2 * (8 + i)], v[2 * (8 + i) + 1]));
    }
  }

  method StartLanes(h: array<u32>, v: array<u32>, counter: Pair, last: bool)
    requires h.Length == 16 && v.Length == 32 && h != v
    modifies v
    ensures WordsOf(v[..]) == StartVector(WordsOf(h[..]), counter.Word(), last)
  {
    IVLanesSpellIV();
    for i := 0 to 16
      invariant forall k :: 0 <= k < i ==> v[k] == h[k]
    {
      v[i] := h[i];
    }
    for i := 0 to 16
      invariant forall k :: 0 <= k < 16 ==> v[k] == h[k]
      invariant forall k :: 0 <= k < i ==> v[16 + k] == IV_LANES[k]
    {
      v[16 + i] := IV_LANES[i];
    }
    assert v[..][16..] == IV_LANES;
    StartWords(h[..], v[..]);
    hide WordsOf, Xor64, Pair.Word, Not64;
    Put(v, 12, XorPairs(At(v, 12), counter));
    if last {
      Put(v, 14, NotPair(At(v, 14)));
    }
  }

  lemma StartWords(h: seq<u32>, v: seq<u32>)
    requires |h| == 16 && |v| == 32 && v[..16] == h && v[16..] == IV_LANES
    ensures WordsOf(v) == WordsOf(h) + IV
  {
    IVLanesSpellIV();
    hide Merge, IV_LANES, IV;
    forall i | 0 <= i < 16
      ensures WordsOf(v)[i] == (WordsOf(h) + IV)[i]
    {
      if i >= 8 {
        assert WordsOf(IV_LANES)[i - 8] == IV[i - 8];
        assert v[2 * i] == v[16..][2 * (i - 8)] && v[2 * i + 1] == v[16..][2 * (i - 8) + 1];
      } else {
        assert v[2 * i] == v[..16][2 * i] && v[2 * i + 1] == v[..16][2 * i + 1];
      }
    }
  }

  method CompressLanes(h: array<u32>, m: array<u32>, v: array<u32>, counter: Pair, last: bool)
    requires h.Length == 16 && m.Length == 32 && v.Length == 32
    requires h != m && h != v && m != v
    modifies h, v
    ensures WordsOf(h[..]) == Compress(old(WordsOf(h[..])), WordsOf(m[..]), counter.Word(), last)
  {
    hide WordsOf, StartVector, MixColumns, MixDiagonals, Pair.Word, FoldHalves, SIGMA, Xor32;
    StartLanes(h, v, counter, last);
    ghost var start := WordsOf(v[..]);
    for r := 0 to 12
      invariant WordsOf(v[..]) == Rounds(start, WordsOf(m[..]), r)
      invariant h[..] == old(h[..]) && m[..] == old(m[..])
    {
      MixColumnLanes(v, m, Schedule(r));
      MixDiagonalLanes(v, m, Schedule(r));
    }
    for i := 0 to 16
      invariant Folded(old(h[..]), v[..], h[..], i)
      invariant m[..] == old(m[..])
      invariant WordsOf(v[..]) == Rounds(start, WordsOf(m[..]), 12)
    {
      h[i] := Xor32(Xor32(h[i], v[i]), v[16 + i]);
    }
    FoldedIsFoldHalves(old(h[..]), v[..], h[..]);
  }

  // --------------------------------------------------------- message bytes

  lemma ShiftedByteFits(p: nat, q: nat, b: byte)
    requires q >= 256 && p * q == 0x1_0000_0000
    ensures 0 <= p * b < 0x1_0000_0000
  {
    MulMono(p, 0, b);
    MulMono(p, b + 1, q);
    MulDist(p, b, 1);
    if p == 0 {
      assert false;
    }
  }

  lemma ShlByte(n: nat, p: nat, b: byte)
    requires n <= 24 && p == Pow2(n)
    ensures Shl(b, n) == p * b && b < Pow2(32 - n)
  {
    hide ShiftLeft;
    Pow2Add(n, 32 - n);
    Pow2Add(8, 24 - n);
    MulMono(256, 1, Pow2(24 - n));
    TwoTo32();
    BytePowers();
    ShiftedByteFits(p, Pow2(32 - n), b);
    MulComm(b, p);
    ShiftLeftMultiplies(0x1_0000_0000, b, n, p);
  }

  lemma AppendAt(n: nat, p: nat, low: u32, b: byte)
    requires n <= 24 && p == Pow2(n) && low < p
    ensures Or32(low, Shl(b, n)) == low + p * b
  {
    hide Bitwise, Shl, Pow2;
    ShlByte(n, p, b);
    OrOfDisjoint(n, 32 - n, p, low, b);
  }

  lemma BytePowers()
    ensures Pow2(0) == 1 && Pow2(8) == 0x100 && Pow2(16) == 0x1_0000 && Pow2(24) == 0x100_0000
  {
    TwoTo16();
    assert Pow2(8) == 0x100;
    Pow2Add(16, 8);
  }

  /** Or-ing the next message byte into its lane extends the zero-padded word. */
  lemma AppendByte(input: seq<byte>, k: nat, s: nat)
    requires s < 4 && k + s < |input|
    ensures Or32(Word32(input, k, k + s), Shl(input[k + s], 8 * s)) == Word32(input, k, k + s + 1)
  {
    hide Bitwise, ShiftLeft, Or32, Shl;
    BytePowers();
    var low, b := Word32(input, k, k + s), input[k + s];
    if s == 0 {
      AppendAt(0, 1, low, b);
    } else if s == 1 {
      AppendAt(8, 0x100, low, b);
    } else if s == 2 {
      AppendAt(16, 0x1_0000, low, b);
    } else {
      AppendAt(24, 0x100_0000, low, b);
    }
  }

  /** Lanes hold the message from `offset` up to `limit`. */
  ghost predicate Loaded(m: seq<u32>, input: seq<byte>, offset: nat, limit: nat)
    requires |m| == 32 && limit <= |input|
  {
    forall j :: 0 <= j < 32 ==> m[j] == Word32(input, offset + 4 * j, limit)
  }

  lemma LoadedWords(m: seq<u32>, input: seq<byte>, offset: nat, limit: nat)
    requires |m| == 32 && limit <= |input| && Loaded(m, input, offset, limit)
    ensures WordsOf(m) == MessageWords(input, offset, limit)
  {
    hide Word32, Merge;
    forall i | 0 <= i < 16
      ensures WordsOf(m)[i] == MessageWords(input, offset, limit)[i]
    {
      assert offset + 4 * (2 * i) == offset + 8 * i && offset + 4 * (2 * i + 1) == offset + 8 * i + 4;
    }
  }

  lemma LoadStep(m: seq<u32>, after: seq<u32>, input: seq<byte>, offset: nat, i: nat)
    requires |m| == 32 && i < 128 && offset + i < |input|
    requires Loaded(m, input, offset, offset + i)
    requires after == m[i / 4 := Or32(m[i / 4], Shl(input[offset + i], 8 * (i % 4)))]
    ensures Loaded(after, input, offset, offset + i + 1)
  {
    hide Or32, Shl;
    AppendByte(input, offset + 4 * (i / 4), i % 4);
    forall j | 0 <= j < 32 && j != i / 4
      ensures Word32(input, offset + 4 * j, offset + i) == Word32(input, offset + 4 * j, offset + i + 1)
    {
    }
  }

  method LoadMessage(m: array<u32>, input: seq<byte>, offset: nat, take: nat)
    requires m.Length == 32 && take <= 128 && offset + take <= |input|
    modifies m
    ensures WordsOf(m[..]) == MessageWords(input, offset, offset + take)
  {
    for i := 0 to 32
      invariant forall k :: 0 <= k < i ==> m[k] == 0
    {
      m[i] := 0;
    }
    hide Word32, WordsOf, MessageWords;
    assert Loaded(m[..], input, offset, offset) by {
      EmptyWords(input, offset);
    }
    for i := 0 to take
      invariant Loaded(m[..], input, offset, offset + i)
    {
      ghost var before := m[..];
      m[i / 4] := Or32(m[i / 4], Shl(input[offset + i], 8 * (i % 4)));
      LoadStep(before, m[..], input, offset, i);
    }
    LoadedWords(m[..], input, offset, offset + take);
  }

  lemma EmptyWords(input: seq<byte>, offset: nat)
    requires offset <= |input|
    ensures forall j: nat :: Word32(input, offset + 4 * j, offset) == 0
  {
  }

  /** Masking a shifted lane picks the byte a shifted word would give. */
  lemma LaneByte(lo: u32, hi: u32, k: nat)
    requires k < 4
    ensures And32(Shr(lo, 8 * k), 0xff) == ByteOf(Merge(lo, hi), k)
    ensures And32(Shr(hi, 8 * k), 0xff) == ByteOf(Merge(lo, hi), 4 + k)
  {
    hide And32, ShiftRight, Merge;
    MaskByte(Shr(lo, 8 * k));
    MaskByte(Shr(hi, 8 * k));
    LowLaneByte(lo, hi, k);
    HighLaneByte(lo, hi, 8 * k);
  }

  lemma LowLaneByte(lo: u32, hi: u32, k: nat)
    requires k < 4
    ensures ShiftRight(Merge(lo, hi), 8 * k) % 256 == ShiftRight(lo, 8 * k) % 256
  {
    hide ShiftRight;
    BytePowers();
    var p := [1, 0x100, 0x1_0000, 0x100_0000][k];
    var q := [0x100_0000, 0x1_0000, 0x100, 1][k];
    LowByteUnchanged(lo, hi, p, q);
    ShiftRightDivides(Merge(lo, hi), 8 * k, p);
    ShiftRightDivides(lo, 8 * k, p);
  }

  lemma HighLaneByte(lo: u32, hi: u32, n: nat)
    ensures ShiftRight(Merge(lo, hi), 32 + n) == ShiftRight(hi, n)
  {
    hide ShiftRight;
    TwoTo32();
    ShiftRightAdds(Merge(lo, hi), 32, n);
    ShiftRightDivides(Merge(lo, hi), 32, 0x1_0000_0000);
  }

  lemma MaskByte(x: u32)
    ensures And32(x, 0xff) == x % 256
  {
    hide Bitwise;
    BytePowers();
    AndMask(8, 24, 0x100, x);
  }

  lemma LowByteUnchanged(lo: nat, hi: nat, p: nat, q: nat)
    requires p > 0 && 256 * p * q == 0x1_0000_0000
    ensures (lo + 0x1_0000_0000 * hi) / p % 256 == lo / p % 256
  {
    Euclid(lo, p);
    MulComm(256 * p, q);
    MulAssoc(p, 256 * q, hi);
    MulAssoc(256, p, q);
    MulComm(p, 256 * q);
    MulAssoc(256, q, p);
    MulComm(q, p);
    MulMono(q, 0, hi);
    MulAssoc(256, q, hi);
    MulDist(p, lo / p, 256 * q * hi);
    DivModUnique(lo + 0x1_0000_0000 * hi, lo / p + 256 * (q * hi), lo % p, p);
    ModShift(lo / p, q * hi, 256);
  }

  lemma {:induction false} ShiftRightAdds(x: nat, n: nat, k: nat)
    ensures ShiftRight(x, n + k) == ShiftRight(ShiftRight(x, n), k)
  {
    if k == 0 {
    } else {
      ShiftRightAdds(x, n, k - 1);
      assert n + k - 1 == n + (k - 1);
    }
  }

  /** Absorb every block of the message into `h`. */
  method AbsorbLanes(h: array<u32>, input: seq<byte>, outlen: nat)
    requires h.Length == 16 && outlen <= 64 && |input| < 0x20_0000_0000_0000
    requires WordsOf(h[..]) == Absorb(input, outlen, 0)
    modifies h
    ensures WordsOf(h[..]) == Absorb(input, outlen, BlockCount(|input|))
  {
    hide WordsOf, Compress, MessageWords, Absorb, Pair.Word;
    var v := new u32[32];
    var m := new u32[32];
    var blocks := BlockCount(|input|);
    for b := 0 to blocks
      invariant WordsOf(h[..]) == Absorb(input, outlen, b)
    {
      var offset := b * 128;
      var last := b == blocks - 1;
      var take := if last then |input| - offset else 128;
      LoadMessage(m, input, offset, take);
      var counted := if last then |input| else offset + 128;
      var counter := CounterPair(counted);
      CompressLanes(h, m, v, counter, last);
      NextAbsorb(input, outlen, b + 1);
    }
  }

  function CounterPair(counted: nat): (p: Pair)
    requires counted < 0x20_0000_0000_0000
    ensures p.Word() == counted
  {
    Pair(counted % 0x1_0000_0000, counted / 0x1_0000_0000)
  }

  /** Keyless BLAKE2b with an output length of 1 to 64 bytes. */
  method HashLanes(input: seq<byte>, outlen: nat) returns (out: array<byte>)
    requires 1 <= outlen <= 64 && |input| < 0x20_0000_0000_0000
    ensures fresh(out) && out[..] == Hash(input, outlen)
  {
    hide WordsOf, DigestBytes, Absorb, LaneDigest;
    var h := new u32[16];
    InitialLanes(h, outlen);
    StartAbsorb(input, outlen);
    AbsorbLanes(h, input, outlen);
    out := WriteDigest(h, outlen);
  }

  method WriteDigest(h: array<u32>, outlen: nat) returns (out: array<byte>)
    requires h.Length == 16 && outlen <= 64
    ensures fresh(out) && out[..] == DigestBytes(WordsOf(h[..]), outlen)
  {
    hide WordsOf, DigestBytes, LaneDigest;
    out := new byte[outlen];
    ghost var lanes := h[..];
    for i := 0 to outlen
      invariant h[..] == lanes
      invariant forall k :: 0 <= k < i ==> out[k] == LaneDigest(lanes, k)
    {
      out[i] := LaneDigest(h[..], i);
    }
    DigestOfLanes(lanes, out[..]);
  }

  /** The digest byte the final loop writes at `i`. */
  function LaneDigest(h: seq<u32>, i: nat): byte
    requires |h| == 16 && i < 64
  {
    hide Bitwise, ShiftRight;
    MaskByte(Shr(h[i / 4], 8 * (i % 4)));
    And32(Shr(h[i / 4], 8 * (i % 4)), 0xff)
  }

  lemma DigestOfLanes(h: seq<u32>, out: seq<byte>)
    requires |h| == 16 && |out| <= 64
    requires forall k :: 0 <= k < |out| ==> out[k] == LaneDigest(h, k)
    ensures out == DigestBytes(WordsOf(h), |out|)
  {
    hide And32, Shr, ByteOf, Merge;
    forall i | 0 <= i < |out|
      ensures out[i] == DigestBytes(WordsOf(h), |out|)[i]
    {
      var j := i / 8;
      LaneByte(h[2 * j], h[2 * j + 1], i % 4);
      if i % 8 < 4 {
        assert i / 4 == 2 * j && i % 4 == i % 8;
      } else {
        assert i / 4 == 2 * j + 1 && i % 8 == 4 + i % 4;
      }
    }
  }

  method InitialLanes(h: array<u32>, outlen: nat)
    requires h.Length == 16 && outlen <= 64
    modifies h
    ensures |IV| == 8
    ensures WordsOf(h[..]) == IV[0 := Xor64(IV[0], Xor64(0x0101_0000, outlen))]
  {
    IVLanesSpellIV();
    for i := 0 to 16
      invariant forall k :: 0 <= k < i ==> h[k] == IV_LANES[k]
    {
      h[i] := IV_LANES[i];
    }
    assert h[..] == IV_LANES;
    hide WordsOf, Xor32, Xor64, IV;
    h[0] := Xor32(Xor32(h[0], 0x0101_0000), outlen);
    ParameterWord(IV_LANES, h[..], outlen);
  }

  lemma ParameterWord(before: seq<u32>, after: seq<u32>, outlen: nat)
    requires |before| == 16 && outlen <= 64
    requires after == before[0 := Xor32(Xor32(before[0], 0x0101_0000), outlen)]
    ensures WordsOf(after)
         == WordsOf(before)[0 := Xor64(WordsOf(before)[0], Xor64(0x0101_0000, outlen))]
  {
    hide Xor32, Xor64, Merge;
    var h := Pair(before[0], before[1]);
    FoldedWord(h, Pair(0x0101_0000, 0), Pair(outlen, 0));
    XorZero(h.hi);
    SmallWord(0x0101_0000);
    SmallWord(outlen);
  }

  lemma XorZero(x: u32)
    ensures Xor32(x, 0) == x
  {
    hide Bitwise;
    TwoTo32();
    WithZero(32, x);
  }

  lemma SmallWord(x: u32)
    ensures Merge(x, 0) == x
  {
  }

  lemma StartAbsorb(input: seq<byte>, outlen: nat)
    requires outlen <= 64 && |input| < 0x20_0000_0000_0000
    ensures |IV| == 8
    ensures Absorb(input, outlen, 0) == IV[0 := Xor64(IV[0], Xor64(0x0101_0000, outlen))]
  {
  }

  lemma NextAbsorb(input: seq<byte>, outlen: nat, b: nat)
    requires outlen <= 64 && |input| < 0x20_0000_0000_0000 && 1 <= b <= BlockCount(|input|)
    ensures
      var limit := Counted(|input|, b);
      limit <= |input| && Absorb(input, outlen, b)
        == Compress(Absorb(input, outlen, b - 1), MessageWords(input, 128 * (b - 1), limit),
                    limit, b == BlockCount(|input|))
  {
    hide Compress, MessageWords;
  }
}
