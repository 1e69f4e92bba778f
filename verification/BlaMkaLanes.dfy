/** The Argon2 block function as the JavaScript client computes it, in place on
    32-bit lanes, refined to the 64-bit functions of module `BlaMka`. */
module BlaMkaLanes {
  import opened Words
  import opened WordArrays
  import opened BlaMka

  /** What the in-place quarter round leaves in its four words. */
  lemma QuarterByWords(v: seq<u64>, a: nat, b: nat, c: nat, d: nat,
                       a1: u64, d1: u64, c1: u64, b1: u64, a2: u64, d2: u64, c2: u64, b2: u64)
    requires Distinct4(|v|, a, b, c, d)
    requires a1 == Stir(v[a], v[b]) && d1 == Twist(v[d], a1, 32)
    requires c1 == Stir(v[c], d1) && b1 == Twist(v[b], c1, 24)
    requires a2 == Stir(a1, b1) && d2 == Twist(d1, a2, 16)
    requires c2 == Stir(c1, d2) && b2 == Twist(b1, c2, 63)
    ensures Quarter(v, a, b, c, d) == v[a := a2][b := b2][c := c2][d := d2]
  {
    hide Stir, Twist;
  }

  function TwistPair(z: Pair, x: Pair, n: nat): (r: Pair)
    requires 0 < n < 32
    ensures r.Word() == Twist(z.Word(), x.Word(), n)
  {
    RotrPair(XorPairs(z, x), n)
  }

  function SwapTwist(z: Pair, x: Pair): (r: Pair)
    ensures r.Word() == Twist(z.Word(), x.Word(), 32)
  {
    SwapPair(XorPairs(z, x))
  }

  function LeftTwist(z: Pair, x: Pair): (r: Pair)
    ensures r.Word() == Twist(z.Word(), x.Word(), 63)
  {
    Rotl1Pair(XorPairs(z, x))
  }

  /** Both halves of four words are read first and written back at the end. */
  method QuarterLanes(v: array<u32>, a: nat, b: nat, c: nat, d: nat)
    requires v.Length == 256 && Distinct4(128, a, b, c, d)
    modifies v
    ensures WordsOf(v[..]) == Quarter(old(WordsOf(v[..])), a, b, c, d)
  {
    hide FBlaMkaPair, FBlaMka, TwistPair, SwapTwist, LeftTwist, Twist, WordsOf, Pair.Word, At, Quarter;
    var pa, pb, pc, pd := At(v, a), At(v, b), At(v, c), At(v, d);
    var pa1 := FBlaMkaPair(pa, pb);
    var pd1 := SwapTwist(pd, pa1);
    var pc1 := FBlaMkaPair(pc, pd1);
    var pb1 := TwistPair(pb, pc1, 24);
    var pa2 := FBlaMkaPair(pa1, pb1);
    var pd2 := TwistPair(pd1, pa2, 16);
    var pc2 := FBlaMkaPair(pc1, pd2);
    var pb2 := LeftTwist(pb1, pc2);
    QuarterByWords(WordsOf(v[..]), a, b, c, d, pa1.Word(), pd1.Word(), pc1.Word(), pb1.Word(),
                   pa2.Word(), pd2.Word(), pc2.Word(), pb2.Word());
    Put(v, a, pa2);
    Put(v, b, pb2);
    Put(v, c, pc2);
    Put(v, d, pd2);
  }

  method RoundLanes(v: array<u32>, w: seq<nat>)
    requires v.Length == 256 && Positions(w)
    modifies v
    ensures WordsOf(v[..]) == BlamkaRound(old(WordsOf(v[..])), w)
  {
    hide Quarter, WordsOf;
    QuarterLanes(v, w[0], w[4], w[8], w[12]);
    QuarterLanes(v, w[1], w[5], w[9], w[13]);
    QuarterLanes(v, w[2], w[6], w[10], w[14]);
    QuarterLanes(v, w[3], w[7], w[11], w[15]);
    assert WordsOf(v[..]) == ColumnQuarters(old(WordsOf(v[..])), w);
    QuarterLanes(v, w[0], w[5], w[10], w[15]);
    QuarterLanes(v, w[1], w[6], w[11], w[12]);
    QuarterLanes(v, w[2], w[7], w[8], w[13]);
    QuarterLanes(v, w[3], w[4], w[9], w[14]);
  }

  /** The words of the block that starts at lane `off` of the memory. */
  function BlockAt(mem: seq<u32>, off: nat): (b: block)
    requires off + 256 <= |mem|
  {
    WordsOf(mem[off..off + 256])
  }

  lemma XorLanes(x: seq<u32>, y: seq<u32>, z: seq<u32>)
    requires |x| == |y| == |z| == 256
    requires forall i :: 0 <= i < 256 ==> z[i] == Xor32(x[i], y[i])
    ensures WordsOf(z) == XorBlocks(WordsOf(x), WordsOf(y))
  {
    hide Xor32, Xor64, Merge;
    forall i | 0 <= i < 128
      ensures WordsOf(z)[i] == XorBlocks(WordsOf(x), WordsOf(y))[i]
    {
      XorPairCorrect(x[2 * i], x[2 * i + 1], y[2 * i], y[2 * i + 1]);
    }
  }

  /** The two sweeps over the scratch block. */
  method PermuteLanes(r: array<u32>)
    requires r.Length == 256
    modifies r
    ensures WordsOf(r[..]) == Permute(old(WordsOf(r[..])))
  {
    hide BlamkaRound, WordsOf, Vector;
    ghost var start := WordsOf(r[..]);
    for i := 0 to 8
      invariant WordsOf(r[..]) == SweepRounds(start, Columns, i)
    {
      RoundLanes(r, Vector(Columns, i));
    }
    ghost var middle := WordsOf(r[..]);
    for i := 0 to 8
      invariant WordsOf(r[..]) == SweepRounds(middle, Rows, i)
    {
      RoundLanes(r, Vector(Rows, i));
    }
  }

  method LoadXor(mem: array<u32>, refOff: nat, prevOff: nat, r: array<u32>)
    requires prevOff + 256 <= mem.Length && refOff + 256 <= mem.Length
    requires r.Length == 256 && mem != r
    modifies r
    ensures WordsOf(r[..]) == XorBlocks(BlockAt(mem[..], refOff), BlockAt(mem[..], prevOff))
  {
    hide Xor32, WordsOf, XorBlocks;
    for i := 0 to 256
      invariant forall k :: 0 <= k < i ==> r[k] == Xor32(mem[refOff + k], mem[prevOff + k])
    {
      r[i] := Xor32(mem[refOff + i], mem[prevOff + i]);
    }
    XorLanes(mem[..][refOff..refOff + 256], mem[..][prevOff..prevOff + 256], r[..]);
  }

  /** Keep a copy of `r`, mixed with the block about to be overwritten on later passes. */
  method KeepTarget(mem: array<u32>, nextOff: nat, withXor: bool, r: array<u32>, t: array<u32>)
    requires nextOff + 256 <= mem.Length
    requires r.Length == t.Length == 256 && mem != t && r != t
    modifies t
    ensures WordsOf(t[..]) ==
      if withXor then XorBlocks(WordsOf(r[..]), BlockAt(mem[..], nextOff)) else WordsOf(r[..])
  {
    hide Xor32, WordsOf, XorBlocks;
    if withXor {
      for i := 0 to 256
        invariant forall k :: 0 <= k < i ==> t[k] == Xor32(r[k], mem[nextOff + k])
      {
        t[i] := Xor32(r[i], mem[nextOff + i]);
      }
      XorLanes(r[..], mem[..][nextOff..nextOff + 256], t[..]);
    } else {
      for i := 0 to 256
        invariant forall k :: 0 <= k < i ==> t[k] == r[k]
      {
        t[i] := r[i];
      }
      assert t[..] == r[..];
    }
  }

  method StoreXor(mem: array<u32>, nextOff: nat, t: array<u32>, r: array<u32>)
    requires nextOff + 256 <= mem.Length
    requires r.Length == t.Length == 256 && mem != t && mem != r
    modifies mem
    ensures BlockAt(mem[..], nextOff) == XorBlocks(WordsOf(t[..]), WordsOf(r[..]))
    ensures mem[..nextOff] == old(mem[..nextOff]) && mem[nextOff + 256..] == old(mem[nextOff + 256..])
  {
    hide Xor32, WordsOf, XorBlocks;
    for i := 0 to 256
      invariant forall k :: 0 <= k < i ==> mem[nextOff + k] == Xor32(t[k], r[k])
      invariant mem[..nextOff] == old(mem[..nextOff])
      invariant mem[nextOff + 256..] == old(mem[nextOff + 256..])
    {
      mem[nextOff + i] := Xor32(t[i], r[i]);
    }
    XorLanes(t[..], r[..], mem[..][nextOff..nextOff + 256]);
  }

  /** Fill the block at `nextOff`, leaving the rest of the memory alone. */
  method FillBlockLanes(mem: array<u32>, prevOff: nat, refOff: nat, nextOff: nat, withXor: bool,
                        r: array<u32>, t: array<u32>)
    requires prevOff + 256 <= mem.Length && refOff + 256 <= mem.Length && nextOff + 256 <= mem.Length
    requires r.Length == t.Length == 256 && mem != r && mem != t && r != t
    modifies mem, r, t
    ensures BlockAt(mem[..], nextOff)
         == FillBlock(old(BlockAt(mem[..], prevOff)), old(BlockAt(mem[..], refOff)),
                      old(BlockAt(mem[..], nextOff)), withXor)
    ensures mem[..nextOff] == old(mem[..nextOff]) && mem[nextOff + 256..] == old(mem[nextOff + 256..])
  {
    hide WordsOf, XorBlocks, Permute;
    LoadXor(mem, refOff, prevOff, r);
    KeepTarget(mem, nextOff, withXor, r, t);
    PermuteLanes(r);
    StoreXor(mem, nextOff, t, r);
  }
}
