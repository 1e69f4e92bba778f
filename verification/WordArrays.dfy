/** Typed arrays of 32-bit lanes read as the 64-bit words they hold: word `i`
    lives in lanes `2 * i` (low) and `2 * i + 1` (high). */
module WordArrays {
  import opened Words

  function WordsOf(s: seq<u32>): (w: seq<u64>)
    requires |s| % 2 == 0
    ensures |w| == |s| / 2
    ensures forall i :: 0 <= i < |w| ==> w[i] == Merge(s[2 * i], s[2 * i + 1])
  {
    seq(|s| / 2, i requires 0 <= i < |s| / 2 => Merge(s[2 * i], s[2 * i + 1]))
  }

  /** Equal prefixes, and equal suffixes, have equal slices. */
  lemma SliceOfPrefix<T>(s: seq<T>, s': seq<T>, n: nat, lo: nat, hi: nat)
    requires lo <= hi <= n <= |s| && n <= |s'| && s[..n] == s'[..n]
    ensures s[lo..hi] == s'[lo..hi]
  {
    forall i | lo <= i < hi
      ensures s[i] == s'[i]
    {
      assert s[..n][i] == s'[..n][i];
    }
  }

  lemma SliceOfSuffix<T>(s: seq<T>, s': seq<T>, n: nat, lo: nat, hi: nat)
    requires n <= lo <= hi <= |s| == |s'| && s[n..] == s'[n..]
    ensures s[lo..hi] == s'[lo..hi]
  {
    forall i | lo <= i < hi
      ensures s[i] == s'[i]
    {
      assert s[n..][i - n] == s'[n..][i - n];
    }
  }

  function At(v: array<u32>, i: nat): (p: Pair)
    requires v.Length % 2 == 0 && 2 * i < v.Length
    reads v
    ensures p.Word() == WordsOf(v[..])[i]
  {
    Pair(v[2 * i], v[2 * i + 1])
  }

  method Put(v: array<u32>, i: nat, p: Pair)
    requires v.Length % 2 == 0 && 2 * i < v.Length
    modifies v
    ensures WordsOf(v[..]) == old(WordsOf(v[..]))[i := p.Word()]
  {
    v[2 * i] := p.lo;
    v[2 * i + 1] := p.hi;
  }
}
