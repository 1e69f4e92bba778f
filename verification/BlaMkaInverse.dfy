/** The block permutation really permutes: it has an inverse, built from the
    inverse of an odd number modulo 2^32. */
module BlaMkaInverse {
  import opened Arith
  import opened Bits
  import opened Words
  import opened BlaMka

  /** The inverse of an odd number modulo `2^n`, found bit by bit. */
  function OddInverse(m: nat, n: nat): (x: nat)
    requires m % 2 == 1
    ensures x < Pow2(n)
  {
    if n == 0 then 0
    else
      var x := OddInverse(m, n - 1);
      if (m * x) % Pow2(n) == 1 then x else x + Pow2(n - 1)
  }

  lemma {:induction false} OddInverseCorrect(m: nat, n: nat)
    requires m % 2 == 1 && n > 0
    ensures (m * OddInverse(m, n)) % Pow2(n) == 1
  {
    var p := Pow2(n - 1);
    var x := OddInverse(m, n - 1);
    if n == 1 {
      DivModUnique(m * 1, m / 2, 1, 2);
    } else {
      OddInverseCorrect(m, n - 1);
      var q := m * x / p;
      Euclid(m * x, p);
      NextBit(m, m * x, q, p);
      MulDist(m, x, p);
    }
  }

  /** If `r = 1 + p q` then `r` or `r + m p` is one modulo `2 p`. */
  lemma NextBit(m: nat, r: nat, q: int, p: nat)
    requires m % 2 == 1 && p >= 2 && r == 1 + p * q
    ensures q % 2 == 0 ==> r % (2 * p) == 1
    ensures q % 2 == 1 ==> (r + m * p) % (2 * p) == 1
  {
    if q % 2 == 0 {
      MulAssoc(p, 2, q / 2);
      MulComm(p, 2);
      DivModUnique(r, q / 2, 1, 2 * p);
    } else {
      MulComm(m, p);
      MulDist(p, q, m);
      var h := (q + m) / 2;
      MulAssoc(p, 2, h);
      MulComm(p, 2);
      DivModUnique(r + m * p, h, 1, 2 * p);
    }
  }

  lemma FactorTimes(x: int, yl: u32, t: int)
    requires t == x * yl
    ensures x * Factor(yl) == x + 2 * t
  {
    MulDist(x, 1, 2 * yl);
    MulComm(x, 2 * yl);
    MulAssoc(2, yl, x);
    MulComm(yl, x);
  }

  /** `1 + 2 lo(y)` is odd, so it can be divided out of the low half. */
  function Factor(yl: u32): nat { 1 + 2 * yl }

  function FactorInverse(yl: u32): (x: nat)
    ensures exists j :: Factor(yl) * x == 1 + 0x1_0000_0000 * j
  {
    TwoTo32();
    OddInverseCorrect(Factor(yl), 32);
    var x := OddInverse(Factor(yl), 32);
    Euclid(Factor(yl) * x, 0x1_0000_0000);
    x
  }

  function LowOf(x': u64, yl: u32): u32 {
    ((x' % 0x1_0000_0000 - yl) * FactorInverse(yl)) % 0x1_0000_0000
  }

  /** Undoes `Stir` for a known second operand. */
  function Unstir(x': u64, y: u64): u64 {
    var yl := y % 0x1_0000_0000;
    (x' - y - 2 * (LowOf(x', yl) * yl)) % 0x1_0000_0000_0000_0000
  }

  /** `d` congruent to `xl * m` gives back `xl` when multiplied by the inverse of `m`. */
  lemma DivideOut(d: int, xl: u32, m: nat, inv: nat, e: int, j: int)
    requires d == xl * m + 0x1_0000_0000 * e && m * inv == 1 + 0x1_0000_0000 * j
    ensures (d * inv) % 0x1_0000_0000 == xl
  {
    MulComm(d, inv);
    MulDist(inv, xl * m, 0x1_0000_0000 * e);
    MulComm(inv, xl * m);
    MulAssoc(xl, m, inv);
    MulDist(xl, 1, 0x1_0000_0000 * j);
    MulComm(xl, 0x1_0000_0000 * j);
    MulAssoc(0x1_0000_0000, j, xl);
    MulComm(inv, 0x1_0000_0000 * e);
    MulAssoc(0x1_0000_0000, e, inv);
    DivModUnique(d * inv, j * xl + e * inv, xl, 0x1_0000_0000);
  }

  /** The number recovered by `LowOf` satisfies its defining congruence. */
  lemma MultiplyBack(d: int, lx: u32, m: nat, inv: nat, j: int) returns (e: int)
    requires lx == (d * inv) % 0x1_0000_0000 && m * inv == 1 + 0x1_0000_0000 * j
    ensures lx * m == d + 0x1_0000_0000 * e
  {
    var c := (d * inv) / 0x1_0000_0000;
    Euclid(d * inv, 0x1_0000_0000);
    assert d * inv == lx + 0x1_0000_0000 * c;
    MulComm(m, lx);
    MulDist(m, d * inv, -(0x1_0000_0000 * c));
    MulComm(m, d * inv);
    MulAssoc(d, inv, m);
    MulComm(inv, m);
    MulDist(d, 1, 0x1_0000_0000 * j);
    MulComm(d, 0x1_0000_0000 * j);
    MulAssoc(0x1_0000_0000, j, d);
    MulComm(m, -(0x1_0000_0000 * c));
    MulAssoc(0x1_0000_0000, -c, m);
    e := j * d + (-c) * m;
  }

  lemma StirSum(x: u64, y: u64, xl: u32, yl: u32, t: nat) returns (k: int)
    requires xl == x % 0x1_0000_0000 && yl == y % 0x1_0000_0000 && t == xl * yl
    ensures Stir(x, y) == x + y + 2 * t - 0x1_0000_0000_0000_0000 * k
  {
    FBlaMkaIsSum(x, y, xl, yl, t);
    k := (x + y + 2 * t) / 0x1_0000_0000_0000_0000;
  }

  lemma UnstirStir(x: u64, y: u64)
    ensures Unstir(Stir(x, y), y) == x
  {
    hide Stir, FactorInverse;
    var xl, yl := x % 0x1_0000_0000, y % 0x1_0000_0000;
    MulMono(xl, 0, yl);
    var t := xl * yl;
    var x' := Stir(x, y);
    var k := StirSum(x, y, xl, yl, t);
    var inv := FactorInverse(yl);
    var j :| Factor(yl) * inv == 1 + 0x1_0000_0000 * j;
    FactorTimes(xl, yl, t);
    var e := LowDifference(x, y, x', xl, yl, t, k);
    DivideOut(x' % 0x1_0000_0000 - yl, xl, Factor(yl), inv, e, j);
    assert LowOf(x', yl) == xl;
    UnstirByLow(x, y, x', t, k);
  }

  lemma LowDifference(x: u64, y: u64, x': u64, xl: u32, yl: u32, t: nat, k: int) returns (e: int)
    requires xl == x % 0x1_0000_0000 && yl == y % 0x1_0000_0000
    requires x' == x + y + 2 * t - 0x1_0000_0000_0000_0000 * k
    ensures x' % 0x1_0000_0000 - yl == xl + 2 * t + 0x1_0000_0000 * e
  {
    e := x / 0x1_0000_0000 + y / 0x1_0000_0000 - 0x1_0000_0000 * k - x' / 0x1_0000_0000;
  }

  lemma UnstirByLow(x: u64, y: u64, x': u64, t: nat, k: int)
    requires x' == x + y + 2 * t - 0x1_0000_0000_0000_0000 * k
    ensures (x' - y - 2 * t) % 0x1_0000_0000_0000_0000 == x
  {
    DivModUnique(x' - y - 2 * t, -k, x, 0x1_0000_0000_0000_0000);
  }

  lemma LowOfCongruence(x': u64, yl: u32, t: int) returns (e: int)
    requires t == LowOf(x', yl) * yl
    ensures LowOf(x', yl) + 2 * t == x' % 0x1_0000_0000 - yl + 0x1_0000_0000 * e
  {
    hide FactorInverse;
    var lx := LowOf(x', yl);
    var inv := FactorInverse(yl);
    var j :| Factor(yl) * inv == 1 + 0x1_0000_0000 * j;
    e := MultiplyBack(x' % 0x1_0000_0000 - yl, lx, Factor(yl), inv, j);
    FactorTimes(lx, yl, t);
  }

  lemma StirUnstir(x': u64, y: u64)
    ensures Stir(Unstir(x', y), y) == x'
  {
    hide Stir, LowOf;
    var yl := y % 0x1_0000_0000;
    var lx := LowOf(x', yl);
    MulMono(lx, 0, yl);
    var t := lx * yl;
    var e := LowOfCongruence(x', yl, t);
    var x := Unstir(x', y);
    LowOfUnstirred(x', y, x, lx, yl, t, e);
    var k := StirSum(x, y, lx, yl, t);
    StirBack(x', y, x, Stir(x, y), t, k);
  }

  lemma LowOfUnstirred(x': u64, y: u64, x: u64, lx: u32, yl: u32, t: nat, e: int)
    requires yl == y % 0x1_0000_0000
    requires lx + 2 * t == x' % 0x1_0000_0000 - yl + 0x1_0000_0000 * e
    requires x == (x' - y - 2 * t) % 0x1_0000_0000_0000_0000
    ensures x % 0x1_0000_0000 == lx
  {
    var c := (x' - y - 2 * t) / 0x1_0000_0000_0000_0000;
    var q := x' / 0x1_0000_0000 - y / 0x1_0000_0000 - e - 0x1_0000_0000 * c;
    DivModUnique(x, q, lx, 0x1_0000_0000);
  }

  lemma StirBack(x': u64, y: u64, x: u64, r: u64, t: nat, k: int)
    requires x == (x' - y - 2 * t) % 0x1_0000_0000_0000_0000
    requires r == x + y + 2 * t - 0x1_0000_0000_0000_0000 * k
    ensures r == x'
  {
    var c := (x' - y - 2 * t) / 0x1_0000_0000_0000_0000;
    assert r == x' - 0x1_0000_0000_0000_0000 * (c + k);
  }

  // ---------------------------------------------------- the quarter round

  function Untwist(z': u64, x: u64, n: nat): u64
    requires n <= 64
  {
    Xor64(Rotr64(z', 64 - n), x)
  }

  lemma RotrRoundTrip(x: u64, n: nat)
    requires n <= 64
    ensures Rotr64(Rotr64(x, n), 64 - n) == x
  {
    hide Rotr64;
    var p, q := Pow2(n), Pow2(64 - n);
    var l, h := x % p, x / p;
    Euclid(x, p);
    TwoTo64();
    Pow2Add(n, 64 - n);
    ShiftModulo(x, p, q, 0x1_0000_0000_0000_0000);
    RotrIsSum(x, n, p, q);
    RotrIsSum(Rotr64(x, n), 64 - n, q, p);
    DivModUnique(Rotr64(x, n), l, h, q);
  }

  lemma UntwistTwist(z: u64, x: u64, n: nat)
    requires n <= 64
    ensures Untwist(Twist(z, x, n), x, n) == z
    ensures Twist(Untwist(z, x, n), x, n) == z
  {
    hide Rotr64, Bitwise;
    TwoTo64();
    RotrRoundTrip(Xor64(z, x), n);
    XorCancels(64, z, x);
    XorCancels(64, Rotr64(z, 64 - n), x);
    RotrRoundTrip(z, 64 - n);
  }

  function StirAt(v: seq<u64>, a: nat, b: nat): (r: seq<u64>)
    requires a < |v| && b < |v|
    ensures |r| == |v|
  {
    v[a := Stir(v[a], v[b])]
  }

  function UnstirAt(v: seq<u64>, a: nat, b: nat): (r: seq<u64>)
    requires a < |v| && b < |v|
    ensures |r| == |v|
  {
    v[a := Unstir(v[a], v[b])]
  }

  function TwistAt(v: seq<u64>, z: nat, x: nat, n: nat): (r: seq<u64>)
    requires z < |v| && x < |v| && n <= 64
    ensures |r| == |v|
  {
    v[z := Twist(v[z], v[x], n)]
  }

  function UntwistAt(v: seq<u64>, z: nat, x: nat, n: nat): (r: seq<u64>)
    requires z < |v| && x < |v| && n <= 64
    ensures |r| == |v|
  {
    v[z := Untwist(v[z], v[x], n)]
  }

  lemma StirAtInverse(v: seq<u64>, a: nat, b: nat)
    requires a < |v| && b < |v| && a != b
    ensures UnstirAt(StirAt(v, a, b), a, b) == v
    ensures StirAt(UnstirAt(v, a, b), a, b) == v
  {
    hide Stir, Unstir;
    UnstirStir(v[a], v[b]);
    StirUnstir(v[a], v[b]);
  }

  lemma TwistAtInverse(v: seq<u64>, z: nat, x: nat, n: nat)
    requires z < |v| && x < |v| && z != x && n <= 64
    ensures UntwistAt(TwistAt(v, z, x, n), z, x, n) == v
    ensures TwistAt(UntwistAt(v, z, x, n), z, x, n) == v
  {
    hide Twist, Untwist;
    UntwistTwist(v[z], v[x], n);
  }

  /** The eight steps of the quarter round, undone from the last to the first. */
  function Unquarter(v: seq<u64>, a: nat, b: nat, c: nat, d: nat): (r: seq<u64>)
    requires Distinct4(|v|, a, b, c, d)
    ensures |r| == |v|
  {
    var v := UntwistAt(v, b, c, 63);
    var v := UnstirAt(v, c, d);
    var v := UntwistAt(v, d, a, 16);
    var v := UnstirAt(v, a, b);
    var v := UntwistAt(v, b, c, 24);
    var v := UnstirAt(v, c, d);
    var v := UntwistAt(v, d, a, 32);
    UnstirAt(v, a, b)
  }

  lemma QuarterBySteps(v: seq<u64>, a: nat, b: nat, c: nat, d: nat)
    requires Distinct4(|v|, a, b, c, d)
    ensures
      var v1 := TwistAt(StirAt(v, a, b), d, a, 32);
      var v2 := TwistAt(StirAt(v1, c, d), b, c, 24);
      var v3 := TwistAt(StirAt(v2, a, b), d, a, 16);
      Quarter(v, a, b, c, d) == TwistAt(StirAt(v3, c, d), b, c, 63)
  {
    hide Stir, Twist;
  }

  lemma UnquarterQuarter(v: seq<u64>, a: nat, b: nat, c: nat, d: nat)
    requires Distinct4(|v|, a, b, c, d)
    ensures Unquarter(Quarter(v, a, b, c, d), a, b, c, d) == v
  {
    QuarterBySteps(v, a, b, c, d);
    hide Quarter, StirAt, UnstirAt, TwistAt, UntwistAt;
    var v1 := StirAt(v, a, b);
    var v2 := TwistAt(v1, d, a, 32);
    var v3 := StirAt(v2, c, d);
    var v4 := TwistAt(v3, b, c, 24);
    var v5 := StirAt(v4, a, b);
    var v6 := TwistAt(v5, d, a, 16);
    var v7 := StirAt(v6, c, d);
    TwistAtInverse(v7, b, c, 63);
    StirAtInverse(v6, c, d);
    TwistAtInverse(v5, d, a, 16);
    StirAtInverse(v4, a, b);
    TwistAtInverse(v3, b, c, 24);
    StirAtInverse(v2, c, d);
    TwistAtInverse(v1, d, a, 32);
    StirAtInverse(v, a, b);
  }

  lemma QuarterUnquarter(v: seq<u64>, a: nat, b: nat, c: nat, d: nat)
    requires Distinct4(|v|, a, b, c, d)
    ensures Quarter(Unquarter(v, a, b, c, d), a, b, c, d) == v
  {
    var v7 := UntwistAt(v, b, c, 63);
    var v6 := UnstirAt(v7, c, d);
    var v5 := UntwistAt(v6, d, a, 16);
    var v4 := UnstirAt(v5, a, b);
    var v3 := UntwistAt(v4, b, c, 24);
    var v2 := UnstirAt(v3, c, d);
    var v1 := UntwistAt(v2, d, a, 32);
    var v0 := UnstirAt(v1, a, b);
    QuarterBySteps(v0, a, b, c, d);
    hide Quarter, StirAt, UnstirAt, TwistAt, UntwistAt;
    StirAtInverse(v1, a, b);
    TwistAtInverse(v2, d, a, 32);
    StirAtInverse(v3, c, d);
    TwistAtInverse(v4, b, c, 24);
    StirAtInverse(v5, a, b);
    TwistAtInverse(v6, d, a, 16);
    StirAtInverse(v7, c, d);
    TwistAtInverse(v, b, c, 63);
  }

  // ----------------------------------------------- rounds, sweeps, blocks

  ghost function Uncolumns(v: block, w: seq<nat>): block
    requires Positions(w)
  {
    var v := Unquarter(v, w[3], w[7], w[11], w[15]);
    var v := Unquarter(v, w[2], w[6], w[10], w[14]);
    var v := Unquarter(v, w[1], w[5], w[9], w[13]);
    Unquarter(v, w[0], w[4], w[8], w[12])
  }

  ghost function Undiagonals(v: block, w: seq<nat>): block
    requires Positions(w)
  {
    var v := Unquarter(v, w[3], w[4], w[9], w[14]);
    var v := Unquarter(v, w[2], w[7], w[8], w[13]);
    var v := Unquarter(v, w[1], w[6], w[11], w[12]);
    Unquarter(v, w[0], w[5], w[10], w[15])
  }

  lemma ColumnsInverse(v: block, w: seq<nat>)
    requires Positions(w)
    ensures Uncolumns(ColumnQuarters(v, w), w) == v
    ensures ColumnQuarters(Uncolumns(v, w), w) == v
  {
    hide Quarter, Unquarter;
    var v1 := Quarter(v, w[0], w[4], w[8], w[12]);
    var v2 := Quarter(v1, w[1], w[5], w[9], w[13]);
    var v3 := Quarter(v2, w[2], w[6], w[10], w[14]);
    UnquarterQuarter(v3, w[3], w[7], w[11], w[15]);
    UnquarterQuarter(v2, w[2], w[6], w[10], w[14]);
    UnquarterQuarter(v1, w[1], w[5], w[9], w[13]);
    UnquarterQuarter(v, w[0], w[4], w[8], w[12]);
    var u1 := Unquarter(v, w[3], w[7], w[11], w[15]);
    var u2 := Unquarter(u1, w[2], w[6], w[10], w[14]);
    var u3 := Unquarter(u2, w[1], w[5], w[9], w[13]);
    QuarterUnquarter(u3, w[0], w[4], w[8], w[12]);
    QuarterUnquarter(u2, w[1], w[5], w[9], w[13]);
    QuarterUnquarter(u1, w[2], w[6], w[10], w[14]);
    QuarterUnquarter(v, w[3], w[7], w[11], w[15]);
  }

  lemma DiagonalsInverse(v: block, w: seq<nat>)
    requires Positions(w)
    ensures Undiagonals(DiagonalQuarters(v, w), w) == v
    ensures DiagonalQuarters(Undiagonals(v, w), w) == v
  {
    hide Quarter, Unquarter;
    var v1 := Quarter(v, w[0], w[5], w[10], w[15]);
    var v2 := Quarter(v1, w[1], w[6], w[11], w[12]);
    var v3 := Quarter(v2, w[2], w[7], w[8], w[13]);
    UnquarterQuarter(v3, w[3], w[4], w[9], w[14]);
    UnquarterQuarter(v2, w[2], w[7], w[8], w[13]);
    UnquarterQuarter(v1, w[1], w[6], w[11], w[12]);
    UnquarterQuarter(v, w[0], w[5], w[10], w[15]);
    var u1 := Unquarter(v, w[3], w[4], w[9], w[14]);
    var u2 := Unquarter(u1, w[2], w[7], w[8], w[13]);
    var u3 := Unquarter(u2, w[1], w[6], w[11], w[12]);
    QuarterUnquarter(u3, w[0], w[5], w[10], w[15]);
    QuarterUnquarter(u2, w[1], w[6], w[11], w[12]);
    QuarterUnquarter(u1, w[2], w[7], w[8], w[13]);
    QuarterUnquarter(v, w[3], w[4], w[9], w[14]);
  }

  ghost function Unround(v: block, w: seq<nat>): block
    requires Positions(w)
  {
    Uncolumns(Undiagonals(v, w), w)
  }

  ghost function Unsweep(v: block, s: Sweep, n: nat): block
    requires n <= 8
    decreases n
  {
    hide Uncolumns, Undiagonals, Vector;
    if n == 0 then v else Unsweep(Unround(v, Vector(s, n - 1)), s, n - 1)
  }

  lemma {:induction false} SweepInverse(v: block, s: Sweep, n: nat)
    requires n <= 8
    ensures Unsweep(SweepRounds(v, s, n), s, n) == v
    ensures SweepRounds(Unsweep(v, s, n), s, n) == v
    decreases n
  {
    hide Uncolumns, Undiagonals, ColumnQuarters, DiagonalQuarters, Vector;
    if n == 0 {
    } else {
      var w := Vector(s, n - 1);
      SweepInverse(v, s, n - 1);
      SweepInverse(Unround(v, w), s, n - 1);
      var u := SweepRounds(v, s, n - 1);
      DiagonalsInverse(ColumnQuarters(u, w), w);
      ColumnsInverse(u, w);
      ColumnsInverse(Undiagonals(v, w), w);
      DiagonalsInverse(v, w);
    }
  }

  ghost function Unpermute(v: block): block {
    Unsweep(Unsweep(v, Rows, 8), Columns, 8)
  }

  /** The two sweeps are a bijection of the space of blocks. */
  lemma PermuteIsBijection(v: block)
    ensures Unpermute(Permute(v)) == v
    ensures Permute(Unpermute(v)) == v
  {
    hide SweepRounds, Unsweep;
    SweepInverse(v, Columns, 8);
    SweepInverse(SweepRounds(v, Columns, 8), Rows, 8);
    SweepInverse(v, Rows, 8);
    SweepInverse(Unsweep(v, Rows, 8), Columns, 8);
  }
}
