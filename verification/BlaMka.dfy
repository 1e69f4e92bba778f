/** The Argon2 block permutation (RFC 9106, sections 3.5 and 3.6) on 64-bit
    words, as the Swift client computes it, and the block-filling function built
    on it. */
module BlaMka {
  import opened Words

  /** `x + y + 2 lo(x) lo(y)`, the addition of the quarter round. */
  function Stir(x: u64, y: u64): u64 { FBlaMka(x, y) }

  /** `(z xor x)` rotated right by `n`. */
  function Twist(z: u64, x: u64, n: nat): u64
    requires n <= 64
  {
    Rotr64(Xor64(z, x), n)
  }

  predicate Distinct4(n: nat, a: nat, b: nat, c: nat, d: nat) {
    a < n && b < n && c < n && d < n && a != b && a != c && a != d && b != c && b != d && c != d
  }

  /** The quarter round, updating four words of `v` in place. */
  function Quarter(v: seq<u64>, a: nat, b: nat, c: nat, d: nat): (r: seq<u64>)
    requires Distinct4(|v|, a, b, c, d)
    ensures |r| == |v|
  {
    var v := v[a := Stir(v[a], v[b])];
    var v := v[d := Twist(v[d], v[a], 32)];
    var v := v[c := Stir(v[c], v[d])];
    var v := v[b := Twist(v[b], v[c], 24)];
    var v := v[a := Stir(v[a], v[b])];
    var v := v[d := Twist(v[d], v[a], 16)];
    var v := v[c := Stir(v[c], v[d])];
    v[b := Twist(v[b], v[c], 63)]
  }

  /** Sixteen different positions of a block. */
  ghost predicate Positions(w: seq<nat>) {
    && |w| == 16
    && (forall i :: 0 <= i < 16 ==> w[i] < 128)
    && (forall i, j :: 0 <= i < j < 16 ==> w[i] != w[j])
  }

  type block = b: seq<u64> | |b| == 128 witness seq(128, _ => 0)

  ghost function ColumnQuarters(v: block, w: seq<nat>): block
    requires Positions(w)
  {
    var v := Quarter(v, w[0], w[4], w[8], w[12]);
    var v := Quarter(v, w[1], w[5], w[9], w[13]);
    var v := Quarter(v, w[2], w[6], w[10], w[14]);
    Quarter(v, w[3], w[7], w[11], w[15])
  }

  ghost function DiagonalQuarters(v: block, w: seq<nat>): block
    requires Positions(w)
  {
    var v := Quarter(v, w[0], w[5], w[10], w[15]);
    var v := Quarter(v, w[1], w[6], w[11], w[12]);
    var v := Quarter(v, w[2], w[7], w[8], w[13]);
    Quarter(v, w[3], w[4], w[9], w[14])
  }

  /** One application of the permutation to the words at `w`. */
  ghost function BlamkaRound(v: block, w: seq<nat>): block
    requires Positions(w)
  {
    DiagonalQuarters(ColumnQuarters(v, w), w)
  }

  datatype Sweep = Columns | Rows

  /** The position vectors of the two sweeps: sixteen consecutive words, and the
      word pairs standing eight columns apart. */
  function Vector(s: Sweep, i: nat): (w: seq<nat>)
    requires i < 8
    ensures Positions(w)
  {
    match s
    case Columns => seq(16, k requires 0 <= k < 16 => 16 * i + k)
    case Rows => seq(16, k requires 0 <= k < 16 => 2 * i + 16 * (k / 2) + k % 2)
  }

  ghost function SweepRounds(v: block, s: Sweep, n: nat): block
    requires n <= 8
  {
    if n == 0 then v else BlamkaRound(SweepRounds(v, s, n - 1), Vector(s, n - 1))
  }

  /** The permutation P of a whole block. */
  ghost function Permute(v: block): block {
    SweepRounds(SweepRounds(v, Columns, 8), Rows, 8)
  }

  function XorBlocks(x: block, y: block): block {
    seq(128, i requires 0 <= i < 128 => Xor64(x[i], y[i]))
  }

  /** The contents of the next block: from the second pass on the block being
      overwritten is mixed in. */
  ghost function FillBlock(prev: block, ref: block, old': block, withXor: bool): block {
    var r := XorBlocks(ref, prev);
    var t := if withXor then XorBlocks(r, old') else r;
    XorBlocks(t, Permute(r))
  }
}
