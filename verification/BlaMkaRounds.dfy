/** The eight rounds of a sweep touch disjoint sets of words that together cover
    the block, so the order in which they run does not matter. */
module BlaMkaRounds {
  import opened Words
  import opened BlaMka

  /** The round of a sweep that owns position `p`. */
  function Owner(s: Sweep, p: nat): (i: nat)
    requires p < 128
    ensures i < 8
  {
    match s
    case Columns => p / 16
    case Rows => p % 16 / 2
  }

  lemma VectorEntry(s: Sweep, i: nat, k: nat)
    requires i < 8 && k < 16
    ensures Vector(s, i)[k] < 128 && Owner(s, Vector(s, i)[k]) == i
  {
    match s
    case Columns =>
      assert Vector(s, i)[k] == 16 * i + k;
    case Rows =>
      assert Vector(s, i)[k] == 2 * i + 16 * (k / 2) + k % 2;
      RowEntry(i, k / 2, k % 2);
  }

  lemma RowEntry(i: nat, j: nat, r: nat)
    requires i < 8 && j < 8 && r < 2
    ensures (2 * i + 16 * j + r) % 16 / 2 == i
  {
    assert (2 * i + 16 * j + r) % 16 == 2 * i + r;
  }

  /** Where in its round's vector a position stands. */
  function Slot(s: Sweep, p: nat): (k: nat)
    requires p < 128
    ensures k < 16 && Vector(s, Owner(s, p))[k] == p
  {
    match s
    case Columns => p % 16
    case Rows =>
      var k := 2 * (p / 16) + p % 2;
      assert k / 2 == p / 16 && k % 2 == p % 2;
      k
  }

  /** The eight position vectors of a sweep partition the 128 words. */
  lemma VectorsPartition(s: Sweep, i: nat, p: nat)
    requires i < 8 && p < 128
    ensures p in Vector(s, i) <==> i == Owner(s, p)
  {
    hide Vector, Owner;
    if p in Vector(s, i) {
      var k :| 0 <= k < 16 && Vector(s, i)[k] == p;
      VectorEntry(s, i, k);
    }
    var k := Slot(s, p);
  }

  /** Same size, and the same words at every position of `w`. */
  ghost predicate AgreeOn(u: seq<u64>, v: seq<u64>, w: seq<nat>) {
    |u| == |v| && forall p :: p in w && p < |v| ==> u[p] == v[p]
  }

  ghost predicate SameOutside(u: seq<u64>, v: seq<u64>, w: seq<nat>) {
    |u| == |v| && forall p :: 0 <= p < |v| && p !in w ==> u[p] == v[p]
  }

  /** A quarter round inside `w` reads and writes nothing else. */
  lemma QuarterIsLocal(u: seq<u64>, v: seq<u64>, w: seq<nat>, a: nat, b: nat, c: nat, d: nat)
    requires AgreeOn(u, v, w) && Distinct4(|v|, a, b, c, d)
    requires a in w && b in w && c in w && d in w
    ensures AgreeOn(Quarter(u, a, b, c, d), Quarter(v, a, b, c, d), w)
    ensures SameOutside(Quarter(v, a, b, c, d), v, w)
  {
    hide Stir, Twist;
  }

  lemma RoundIsLocal(u: block, v: block, w: seq<nat>)
    requires Positions(w) && AgreeOn(u, v, w)
    ensures AgreeOn(BlamkaRound(u, w), BlamkaRound(v, w), w)
    ensures SameOutside(BlamkaRound(v, w), v, w)
  {
    hide Quarter;
    var u1, v1 := Quarter(u, w[0], w[4], w[8], w[12]), Quarter(v, w[0], w[4], w[8], w[12]);
    QuarterIsLocal(u, v, w, w[0], w[4], w[8], w[12]);
    var u2, v2 := Quarter(u1, w[1], w[5], w[9], w[13]), Quarter(v1, w[1], w[5], w[9], w[13]);
    QuarterIsLocal(u1, v1, w, w[1], w[5], w[9], w[13]);
    var u3, v3 := Quarter(u2, w[2], w[6], w[10], w[14]), Quarter(v2, w[2], w[6], w[10], w[14]);
    QuarterIsLocal(u2, v2, w, w[2], w[6], w[10], w[14]);
    QuarterIsLocal(u3, v3, w, w[3], w[7], w[11], w[15]);
    DiagonalsAreLocal(ColumnQuarters(u, w), ColumnQuarters(v, w), w);
  }

  lemma DiagonalsAreLocal(u: block, v: block, w: seq<nat>)
    requires Positions(w) && AgreeOn(u, v, w)
    ensures AgreeOn(DiagonalQuarters(u, w), DiagonalQuarters(v, w), w)
    ensures SameOutside(DiagonalQuarters(v, w), v, w)
  {
    hide Quarter;
    var u1, v1 := Quarter(u, w[0], w[5], w[10], w[15]), Quarter(v, w[0], w[5], w[10], w[15]);
    QuarterIsLocal(u, v, w, w[0], w[5], w[10], w[15]);
    var u2, v2 := Quarter(u1, w[1], w[6], w[11], w[12]), Quarter(v1, w[1], w[6], w[11], w[12]);
    QuarterIsLocal(u1, v1, w, w[1], w[6], w[11], w[12]);
    var u3, v3 := Quarter(u2, w[2], w[7], w[8], w[13]), Quarter(v2, w[2], w[7], w[8], w[13]);
    QuarterIsLocal(u2, v2, w, w[2], w[7], w[8], w[13]);
    QuarterIsLocal(u3, v3, w, w[3], w[4], w[9], w[14]);
  }

  ghost predicate Rounds(order: seq<nat>) {
    && (forall k :: 0 <= k < |order| ==> order[k] < 8)
    && (forall j, k :: 0 <= j < k < |order| ==> order[j] != order[k])
  }

  /** The rounds of a sweep run in the given order. */
  ghost function RunRounds(v: block, s: Sweep, order: seq<nat>): block
    requires Rounds(order)
  {
    if order == [] then v
    else
      var k := |order| - 1;
      BlamkaRound(RunRounds(v, s, order[..k]), Vector(s, order[k]))
  }

  /** Each word ends as its own round alone, applied to the starting block, leaves it. */
  lemma {:induction false} RunRoundsWord(v: block, s: Sweep, order: seq<nat>, p: nat)
    requires Rounds(order) && p < 128
    ensures RunRounds(v, s, order)[p] ==
      if Owner(s, p) in order then BlamkaRound(v, Vector(s, Owner(s, p)))[p] else v[p]
    decreases |order|
  {
    hide BlamkaRound, Vector, Owner;
    if order == [] {
    } else {
      var k := |order| - 1;
      var before := RunRounds(v, s, order[..k]);
      var i, w := order[k], Vector(s, order[k]);
      VectorsPartition(s, i, p);
      RunRoundsWord(v, s, order[..k], p);
      assert order == order[..k] + [i];
      if i == Owner(s, p) {
        forall q | q in w && q < 128
          ensures before[q] == v[q]
        {
          VectorsPartition(s, i, q);
          RunRoundsWord(v, s, order[..k], q);
        }
        RoundIsLocal(before, v, w);
      } else {
        RoundIsLocal(before, before, w);
      }
    }
  }

  /** All eight rounds of a sweep, in any two orders, give the same block. */
  lemma RoundsCommute(v: block, s: Sweep, order: seq<nat>, order': seq<nat>)
    requires Rounds(order) && Rounds(order')
    requires forall i :: i < 8 ==> (i in order <==> i in order')
    ensures RunRounds(v, s, order) == RunRounds(v, s, order')
  {
    hide RunRounds, BlamkaRound, Owner;
    forall p | 0 <= p < 128
      ensures RunRounds(v, s, order)[p] == RunRounds(v, s, order')[p]
    {
      RunRoundsWord(v, s, order, p);
      RunRoundsWord(v, s, order', p);
    }
  }

  function Ascending(n: nat): (order: seq<nat>)
    ensures |order| == n && forall k :: 0 <= k < n ==> order[k] == k
  {
    if n == 0 then [] else Ascending(n - 1) + [n - 1]
  }

  lemma {:induction false} SweepIsAscending(v: block, s: Sweep, n: nat)
    requires n <= 8
    ensures RunRounds(v, s, Ascending(n)) == SweepRounds(v, s, n)
  {
    hide BlamkaRound, Vector;
    if n == 0 {
    } else {
      SweepIsAscending(v, s, n - 1);
      assert Ascending(n)[..n - 1] == Ascending(n - 1);
    }
  }

  /** The sweep the code runs equals its rounds in any order whatever. */
  lemma SweepInAnyOrder(v: block, s: Sweep, order: seq<nat>)
    requires Rounds(order) && |order| == 8
    ensures RunRounds(v, s, order) == SweepRounds(v, s, 8)
  {
    hide RunRounds, SweepRounds;
    AllRoundsOccur(order);
    RoundsCommute(v, s, order, Ascending(8));
    assert forall i :: 0 <= i < 8 ==> Ascending(8)[i] == i;
    SweepIsAscending(v, s, 8);
  }

  ghost function UpTo(n: nat): (r: set<nat>)
    ensures |r| == n && forall i: nat :: i in r <==> i < n
  {
    if n == 0 then {} else UpTo(n - 1) + {n - 1}
  }

  ghost function Used(order: seq<nat>): (r: set<nat>)
    requires Rounds(order)
    ensures |r| == |order| && forall i :: i in r <==> i in order
  {
    if order == [] then {}
    else
      var k := |order| - 1;
      assert order == order[..k] + [order[k]];
      Used(order[..k]) + {order[k]}
  }

  /** Eight different rounds are all of them. */
  lemma AllRoundsOccur(order: seq<nat>)
    requires Rounds(order) && |order| == 8
    ensures forall i :: 0 <= i < 8 ==> i in order
  {
    hide UpTo, Used;
    var used, all := Used(order), UpTo(8);
    assert used <= all;
    assert |all - used| == |all| - |used| == 0;
    forall i | 0 <= i < 8
      ensures i in order
    {
      assert i in all && i !in all - used;
    }
  }
}
