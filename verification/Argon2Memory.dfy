/** Argon2id's memory filling (RFC 9106, section 3.2), a block at a time. The
    block function is a parameter: nothing here depends on what it computes.
    `m[lane][column]` is one block of the memory. */
module Argon2Memory {
  import opened Words
  import opened Argon2Index

  type Memory<B> = seq<seq<B>>

  /** What filling needs of the hash: the block function, the two 32-bit words a
      block supplies for data-dependent addressing, the precomputed addresses of
      the data-independent part, and the two seeded blocks of each lane. */
  datatype Engine<!B> = Engine(
    fill: (B, B, B, bool) -> B,
    words: B -> Pair,
    address: (nat, nat, nat) -> Pair,
    seeded: (nat, nat) -> B)

  ghost predicate Shape<B>(p: Params, m: Memory<B>) {
    p.Valid() && |m| == p.lanes && forall l :: 0 <= l < |m| ==> |m[l]| == p.LaneLength()
  }

  function PutBlock<B>(m: Memory<B>, l: nat, c: nat, b: B): Memory<B>
    requires l < |m| && c < |m[l]|
  {
    m[l := m[l][c := b]]
  }

  predicate DataIndependent(pass: nat, slice: nat) { pass == 0 && slice < 2 }

  /** The pseudo-random pair that chooses the reference block. */
  ghost function Draw<B>(e: Engine<B>, p: Params, m: Memory<B>, pass: nat, slice: nat, lane: nat, index: nat): Pair
    requires Shape(p, m) && Place(p, pass, slice, index) && lane < p.lanes
  {
    if DataIndependent(pass, slice) then e.address(lane, slice, index)
    else
      SliceMultiples(p, slice);
      e.words(m[lane][Previous(p, Column(p, slice, index))])
  }

  ghost function RefLane(p: Params, pass: nat, slice: nat, lane: nat, j: Pair): (l: nat)
    requires p.Valid() && lane < p.lanes
    ensures l < p.lanes
  {
    if pass == 0 && slice == 0 then lane else j.hi % p.lanes
  }

  /** The memory after filling the block of `lane` at `index` of the slice. */
  ghost function FillOne<B>(e: Engine<B>, p: Params, m: Memory<B>, pass: nat, slice: nat, lane: nat, index: nat): (r: Memory<B>)
    requires Shape(p, m) && Place(p, pass, slice, index) && lane < p.lanes
    ensures Shape(p, r)
  {
    SliceMultiples(p, slice);
    var j := Draw(e, p, m, pass, slice, lane, index);
    var rl := RefLane(p, pass, slice, lane, j);
    var rc := IndexAlpha(p, pass, slice, index, rl == lane, j.lo);
    var c := Column(p, slice, index);
    PutBlock(m, lane, c, e.fill(m[lane][Previous(p, c)], m[rl][rc], m[lane][c], pass != 0))
  }

  /** A lane's part of a slice, filled up to (not including) index `upto`. */
  ghost function FillSegment<B>(e: Engine<B>, p: Params, m: Memory<B>, pass: nat, slice: nat, lane: nat, upto: nat): (r: Memory<B>)
    requires Shape(p, m) && slice < 4 && lane < p.lanes && upto <= p.segment
    ensures Shape(p, r)
    decreases upto
  {
    if upto <= StartIndex(pass, slice) then m
    else FillOne(e, p, FillSegment(e, p, m, pass, slice, lane, upto - 1), pass, slice, lane, upto - 1)
  }

  ghost function FillLanes<B>(e: Engine<B>, p: Params, m: Memory<B>, pass: nat, slice: nat, n: nat): (r: Memory<B>)
    requires Shape(p, m) && slice < 4 && n <= p.lanes
    ensures Shape(p, r)
    decreases n
  {
    if n == 0 then m
    else FillSegment(e, p, FillLanes(e, p, m, pass, slice, n - 1), pass, slice, n - 1, p.segment)
  }

  ghost function FillSlices<B>(e: Engine<B>, p: Params, m: Memory<B>, pass: nat, n: nat): (r: Memory<B>)
    requires Shape(p, m) && n <= 4
    ensures Shape(p, r)
    decreases n
  {
    if n == 0 then m
    else FillLanes(e, p, FillSlices(e, p, m, pass, n - 1), pass, n - 1, p.lanes)
  }

  ghost function FillPasses<B>(e: Engine<B>, p: Params, m: Memory<B>, n: nat): (r: Memory<B>)
    requires Shape(p, m)
    ensures Shape(p, r)
    decreases n
  {
    if n == 0 then m else FillSlices(e, p, FillPasses(e, p, m, n - 1), n - 1, 4)
  }

  /** The buffer once the first two columns of every lane are seeded. */
  ghost function Seed<B>(e: Engine<B>, p: Params, buffer: Memory<B>): (m: Memory<B>)
    requires Shape(p, buffer)
    ensures Shape(p, m)
  {
    seq(p.lanes, l requires 0 <= l < p.lanes => buffer[l][0 := e.seeded(l, 0)][1 := e.seeded(l, 1)])
  }

  /** The final memory of a call that starts from any old contents of the buffer. */
  ghost function Run<B>(e: Engine<B>, p: Params, buffer: Memory<B>, passes: nat): (m: Memory<B>)
    requires Shape(p, buffer)
    ensures Shape(p, m)
  {
    FillPasses(e, p, Seed(e, p, buffer), passes)
  }

  // ------------------------------------------ independence of the old buffer

  /** Written earlier in the same call, when `lane` has filled up to `index` of
      `slice` in the first pass. */
  ghost predicate Written(p: Params, slice: nat, lane: nat, index: nat, l: nat, c: nat) {
    || c < 2
    || c < slice * p.segment
    || (l < lane && c < slice * p.segment + p.segment)
    || (l == lane && c < slice * p.segment + index)
  }

  ghost predicate AgreeWritten<B>(p: Params, m: Memory<B>, m': Memory<B>, slice: nat, lane: nat, index: nat)
    requires Shape(p, m) && Shape(p, m')
  {
    forall l, c :: 0 <= l < p.lanes && 0 <= c < p.LaneLength() && Written(p, slice, lane, index, l, c)
      ==> m[l][c] == m'[l][c]
  }

  /** Every block read in the first pass was seeded or filled before. */
  lemma ReadsAreWritten(p: Params, slice: nat, lane: nat, index: nat, j: Pair)
    requires Place(p, 0, slice, index) && lane < p.lanes
    ensures
      var rl := RefLane(p, 0, slice, lane, j);
      && Written(p, slice, lane, index, lane, Previous(p, Column(p, slice, index)))
      && Written(p, slice, lane, index, rl, IndexAlpha(p, 0, slice, index, rl == lane, j.lo))
      && (slice == 0 ==> Column(p, slice, index) >= 2)
      && Column(p, slice, index) < p.LaneLength()
  {
    hide IndexAlpha;
    SliceMultiples(p, slice);
    var rl := RefLane(p, 0, slice, lane, j);
    ReadableColumns(p, 0, slice, index, rl == lane, j.lo);
  }

  /** Without mixing, the block function does not look at what it overwrites. */
  ghost predicate IgnoresTarget<B(!new)>(e: Engine<B>) {
    forall prev, ref, x, y :: e.fill(prev, ref, x, false) == e.fill(prev, ref, y, false)
  }

  lemma FillOneAgrees<B(!new)>(e: Engine<B>, p: Params, m: Memory<B>, m': Memory<B>, slice: nat, lane: nat, index: nat)
    requires Shape(p, m) && Shape(p, m') && Place(p, 0, slice, index) && lane < p.lanes
    requires AgreeWritten(p, m, m', slice, lane, index)
    requires IgnoresTarget(e)
    ensures AgreeWritten(p, FillOne(e, p, m, 0, slice, lane, index), FillOne(e, p, m', 0, slice, lane, index),
                         slice, lane, index + 1)
  {
    hide IndexAlpha, Previous;
    var j := Draw(e, p, m, 0, slice, lane, index);
    ReadsAreWritten(p, slice, lane, index, j);
    assert Draw(e, p, m', 0, slice, lane, index) == j;
  }

  lemma {:induction false} FillSegmentAgrees<B(!new)>(e: Engine<B>, p: Params, m: Memory<B>, m': Memory<B>, slice: nat, lane: nat, upto: nat)
    requires Shape(p, m) && Shape(p, m') && slice < 4 && lane < p.lanes
    requires StartIndex(0, slice) <= upto <= p.segment
    requires AgreeWritten(p, m, m', slice, lane, StartIndex(0, slice)) && IgnoresTarget(e)
    ensures AgreeWritten(p, FillSegment(e, p, m, 0, slice, lane, upto), FillSegment(e, p, m', 0, slice, lane, upto),
                         slice, lane, upto)
    decreases upto
  {
    hide FillOne, AgreeWritten, IgnoresTarget;
    if upto == StartIndex(0, slice) {
    } else {
      FillSegmentAgrees(e, p, m, m', slice, lane, upto - 1);
      FillOneAgrees(e, p, FillSegment(e, p, m, 0, slice, lane, upto - 1),
                    FillSegment(e, p, m', 0, slice, lane, upto - 1), slice, lane, upto - 1);
    }
  }

  lemma {:induction false} FillLanesAgrees<B(!new)>(e: Engine<B>, p: Params, m: Memory<B>, m': Memory<B>, slice: nat, n: nat)
    requires Shape(p, m) && Shape(p, m') && slice < 4 && n <= p.lanes
    requires AgreeWritten(p, m, m', slice, 0, 0) && IgnoresTarget(e)
    ensures AgreeWritten(p, FillLanes(e, p, m, 0, slice, n), FillLanes(e, p, m', 0, slice, n), slice, n, 0)
    decreases n
  {
    hide FillSegment, IgnoresTarget;
    if n == 0 {
    } else {
      FillLanesAgrees(e, p, m, m', slice, n - 1);
      SliceMultiples(p, slice);
      FillSegmentAgrees(e, p, FillLanes(e, p, m, 0, slice, n - 1), FillLanes(e, p, m', 0, slice, n - 1),
                        slice, n - 1, p.segment);
    }
  }

  lemma {:induction false} FillSlicesAgrees<B(!new)>(e: Engine<B>, p: Params, m: Memory<B>, m': Memory<B>, n: nat)
    requires Shape(p, m) && Shape(p, m') && n <= 4
    requires AgreeWritten(p, m, m', 0, 0, 0) && IgnoresTarget(e)
    ensures AgreeWritten(p, FillSlices(e, p, m, 0, n), FillSlices(e, p, m', 0, n), n, 0, 0)
    decreases n
  {
    hide FillLanes, IgnoresTarget;
    if n == 0 {
    } else {
      FillSlicesAgrees(e, p, m, m', n - 1);
      SliceMultiples(p, n - 1);
      FillLanesAgrees(e, p, FillSlices(e, p, m, 0, n - 1), FillSlices(e, p, m', 0, n - 1), n - 1, p.lanes);
    }
  }

  lemma {:induction false} FillPassesAgrees<B(!new)>(e: Engine<B>, p: Params, m: Memory<B>, m': Memory<B>, n: nat)
    requires Shape(p, m) && Shape(p, m') && n >= 1
    requires AgreeWritten(p, m, m', 0, 0, 0) && IgnoresTarget(e)
    ensures FillPasses(e, p, m, n) == FillPasses(e, p, m', n)
    decreases n
  {
    hide FillSlices, IgnoresTarget;
    if n == 1 {
      FillSlicesAgrees(e, p, m, m', 4);
      var a, b := FillSlices(e, p, m, 0, 4), FillSlices(e, p, m', 0, 4);
      assert FillPasses(e, p, m, 0) == m && FillPasses(e, p, m', 0) == m';
      forall l | 0 <= l < p.lanes
        ensures a[l] == b[l]
      {
        forall c | 0 <= c < p.LaneLength()
          ensures a[l][c] == b[l][c]
        {
          assert Written(p, 4, 0, 0, l, c);
        }
      }
    } else {
      FillPassesAgrees(e, p, m, m', n - 1);
    }
  }

  /** The result of a call with at least one pass does not depend on what the
      reused buffer held before. */
  lemma RunForgetsBuffer<B(!new)>(e: Engine<B>, p: Params, buffer: Memory<B>, buffer': Memory<B>, passes: nat)
    requires Shape(p, buffer) && Shape(p, buffer') && passes >= 1 && IgnoresTarget(e)
    ensures Run(e, p, buffer, passes) == Run(e, p, buffer', passes)
  {
    hide IgnoresTarget;
    FillPassesAgrees(e, p, Seed(e, p, buffer), Seed(e, p, buffer'), passes);
  }

  /** The last column, which is all the digest is computed from. */
  ghost function LastColumn<B>(p: Params, m: Memory<B>): (c: seq<B>)
    requires Shape(p, m)
    ensures |c| == p.lanes
  {
    seq(p.lanes, l requires 0 <= l < p.lanes => m[l][p.LaneLength() - 1])
  }

  /** A buffer filled with one block. */
  ghost function Uniform<B>(p: Params, b: B): (m: Memory<B>)
    requires p.Valid()
    ensures Shape(p, m)
  {
    seq(p.lanes, _ => seq(p.LaneLength(), _ => b))
  }

  /** Exactly when the digest is a function of the inputs: with no pass at all the
      last column is whatever the buffer held. */
  lemma BufferMattersExactlyWithoutPasses<B(!new)>(e: Engine<B>, p: Params, passes: nat, x: B, y: B)
    requires p.Valid() && IgnoresTarget(e) && x != y
    ensures passes >= 1 <==>
      forall buffer, buffer' :: Shape(p, buffer) && Shape(p, buffer') ==>
        LastColumn(p, Run(e, p, buffer, passes)) == LastColumn(p, Run(e, p, buffer', passes))
  {
    hide IgnoresTarget;
    if passes >= 1 {
      forall buffer, buffer' | Shape(p, buffer) && Shape(p, buffer')
        ensures LastColumn(p, Run(e, p, buffer, passes)) == LastColumn(p, Run(e, p, buffer', passes))
      {
        RunForgetsBuffer(e, p, buffer, buffer', passes);
      }
    } else {
      var a, b := Uniform(p, x), Uniform(p, y);
      assert LastColumn(p, Run(e, p, a, passes))[0] == x;
      assert LastColumn(p, Run(e, p, b, passes))[0] == y;
    }
  }

  // ------------------------------------------------ lanes in any order

  function Count(schedule: seq<nat>, lane: nat): nat {
    if schedule == [] then 0
    else Count(schedule[..|schedule| - 1], lane) + (if schedule[|schedule| - 1] == lane then 1 else 0)
  }

  /** Each entry names the lane whose next block is filled. */
  ghost predicate Schedule(p: Params, pass: nat, slice: nat, schedule: seq<nat>) {
    && (forall k :: 0 <= k < |schedule| ==> schedule[k] < p.lanes)
    && (forall l :: 0 <= l < p.lanes ==> StartIndex(pass, slice) + Count(schedule, l) <= p.segment)
  }

  lemma SchedulePrefix(p: Params, pass: nat, slice: nat, schedule: seq<nat>)
    requires Schedule(p, pass, slice, schedule) && schedule != []
    ensures
      var k := |schedule| - 1;
      && Schedule(p, pass, slice, schedule[..k])
      && StartIndex(pass, slice) + Count(schedule[..k], schedule[k]) < p.segment
  {
    var k := |schedule| - 1;
    assert Count(schedule, schedule[k]) == Count(schedule[..k], schedule[k]) + 1;
    forall l | 0 <= l < p.lanes
      ensures StartIndex(pass, slice) + Count(schedule[..k], l) <= p.segment
    {
      assert Count(schedule, l) >= Count(schedule[..k], l);
    }
  }

  /** Fill blocks of one slice, interleaving the lanes as scheduled. */
  ghost function RunSchedule<B>(e: Engine<B>, p: Params, m: Memory<B>, pass: nat, slice: nat, schedule: seq<nat>): (r: Memory<B>)
    requires Shape(p, m) && slice < 4 && Schedule(p, pass, slice, schedule)
    ensures Shape(p, r)
  {
    if schedule == [] then m
    else
      SchedulePrefix(p, pass, slice, schedule);
      var k := |schedule| - 1;
      var before := schedule[..k];
      FillOne(e, p, RunSchedule(e, p, m, pass, slice, before), pass, slice, schedule[k],
              StartIndex(pass, slice) + Count(before, schedule[k]))
  }

  predicate InSlice(p: Params, slice: nat, c: nat) {
    slice * p.segment <= c < (slice + 1) * p.segment
  }

  /** The same other lanes, outside the slice. */
  ghost predicate SameBase<B>(p: Params, m: Memory<B>, m': Memory<B>, slice: nat)
    requires Shape(p, m) && Shape(p, m')
  {
    forall l, c :: 0 <= l < p.lanes && 0 <= c < p.LaneLength() && !InSlice(p, slice, c) ==>
      m[l][c] == m'[l][c]
  }

  /** No lane reads a block another lane writes in the slice. */
  lemma FillOneSeesOwnLane<B>(e: Engine<B>, p: Params, m: Memory<B>, m': Memory<B>, pass: nat, slice: nat, lane: nat, index: nat)
    requires Shape(p, m) && Shape(p, m') && Place(p, pass, slice, index) && lane < p.lanes
    requires m[lane] == m'[lane] && SameBase(p, m, m', slice)
    ensures FillOne(e, p, m, pass, slice, lane, index)[lane] == FillOne(e, p, m', pass, slice, lane, index)[lane]
    ensures FillOne(e, p, m, pass, slice, lane, index) == m[lane := FillOne(e, p, m, pass, slice, lane, index)[lane]]
    ensures SameBase(p, FillOne(e, p, m, pass, slice, lane, index), m, slice)
  {
    hide IndexAlpha, Previous;
    SliceMultiples(p, slice);
    var j := Draw(e, p, m, pass, slice, lane, index);
    var rl := RefLane(p, pass, slice, lane, j);
    ReadableColumns(p, pass, slice, index, rl == lane, j.lo);
    assert Draw(e, p, m', pass, slice, lane, index) == j;
    var rc := IndexAlpha(p, pass, slice, index, rl == lane, j.lo);
    assert rl != lane ==> !InSlice(p, slice, rc);
    assert m[rl][rc] == m'[rl][rc];
    assert InSlice(p, slice, Column(p, slice, index));
  }

  /** Filling a segment changes its own lane, inside the slice, and nothing else. */
  lemma {:induction false} FillSegmentIsLocal<B>(e: Engine<B>, p: Params, m: Memory<B>, pass: nat, slice: nat, lane: nat, upto: nat)
    requires Shape(p, m) && slice < 4 && lane < p.lanes && upto <= p.segment
    ensures SameBase(p, FillSegment(e, p, m, pass, slice, lane, upto), m, slice)
    ensures FillSegment(e, p, m, pass, slice, lane, upto)
         == m[lane := FillSegment(e, p, m, pass, slice, lane, upto)[lane]]
    decreases upto
  {
    hide FillOne, InSlice;
    if upto <= StartIndex(pass, slice) {
    } else {
      var before := FillSegment(e, p, m, pass, slice, lane, upto - 1);
      FillSegmentIsLocal(e, p, m, pass, slice, lane, upto - 1);
      FillOneSeesOwnLane(e, p, before, before, pass, slice, lane, upto - 1);
    }
  }

  /** A lane after it alone was filled from the start of the slice. */
  ghost function LaneAlone<B>(e: Engine<B>, p: Params, m: Memory<B>, pass: nat, slice: nat, lane: nat, upto: nat): (r: seq<B>)
    requires Shape(p, m) && slice < 4 && lane < p.lanes && upto <= p.segment
    ensures |r| == p.LaneLength()
  {
    FillSegment(e, p, m, pass, slice, lane, upto)[lane]
  }

  /** Two memories that hold the same lane and base fill the next block alike. */
  lemma NextBlockAlone<B>(e: Engine<B>, p: Params, m: Memory<B>, now: Memory<B>, pass: nat, slice: nat, lane: nat, index: nat)
    requires Shape(p, m) && Shape(p, now) && Place(p, pass, slice, index) && lane < p.lanes
    requires SameBase(p, now, m, slice)
    requires now[lane] == LaneAlone(e, p, m, pass, slice, lane, index)
    ensures FillOne(e, p, now, pass, slice, lane, index)
         == now[lane := LaneAlone(e, p, m, pass, slice, lane, index + 1)]
    ensures SameBase(p, FillOne(e, p, now, pass, slice, lane, index), m, slice)
  {
    hide FillOne, InSlice;
    var alone := FillSegment(e, p, m, pass, slice, lane, index);
    FillSegmentIsLocal(e, p, m, pass, slice, lane, index);
    FillOneSeesOwnLane(e, p, now, alone, pass, slice, lane, index);
  }

  /** After any partial interleaving each lane is as if it had run alone. */
  lemma {:induction false} ScheduledLanes<B>(e: Engine<B>, p: Params, m: Memory<B>, pass: nat, slice: nat, schedule: seq<nat>)
    requires Shape(p, m) && slice < 4 && Schedule(p, pass, slice, schedule)
    ensures SameBase(p, RunSchedule(e, p, m, pass, slice, schedule), m, slice)
    ensures forall l :: 0 <= l < p.lanes ==>
      RunSchedule(e, p, m, pass, slice, schedule)[l]
        == LaneAlone(e, p, m, pass, slice, l, StartIndex(pass, slice) + Count(schedule, l))
    decreases |schedule|
  {
    hide FillOne, InSlice;
    if schedule == [] {
    } else {
      SchedulePrefix(p, pass, slice, schedule);
      var k := |schedule| - 1;
      var before := schedule[..k];
      ScheduledLanes(e, p, m, pass, slice, before);
      NextBlockAlone(e, p, m, RunSchedule(e, p, m, pass, slice, before), pass, slice, schedule[k],
                     StartIndex(pass, slice) + Count(before, schedule[k]));
    }
  }

  /** The loop over lanes, one whole segment after the other, ends the same way. */
  lemma {:induction false} SequentialLanes<B>(e: Engine<B>, p: Params, m: Memory<B>, pass: nat, slice: nat, n: nat)
    requires Shape(p, m) && slice < 4 && n <= p.lanes
    ensures SameBase(p, FillLanes(e, p, m, pass, slice, n), m, slice)
    ensures forall l :: 0 <= l < p.lanes ==>
      FillLanes(e, p, m, pass, slice, n)[l]
        == if l < n then LaneAlone(e, p, m, pass, slice, l, p.segment) else m[l]
    decreases n
  {
    hide FillSegment, InSlice;
    if n == 0 {
    } else {
      var now := FillLanes(e, p, m, pass, slice, n - 1);
      SequentialLanes(e, p, m, pass, slice, n - 1);
      FillSegmentIsLocal(e, p, now, pass, slice, n - 1, p.segment);
      SegmentAlone(e, p, m, now, pass, slice, n - 1, p.segment);
    }
  }

  lemma {:induction false} SegmentAlone<B>(e: Engine<B>, p: Params, m: Memory<B>, now: Memory<B>, pass: nat, slice: nat, lane: nat, upto: nat)
    requires Shape(p, m) && Shape(p, now) && slice < 4 && lane < p.lanes && upto <= p.segment
    requires SameBase(p, now, m, slice) && now[lane] == m[lane]
    ensures FillSegment(e, p, now, pass, slice, lane, upto)[lane] == LaneAlone(e, p, m, pass, slice, lane, upto)
    decreases upto
  {
    hide FillOne, InSlice;
    if upto <= StartIndex(pass, slice) {
    } else {
      SegmentAlone(e, p, m, now, pass, slice, lane, upto - 1);
      FillSegmentIsLocal(e, p, now, pass, slice, lane, upto - 1);
      NextBlockAlone(e, p, m, FillSegment(e, p, now, pass, slice, lane, upto - 1), pass, slice, lane, upto - 1);
    }
  }

  /** Within a slice the lanes may be filled in any order, or interleaved block by
      block: every complete schedule leaves the memory the sequential loop leaves. */
  lemma LanesInAnyOrder<B>(e: Engine<B>, p: Params, m: Memory<B>, pass: nat, slice: nat, schedule: seq<nat>)
    requires Shape(p, m) && slice < 4 && Schedule(p, pass, slice, schedule)
    requires forall l :: 0 <= l < p.lanes ==> StartIndex(pass, slice) + Count(schedule, l) == p.segment
    ensures RunSchedule(e, p, m, pass, slice, schedule) == FillLanes(e, p, m, pass, slice, p.lanes)
  {
    hide FillSegment, FillOne;
    ScheduledLanes(e, p, m, pass, slice, schedule);
    SequentialLanes(e, p, m, pass, slice, p.lanes);
  }
}
