/** Whole puts: which rules keep which caps, exactly, and a put that runs
    undisturbed. */
module ObjectPuts {
  import opened Outcomes
  import opened ObjectQuota

  // ----------------------------------------------------------------- joining runs

  lemma {:induction false} RunsJoin(l: Limits, w: World, a: seq<Step>, b: seq<Step>)
    requires Possible(l, w, a) && Possible(l, Run(l, w, a), b)
    ensures Possible(l, w, a + b) && Run(l, w, a + b) == Run(l, Run(l, w, a), b)
    decreases |a|
  {
    hide Next, Enabled;
    if a == [] {
      assert a + b == b;
    } else {
      RunsJoin(l, Next(l, w, a[0]), a[1..], b);
      assert (a + b)[1..] == a[1..] + b;
    }
  }

  lemma RunOne(l: Limits, w: World, step: Step)
    requires Enabled(l, w, step)
    ensures Possible(l, w, [step]) && Run(l, w, [step]) == Next(l, w, step)
  {
    hide Next, Enabled;
    assert [step][1..] == [];
  }

  lemma RunTwo(l: Limits, w: World, a: Step, b: Step)
    requires Enabled(l, w, a) && Enabled(l, Next(l, w, a), b)
    ensures Possible(l, w, [a, b]) && Run(l, w, [a, b]) == Next(l, Next(l, w, a), b)
  {
    hide Next, Enabled, Run, Possible;
    RunOne(l, w, a);
    RunOne(l, Next(l, w, a), b);
    RunsJoin(l, w, [a], [b]);
    assert [a] + [b] == [a, b];
  }

  lemma {:induction false} FollowsJoin(l: Limits, w: World, a: seq<Step>, b: seq<Step>, rule: Rule)
    requires Possible(l, w, a) && Possible(l, Run(l, w, a), b) && Possible(l, w, a + b)
    requires Follows(l, w, a, rule) && Follows(l, Run(l, w, a), b, rule)
    ensures Follows(l, w, a + b, rule)
    decreases |a|
  {
    hide Next, Enabled, Obeys, CutsNothing;
    if a == [] {
      assert a + b == b;
    } else {
      assert (a + b)[1..] == a[1..] + b;
      FollowsJoin(l, Next(l, w, a[0]), a[1..], b, rule);
    }
  }

  lemma RunCons(l: Limits, w: World, step: Step, rest: seq<Step>, rule: Rule)
    requires Enabled(l, w, step) && Obeys(rule, w, step) && CutsNothing(w, step)
    requires Possible(l, Next(l, w, step), rest) && Follows(l, Next(l, w, step), rest, rule)
    ensures Possible(l, w, [step] + rest) && Follows(l, w, [step] + rest, rule)
    ensures Run(l, w, [step] + rest) == Run(l, Next(l, w, step), rest)
  {
    hide Next, Enabled, Obeys, CutsNothing;
    assert ([step] + rest)[1..] == rest;
  }

  lemma FollowsOne(l: Limits, w: World, step: Step, rule: Rule)
    requires Enabled(l, w, step) && Obeys(rule, w, step) && CutsNothing(w, step)
    ensures Possible(l, w, [step]) && Follows(l, w, [step], rule)
  {
    hide Next, Enabled, Obeys, CutsNothing;
    assert [step][1..] == [];
  }

  lemma FollowsTwo(l: Limits, w: World, a: Step, b: Step, rule: Rule)
    requires Enabled(l, w, a) && Enabled(l, Next(l, w, a), b)
    requires Obeys(rule, w, a) && CutsNothing(w, a) && Obeys(rule, Next(l, w, a), b) && CutsNothing(Next(l, w, a), b)
    ensures Possible(l, w, [a, b]) && Follows(l, w, [a, b], rule)
  {
    hide Next, Enabled, Run, Possible, Follows, Obeys, CutsNothing;
    RunOne(l, w, a);
    RunTwo(l, w, a, b);
    FollowsOne(l, w, a, rule);
    FollowsOne(l, Next(l, w, a), b, rule);
    assert [a] + [b] == [a, b];
    FollowsJoin(l, w, [a], [b], rule);
  }

  // ------------------------------------------------------------- halves of a put

  function Opening(tx: int, n: Name, size: nat): seq<Step> { [Lock(tx, n, size), Measure(tx)] + [CheckApp(tx)] }

  function Closing(tx: int): seq<Step> { [CheckBucket(tx), CheckUser(tx)] + [Write(tx), Commit(tx)] }

  predicate MayLock(l: Limits, w: World, tx: int, n: Name, size: nat) {
    Enabled(l, w, Lock(tx, n, size))
  }

  lemma OpeningRuns(l: Limits, w: World, tx: int, n: Name, size: nat)
    requires MayLock(l, w, tx, n, size)
    ensures Possible(l, w, Opening(tx, n, size))
    ensures
      var delta := size - SizeOf(w.objects, n);
      Run(l, w, Opening(tx, n, size))
      == if Usage(w.objects, OfApp(n.app)) + delta <= l.perApp then
           w.(puts := w.puts[tx := Put(n, size, AppChecked, delta)])
         else w
  {
    hide Usage, Run, Possible, Free;
    var w1 := Next(l, w, Lock(tx, n, size));
    var w2 := Next(l, w1, Measure(tx));
    RunTwo(l, w, Lock(tx, n, size), Measure(tx));
    RunOne(l, w2, CheckApp(tx));
    RunsJoin(l, w, [Lock(tx, n, size), Measure(tx)], [CheckApp(tx)]);
    assert w2.puts == w.puts[tx := Put(n, size, Measured, size - SizeOf(w.objects, n))];
    assert w.puts[tx := Put(n, size, Measured, size - SizeOf(w.objects, n))] - {tx} == w.puts;
  }

  /** The caps that a put admitted by its application still has to meet. */
  ghost predicate CapsAdmit(w: World, p: Put) {
    && p.name.bucket in w.buckets
    && Fits(Usage(w.objects, OfBucket(p.name.bucket)), w.buckets[p.name.bucket].cap, p.delta)
    && Fits(Usage(w.objects, OfUser(p.name.bucket, p.name.user)), w.buckets[p.name.bucket].userCap, p.delta)
  }

  lemma ClosingRuns(l: Limits, w: World, tx: int)
    requires InPhase(w, tx, AppChecked) && CapsAdmit(w, w.puts[tx])
    ensures Possible(l, w, Closing(tx))
    ensures
      var p := w.puts[tx];
      Run(l, w, Closing(tx)) == w.(objects := w.objects[p.name := p.size], puts := w.puts - {tx})
  {
    hide Usage, Run, Possible, Free;
    var w1 := Next(l, w, CheckBucket(tx));
    var w2 := Next(l, w1, CheckUser(tx));
    RunTwo(l, w, CheckBucket(tx), CheckUser(tx));
    var w3 := Next(l, w2, Write(tx));
    var w4 := Next(l, w3, Commit(tx));
    RunTwo(l, w2, Write(tx), Commit(tx));
    RunsJoin(l, w, [CheckBucket(tx), CheckUser(tx)], [Write(tx), Commit(tx)]);
    assert w4.puts == w.puts - {tx};
  }

  /** The first half of a put does not get to a phase after the application's
      check. */
  lemma OpeningFollows(l: Limits, w: World, tx: int, n: Name, size: nat, rule: Rule)
    requires MayLock(l, w, tx, n, size) && Start(rule) >= 3
    ensures Possible(l, w, Opening(tx, n, size)) && Follows(l, w, Opening(tx, n, size), rule)
  {
    OpeningRuns(l, w, tx, n, size);
    hide Usage, Run, Possible, Follows, Free;
    var w1 := Next(l, w, Lock(tx, n, size));
    var w2 := Next(l, w1, Measure(tx));
    RunTwo(l, w, Lock(tx, n, size), Measure(tx));
    FollowsTwo(l, w, Lock(tx, n, size), Measure(tx), rule);
    FollowsOne(l, w2, CheckApp(tx), rule);
    FollowsJoin(l, w, [Lock(tx, n, size), Measure(tx)], [CheckApp(tx)], rule);
  }

  /** The second half may overtake puts that are no further than the application's
      check. */
  lemma ClosingFollows(l: Limits, w: World, tx: int, rule: Rule)
    requires InPhase(w, tx, AppChecked) && CapsAdmit(w, w.puts[tx]) && Start(rule) >= 3
    requires forall u :: u in w.puts ==> Rank(w.puts[u].phase) <= 2
    ensures Possible(l, w, Closing(tx)) && Follows(l, w, Closing(tx), rule)
  {
    ClosingRuns(l, w, tx);
    hide Usage, Run, Possible, Follows, Free;
    var w1 := Next(l, w, CheckBucket(tx));
    var w2 := Next(l, w1, CheckUser(tx));
    var w3 := Next(l, w2, Write(tx));
    RunTwo(l, w, CheckBucket(tx), CheckUser(tx));
    FollowsTwo(l, w, CheckBucket(tx), CheckUser(tx), rule);
    RunTwo(l, w2, Write(tx), Commit(tx));
    FollowsTwo(l, w2, Write(tx), Commit(tx), rule);
    FollowsJoin(l, w, [CheckBucket(tx), CheckUser(tx)], [Write(tx), Commit(tx)], rule);
  }

  // -------------------------------------------------------- overlapping puts

  /** Two puts of one application into different buckets, each admitted before the
      other commits. */
  function Overlapping(n: Name, m: Name, size: nat): seq<Step> {
    (Opening(1, n, size) + Opening(2, m, size)) + (Closing(1) + Closing(2))
  }

  /** Two new objects of one application, for two buckets without caps. */
  ghost predicate Rivals(l: Limits, w: World, n: Name, m: Name, size: nat) {
    && w.puts == map[] && n !in w.objects && m !in w.objects && n.bucket != m.bucket && n.app == m.app
    && n.bucket in w.buckets && w.buckets[n.bucket] == Bucket(n.app, None, None)
    && m.bucket in w.buckets && w.buckets[m.bucket] == Bucket(m.app, None, None)
    && size <= l.perObject
  }

  /** Whenever a new object fits once but not twice, two overlapping puts into two
      buckets without caps leave the application beyond its cap, although they are
      kept apart from a later phase than its check. */
  lemma OverlapExceedsCap(l: Limits, w: World, n: Name, m: Name, size: nat, rule: Rule)
    requires Rivals(l, w, n, m, size) && Start(rule) >= 3
    requires Usage(w.objects, OfApp(n.app)) + size <= l.perApp < Usage(w.objects, OfApp(n.app)) + 2 * size
    ensures Possible(l, w, Overlapping(n, m, size)) && Follows(l, w, Overlapping(n, m, size), rule)
    ensures !KeptAt(l, Run(l, w, Overlapping(n, m, size)), AppCap, n)
  {
    hide Usage, Run, Possible, Follows, Opening, Closing;
    OpeningFollows(l, w, 1, n, size, rule);
    OpeningRuns(l, w, 1, n, size);
    var w1 := Run(l, w, Opening(1, n, size));
    OpeningFollows(l, w1, 2, m, size, rule);
    OpeningRuns(l, w1, 2, m, size);
    var w2 := Run(l, w1, Opening(2, m, size));
    BothClose(l, w2, rule);
    var w4 := Run(l, w2, Closing(1) + Closing(2));
    RunsJoin(l, w, Opening(1, n, size), Opening(2, m, size));
    FollowsJoin(l, w, Opening(1, n, size), Opening(2, m, size), rule);
    RunsJoin(l, w, Opening(1, n, size) + Opening(2, m, size), Closing(1) + Closing(2));
    FollowsJoin(l, w, Opening(1, n, size) + Opening(2, m, size), Closing(1) + Closing(2), rule);
    UsageWrite(w.objects, n, size, OfApp(n.app));
    UsageWrite(w.objects[n := size], m, size, OfApp(n.app));
  }

  /** Two puts that their application has admitted, one closing after the other. */
  lemma BothClose(l: Limits, w: World, rule: Rule)
    requires InPhase(w, 1, AppChecked) && InPhase(w, 2, AppChecked) && w.puts.Keys == {1, 2} && Start(rule) >= 3
    requires w.puts[1].name.bucket in w.buckets && w.puts[2].name.bucket in w.buckets
    requires w.buckets[w.puts[1].name.bucket] == Bucket(w.puts[1].name.app, None, None)
    requires w.buckets[w.puts[2].name.bucket] == Bucket(w.puts[2].name.app, None, None)
    ensures Possible(l, w, Closing(1) + Closing(2)) && Follows(l, w, Closing(1) + Closing(2), rule)
    ensures Run(l, w, Closing(1) + Closing(2))
         == w.(objects := w.objects[w.puts[1].name := w.puts[1].size][w.puts[2].name := w.puts[2].size], puts := map[])
  {
    hide Usage, Run, Possible, Follows, Closing;
    ClosingFollows(l, w, 1, rule);
    ClosingRuns(l, w, 1);
    var w3 := Run(l, w, Closing(1));
    ClosingFollows(l, w3, 2, rule);
    ClosingRuns(l, w3, 2);
    RunsJoin(l, w, Closing(1), Closing(2));
    FollowsJoin(l, w, Closing(1), Closing(2), rule);
    assert w.puts - {1} - {2} == map[];
  }

  // ------------------------------------------------ a delete inside the window

  function PhaseAt(r: nat): Phase {
    if r == 0 then Locked else if r == 1 then Measured else if r == 2 then AppChecked
    else if r == 3 then BucketChecked else if r == 4 then Admitted else Written
  }

  /** The step that takes put 1 to a rank, or commits it. */
  function StepTo(r: nat): Step
    requires 1 <= r <= 6
  {
    if r == 1 then Measure(1) else if r == 2 then CheckApp(1) else if r == 3 then CheckBucket(1)
    else if r == 4 then CheckUser(1) else if r == 5 then Write(1) else Commit(1)
  }

  /** The steps that are left of put 1, after its rank `r`. */
  function Rest(r: nat): seq<Step>
    requires 1 <= r <= 5
    decreases 5 - r
  {
    if r == 5 then [Commit(1)] else [StepTo(r + 1)] + Rest(r + 1)
  }

  /** Put 1 goes on to rank `stop`; its object is deleted; it goes on to the end. */
  function Interrupted(n: Name, r: nat, stop: nat): seq<Step>
    requires 1 <= r <= stop <= 5
    decreases stop - r
  {
    if r == stop then [Delete(n)] + Rest(stop) else [StepTo(r + 1)] + Interrupted(n, r + 1, stop)
  }

  /** The world with put 1 as the only put. */
  function Solo(w: World, n: Name, size: nat, r: nat, delta: int): World {
    w.(puts := map[1 := Put(n, size, PhaseAt(r), delta)])
  }

  /** The check made on the way to rank `r` passes. */
  ghost predicate Passes(l: Limits, w: World, n: Name, r: nat, delta: int) {
    && (r == 2 ==> Fits(Usage(w.objects, OfApp(n.app)), LimitOf(l, w, AppCap, n), delta))
    && (r == 3 ==> Fits(Usage(w.objects, OfBucket(n.bucket)), LimitOf(l, w, BucketCap, n), delta))
    && (r == 4 ==> Fits(Usage(w.objects, OfUser(n.bucket, n.user)), LimitOf(l, w, UserCap, n), delta))
  }

  /** So do the checks on the way to the ranks after `lo`, up to `hi`. */
  ghost predicate PassesAll(l: Limits, w: World, n: Name, lo: nat, hi: nat, delta: int) {
    forall k: nat :: lo < k <= hi ==> Passes(l, w, n, k, delta)
  }

  lemma SoloAdvances(l: Limits, w: World, n: Name, size: nat, r: nat, delta: int, rule: Rule)
    requires 1 <= r <= 4 && n.bucket in w.buckets && Passes(l, w, n, r + 1, delta)
    ensures
      var before, step := Solo(w, n, size, r, delta), StepTo(r + 1);
      && Enabled(l, before, step) && Obeys(rule, before, step) && CutsNothing(before, step)
      && Next(l, before, step) == Solo(w, n, size, r + 1, delta)
  {
    hide Usage;
    var p := Put(n, size, PhaseAt(r), delta);
    assert map[1 := p][1 := p.(phase := PhaseAt(r + 1))] == map[1 := p.(phase := PhaseAt(r + 1))];
  }

  lemma {:induction false} RestRuns(l: Limits, w: World, n: Name, size: nat, r: nat, delta: int, rule: Rule)
    requires 1 <= r <= 5 && n.bucket in w.buckets && w.puts == map[]
    requires PassesAll(l, w, n, r, 5, delta)
    ensures Possible(l, Solo(w, n, size, r, delta), Rest(r))
    ensures Follows(l, Solo(w, n, size, r, delta), Rest(r), rule)
    ensures Run(l, Solo(w, n, size, r, delta), Rest(r)) == w.(objects := w.objects[n := size])
    decreases 5 - r
  {
    hide Usage, Passes;
    if r == 5 {
      CommitSolo(l, w, n, size, delta, rule);
    } else {
      SoloAdvances(l, w, n, size, r, delta, rule);
      RestRuns(l, w, n, size, r + 1, delta, rule);
      hide Next, Enabled, Obeys, CutsNothing, Solo, Possible, Follows, Run;
      RunCons(l, Solo(w, n, size, r, delta), StepTo(r + 1), Rest(r + 1), rule);
    }
  }

  lemma CommitSolo(l: Limits, w: World, n: Name, size: nat, delta: int, rule: Rule)
    requires w.puts == map[]
    ensures
      var before := Solo(w, n, size, 5, delta);
      && Possible(l, before, [Commit(1)]) && Follows(l, before, [Commit(1)], rule)
      && Run(l, before, [Commit(1)]) == w.(objects := w.objects[n := size])
  {
    var before := Solo(w, n, size, 5, delta);
    assert Next(l, before, Commit(1)) == w.(objects := w.objects[n := size]);
    hide Next, Usage;
    RunOne(l, before, Commit(1));
    FollowsOne(l, before, Commit(1), rule);
  }

  lemma SoloDeletes(l: Limits, w: World, n: Name, size: nat, r: nat, delta: int, rule: Rule)
    requires PhaseAt(r) in rule.open
    ensures
      var before := Solo(w, n, size, r, delta);
      && Enabled(l, before, Delete(n)) && Obeys(rule, before, Delete(n)) && CutsNothing(before, Delete(n))
      && Next(l, before, Delete(n)) == Solo(w.(objects := w.objects - {n}), n, size, r, delta)
  {
  }

  lemma {:induction false} InterruptedRuns(l: Limits, w: World, n: Name, size: nat, r: nat, stop: nat, delta: int, rule: Rule)
    requires 1 <= r <= stop <= 5 && n.bucket in w.buckets && w.puts == map[] && PhaseAt(stop) in rule.open
    requires PassesAll(l, w, n, r, stop, delta) && PassesAll(l, w.(objects := w.objects - {n}), n, stop, 5, delta)
    ensures Possible(l, Solo(w, n, size, r, delta), Interrupted(n, r, stop))
    ensures Follows(l, Solo(w, n, size, r, delta), Interrupted(n, r, stop), rule)
    ensures Run(l, Solo(w, n, size, r, delta), Interrupted(n, r, stop)) == w.(objects := w.objects[n := size])
    decreases stop - r
  {
    hide Usage, Passes;
    if r == stop {
      var without := w.(objects := w.objects - {n});
      RestRuns(l, without, n, size, stop, delta, rule);
      SoloDeletes(l, w, n, size, r, delta, rule);
      assert (w.objects - {n})[n := size] == w.objects[n := size];
      hide Next, Enabled, Obeys, CutsNothing, Solo, Possible, Follows, Run;
      RunCons(l, Solo(w, n, size, r, delta), Delete(n), Rest(stop), rule);
    } else {
      SoloAdvances(l, w, n, size, r, delta, rule);
      InterruptedRuns(l, w, n, size, r + 1, stop, delta, rule);
      hide Next, Enabled, Obeys, CutsNothing, Solo, Possible, Follows, Run;
      RunCons(l, Solo(w, n, size, r, delta), StepTo(r + 1), Interrupted(n, r + 1, stop), rule);
    }
  }

  /** An overwrite whose object is deleted when it has come to rank `stop`. */
  function Overwritten(n: Name, size: nat, stop: nat): seq<Step>
    requires 1 <= stop <= 5
  {
    [Lock(1, n, size)] + ([Measure(1)] + Interrupted(n, 1, stop))
  }

  lemma SoloMeasures(l: Limits, w: World, n: Name, size: nat, rule: Rule)
    requires w.puts == map[] && n.bucket in w.buckets && w.buckets[n.bucket].app == n.app && size <= l.perObject
    ensures
      var lock := Lock(1, n, size);
      && Enabled(l, w, lock) && Obeys(rule, w, lock) && CutsNothing(w, lock) && Next(l, w, lock) == Solo(w, n, size, 0, 0)
  {
    hide Usage;
  }

  lemma SoloLocked(l: Limits, w: World, n: Name, size: nat, rule: Rule)
    ensures
      var w1 := Solo(w, n, size, 0, 0);
      && Enabled(l, w1, Measure(1)) && Obeys(rule, w1, Measure(1)) && CutsNothing(w1, Measure(1))
      && Next(l, w1, Measure(1)) == Solo(w, n, size, 1, size - SizeOf(w.objects, n))
  {
    hide Usage;
    var delta := size - SizeOf(w.objects, n);
    assert map[1 := Put(n, size, Locked, 0)][1 := Put(n, size, Measured, delta)] == map[1 := Put(n, size, Measured, delta)];
  }

  lemma OverwrittenRuns(l: Limits, w: World, n: Name, size: nat, stop: nat, delta: int, rule: Rule)
    requires 1 <= stop <= 5 && w.puts == map[] && PhaseAt(stop) in rule.open && delta == size - SizeOf(w.objects, n)
    requires n.bucket in w.buckets && w.buckets[n.bucket].app == n.app && size <= l.perObject
    requires PassesAll(l, w, n, 1, stop, delta) && PassesAll(l, w.(objects := w.objects - {n}), n, stop, 5, delta)
    ensures Possible(l, w, Overwritten(n, size, stop)) && Follows(l, w, Overwritten(n, size, stop), rule)
    ensures Run(l, w, Overwritten(n, size, stop)) == w.(objects := w.objects[n := size])
  {
    hide PassesAll, Usage, Interrupted, Next, Enabled, Obeys, CutsNothing, Solo, Possible, Follows, Run, SizeOf, PhaseAt;
    var rest := Interrupted(n, 1, stop);
    InterruptedRuns(l, w, n, size, 1, stop, delta, rule);
    SoloLocked(l, w, n, size, rule);
    RunCons(l, Solo(w, n, size, 0, 0), Measure(1), rest, rule);
    SoloMeasures(l, w, n, size, rule);
    RunCons(l, w, Lock(1, n, size), [Measure(1)] + rest, rule);
  }

  /** An object of one byte that fills its cap: that of the application together
      with another object, that of its bucket, or that of its user. */
  function Filled(l: Limits, cap: Cap): World
    requires l.perApp >= 1
  {
    World(
      if cap.AppCap? then map[Name(0, 2, 0, "z") := l.perApp - 1][Name(0, 1, 0, "a") := 1] else map[Name(0, 1, 0, "a") := 1],
      map[1 := Bucket(0, if cap.BucketCap? then Some(1) else None, if cap.UserCap? then Some(1) else None),
          2 := Bucket(0, None, None)],
      map[])
  }

  function FilledUsage(l: Limits, cap: Cap, s: Scope): nat
    requires l.perApp >= 1
  {
    Counted(s, Name(0, 1, 0, "a"), 1) + if cap.AppCap? then Counted(s, Name(0, 2, 0, "z"), l.perApp - 1) else 0
  }

  lemma FilledIs(l: Limits, cap: Cap, s: Scope)
    requires l.perApp >= 1
    ensures Usage(Filled(l, cap).objects, s) == FilledUsage(l, cap, s)
  {
    hide Usage, Counted;
    var none: Sizes := map[];
    var n, z := Name(0, 1, 0, "a"), Name(0, 2, 0, "z");
    EmptyScope(none, s);
    NothingCounted(s, n);
    NothingCounted(s, z);
    UsageWrite(none, n, 1, s);
    UsageWrite(none, z, l.perApp - 1, s);
    UsageWrite(none[z := l.perApp - 1], n, 1, s);
    assert none[n := 1] == map[n := 1];
    assert none[z := l.perApp - 1] == map[z := l.perApp - 1];
  }

  lemma FilledKeeps(l: Limits, cap: Cap)
    requires l.perApp >= 1
    ensures Ordered(Filled(l, cap)) && Kept(l, Filled(l, cap), cap)
  {
    hide Usage;
    forall n
      ensures KeptAt(l, Filled(l, cap), cap, n)
    {
      FilledIs(l, cap, ScopeOf(cap, n));
    }
  }

  /** The checks that an overwrite by one byte more passes when its object goes away
      in the window of the cap. */
  lemma FilledPasses(l: Limits, cap: Cap, stop: nat, k: nat)
    requires l.perApp >= 2 && 1 <= stop < CheckRank(cap) && 1 < k <= 5
    ensures
      var w, n := Filled(l, cap), Name(0, 1, 0, "a");
      && (k <= stop ==> Passes(l, w, n, k, 1))
      && (k > stop ==> Passes(l, w.(objects := w.objects - {n}), n, k, 1))
  {
    hide Usage;
    var w, n := Filled(l, cap), Name(0, 1, 0, "a");
    var s := if k == 2 then OfApp(0) else if k == 3 then OfBucket(1) else OfUser(1, 0);
    FilledIs(l, cap, s);
    UsageDeleted(w.objects, n, s);
  }

  /** A delete of the object being overwritten, landing in the window of a cap, lets
      the put commit more than the cap. */
  lemma DeleteInWindowExceedsCap(l: Limits, cap: Cap, stop: nat, rule: Rule)
    requires l.perApp >= 2 && l.perObject >= 2 && 1 <= stop < CheckRank(cap) && PhaseAt(stop) in rule.open
    ensures
      var w, n := Filled(l, cap), Name(0, 1, 0, "a");
      && Possible(l, w, Overwritten(n, 2, stop)) && Follows(l, w, Overwritten(n, 2, stop), rule)
      && !KeptAt(l, Run(l, w, Overwritten(n, 2, stop)), cap, n)
  {
    hide Usage, Passes, Overwritten, Possible, Follows, Run;
    var w, n := Filled(l, cap), Name(0, 1, 0, "a");
    var without := w.(objects := w.objects - {n});
    forall k: nat | 1 < k <= stop
      ensures Passes(l, w, n, k, 1)
    {
      FilledPasses(l, cap, stop, k);
    }
    forall k: nat | stop < k <= 5
      ensures Passes(l, without, n, k, 1)
    {
      FilledPasses(l, cap, stop, k);
    }
    OverwrittenRuns(l, w, n, 2, stop, 1, rule);
    FilledIs(l, cap, ScopeOf(cap, n));
    UsageWrite(w.objects, n, 2, ScopeOf(cap, n));
  }

  // ------------------------------------------------------------- the exact condition

  /** The cap is kept by every run that follows the rule, from every state without
      puts that keeps it. */
  ghost predicate CapSafe(l: Limits, cap: Cap, rule: Rule) {
    forall w: World, steps: seq<Step> ::
      w.puts == map[] && Ordered(w) && Kept(l, w, cap) && Possible(l, w, steps) && Follows(l, w, steps, rule) ==>
        Kept(l, Run(l, w, steps), cap)
  }

  /** A cap is safe under a rule if and only if no delete of a put's own object may
      land between its measure and the check of that cap and, for the cap of an
      application, its puts are kept apart from that check on, or before: the lock
      of a bucket does not order puts into different buckets. */
  lemma CapSafeExactly(l: Limits, cap: Cap, rule: Rule)
    requires l.perObject >= 2 && l.perApp >= 2
    ensures CapSafe(l, cap, rule) <==> Suits(rule, cap)
  {
    hide Ordered, KeptAt, Run, Possible, Follows, Suits, Filled, Overwritten;
    if Suits(rule, cap) {
      forall w: World, steps: seq<Step> |
        w.puts == map[] && Ordered(w) && Kept(l, w, cap) && Possible(l, w, steps) && Follows(l, w, steps, rule)
        ensures Kept(l, Run(l, w, steps), cap)
      {
        RunKeeps(l, w, steps, cap, rule);
      }
    } else {
      var w, steps, n := UnsuitedRun(l, cap, rule);
      assert !KeptAt(l, Run(l, w, steps), cap, n);
    }
  }

  /** What the code imposes: nothing beyond the lock. */
  const AS_IT_IS := Rule(None, {Locked, Measured, AppChecked, BucketChecked, Admitted, Written})

  /** Every step obeys that, and under it no cap is safe. */
  lemma NoCapSafeAsItIs(l: Limits, cap: Cap)
    requires l.perObject >= 2 && l.perApp >= 2
    ensures forall w: World, step: Step :: Obeys(AS_IT_IS, w, step)
    ensures !CapSafe(l, cap, AS_IT_IS)
  {
    hide CapSafe;
    forall phase: Phase
      ensures phase in AS_IT_IS.open
    {
      match phase {
        case Locked => case Measured => case AppChecked => case BucketChecked => case Admitted => case Written =>
      }
    }
    assert InWindow(cap, Measured);
    CapSafeExactly(l, cap, AS_IT_IS);
  }

  lemma UnsuitedRun(l: Limits, cap: Cap, rule: Rule) returns (w: World, steps: seq<Step>, n: Name)
    requires l.perObject >= 2 && l.perApp >= 2 && !Suits(rule, cap)
    ensures w.puts == map[] && Ordered(w) && Kept(l, w, cap) && Possible(l, w, steps) && Follows(l, w, steps, rule)
    ensures !KeptAt(l, Run(l, w, steps), cap, n)
  {
    hide Ordered, KeptAt, Run, Possible, Follows, Overwritten, Kept, Usage;
    n := Name(0, 1, 0, "a");
    if phase :| phase in rule.open && InWindow(cap, phase) {
      w, steps := Filled(l, cap), Overwritten(n, 2, Rank(phase));
      FilledKeeps(l, cap);
      DeleteInWindowExceedsCap(l, cap, Rank(phase), rule);
    } else {
      var m := Name(0, 2, 0, "a");
      w, steps := AlmostFull(l), Overlapping(n, m, 1);
      AlmostFullFits(l);
      OverlapExceedsCap(l, w, n, m, 1, rule);
    }
  }

  /** One byte short of the application's cap. */
  function AlmostFull(l: Limits): World
    requires l.perApp >= 1
  {
    World(map[Name(0, 1, 0, "z") := l.perApp - 1], map[1 := Bucket(0, None, None), 2 := Bucket(0, None, None)], map[])
  }

  lemma AlmostFullFits(l: Limits)
    requires l.perApp >= 1
    ensures Ordered(AlmostFull(l)) && Kept(l, AlmostFull(l), AppCap)
    ensures Usage(AlmostFull(l).objects, OfApp(0)) == l.perApp - 1
  {
    var n := Name(0, 1, 0, "z");
    var none: Sizes := map[];
    hide Usage;
    forall s
      ensures Usage(AlmostFull(l).objects, s) == Counted(s, n, l.perApp - 1)
    {
      EmptyScope(none, s);
      UsageWrite(none, n, l.perApp - 1, s);
      NothingCounted(s, n);
      assert none[n := l.perApp - 1] == AlmostFull(l).objects;
    }
    forall m
      ensures KeptAt(l, AlmostFull(l), AppCap, m)
    {
    }
  }

  // --------------------------------------------------------------- one whole put

  datatype PutError = TooLarge | NotFound | LimitExceeded | UploadFailed

  /** What a put that no other call interrupts commits. */
  ghost function PutAlone(l: Limits, w: World, n: Name, size: nat, uploaded: bool): Result<Sizes, PutError> {
    if size > l.perObject then Err(TooLarge)
    else if n.bucket !in w.buckets || w.buckets[n.bucket].app != n.app then Err(NotFound)
    else
      var p := Put(n, size, AppChecked, size - SizeOf(w.objects, n));
      if Usage(w.objects, OfApp(n.app)) + p.delta > l.perApp || !CapsAdmit(w, p) then Err(LimitExceeded)
      else if !uploaded then Err(UploadFailed)
      else Ok(w.objects[n := size])
  }

  /** Its steps, run without interruption, commit exactly that. */
  lemma PutAloneRuns(l: Limits, w: World, tx: int, n: Name, size: nat)
    requires PutAlone(l, w, n, size, true).Ok? && tx !in w.puts && Free(w, n.bucket)
    ensures Possible(l, w, Opening(tx, n, size) + Closing(tx))
    ensures Run(l, w, Opening(tx, n, size) + Closing(tx)) == w.(objects := PutAlone(l, w, n, size, true).value)
  {
    hide Usage, Run, Possible, Opening, Closing, Free;
    assert MayLock(l, w, tx, n, size);
    OpeningRuns(l, w, tx, n, size);
    var w1 := Run(l, w, Opening(tx, n, size));
    ClosingRuns(l, w1, tx);
    RunsJoin(l, w, Opening(tx, n, size), Closing(tx));
    assert w1.puts - {tx} == w.puts;
  }

  class ObjectStore {
    const limits: Limits
    var objects: Sizes
    var buckets: map<int, Bucket>

    constructor (limits: Limits)
      ensures this.limits == limits && State() == EMPTY
    {
      this.limits := limits;
      objects, buckets := map[], map[];
    }

    ghost function State(): World
      reads this
    {
      World(objects, buckets, map[])
    }

    /** The database's sum over the rows of a scope. */
    method Measured(s: Scope) returns (used: nat)
      ensures used == Usage(objects, s)
    {
      var rest := objects;
      used := 0;
      while rest != map[]
        invariant rest.Keys <= objects.Keys
        invariant used + Usage(rest, s) == Usage(objects, s)
        decreases rest.Keys
      {
        hide Usage, Counted;
        var n :| n in rest;
        UsageRemove(rest, n, s);
        used := used + Counted(s, n, rest[n]);
        rest := rest - {n};
      }
    }

    method CheckBucketLimit(used: nat, limit: Option<int>, additional: int) returns (ok: bool)
      ensures ok <==> Fits(used, limit, additional)
    {
      if limit.None? {
        return true;
      }
      return !(used + additional > limit.value);
    }

    method PutObject(n: Name, size: nat, uploaded: bool) returns (r: Result<(), PutError>)
      modifies this`objects
      ensures
        var expected := PutAlone(limits, old(State()), n, size, uploaded);
        && r == (if expected.Ok? then Ok(()) else Err(expected.error))
        && objects == if expected.Ok? then expected.value else old(objects)
    {
      hide Usage;
      if size > limits.perObject {
        return Err(TooLarge);
      }
      if n.bucket !in buckets || buckets[n.bucket].app != n.app {
        return Err(NotFound);
      }
      var bucket := buckets[n.bucket];
      var delta := size - SizeOf(objects, n);
      var used := Measured(OfApp(n.app));
      if used + delta > limits.perApp {
        return Err(LimitExceeded);
      }
      used := Measured(OfBucket(n.bucket));
      var ok := CheckBucketLimit(used, bucket.cap, delta);
      if !ok {
        return Err(LimitExceeded);
      }
      used := Measured(OfUser(n.bucket, n.user));
      ok := CheckBucketLimit(used, bucket.userCap, delta);
      if !ok {
        return Err(LimitExceeded);
      }
      if !uploaded {
        return Err(UploadFailed);
      }
      objects := objects[n := size];
      return Ok(());
    }

    method DeleteObject(n: Name) returns (ok: bool)
      modifies this`objects
      ensures ok <==> n in old(objects)
      ensures State() == Next(limits, old(State()), Delete(n))
    {
      ok := n in objects;
      objects := objects - {n};
    }

    /** A limit that is not given stays; a limit that is not positive is refused. */
    method UpdateBucket(id: int, app: int, cap: Option<Option<int>>, userCap: Option<Option<int>>) returns (ok: bool)
      modifies this`buckets
      ensures
        var known := id in old(buckets) && old(buckets)[id].app == app;
        ok <==> known && (cap.Some? ==> Positive(cap.value)) && (userCap.Some? ==> Positive(userCap.value))
      ensures ok ==>
        var was := old(buckets)[id];
        State() == old(State()).(buckets := old(buckets)[id := Bucket(was.app,
          if cap.Some? then cap.value else was.cap, if userCap.Some? then userCap.value else was.userCap)])
      ensures !ok ==> State() == old(State())
    {
      if id !in buckets || buckets[id].app != app {
        return false;
      }
      var bucket := buckets[id];
      if cap.Some? {
        if cap.value.Some? && cap.value.value <= 0 {
          return false;
        }
        bucket := bucket.(cap := cap.value);
      }
      if userCap.Some? {
        if userCap.value.Some? && userCap.value.value <= 0 {
          return false;
        }
        bucket := bucket.(userCap := userCap.value);
      }
      buckets := buckets[id := bucket];
      return true;
    }
  }
}
