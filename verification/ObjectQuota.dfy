/** Object-storage quotas under interleaved puts. A put locks its bucket, measures
    what it replaces, makes three checks, writes, and commits or aborts; between
    its steps other calls may run, deletes of the very object included. */
module ObjectQuota {
  import opened Outcomes

  datatype Name = Name(app: int, bucket: int, user: int, key: string)

  datatype Bucket = Bucket(app: int, cap: Option<int>, userCap: Option<int>)

  type Sizes = map<Name, nat>

  // ------------------------------------------------------------------- usage

  datatype Scope = OfApp(app: int) | OfBucket(bucket: int) | OfUser(bucket: int, user: int)

  predicate Within(s: Scope, n: Name) {
    match s
    case OfApp(app) => n.app == app
    case OfBucket(bucket) => n.bucket == bucket
    case OfUser(bucket, user) => n.bucket == bucket && n.user == user
  }

  function Counted(s: Scope, n: Name, size: nat): nat { if Within(s, n) then size else 0 }

  /** The bytes stored within a scope. */
  ghost function Usage(objects: Sizes, s: Scope): nat {
    if objects == map[] then 0
    else
      var n :| n in objects;
      Counted(s, n, objects[n]) + Usage(objects - {n}, s)
  }

  lemma {:induction false} UsageRemove(objects: Sizes, n: Name, s: Scope)
    requires n in objects
    ensures Usage(objects, s) == Counted(s, n, objects[n]) + Usage(objects - {n}, s)
    decreases objects
  {
    hide Counted;
    var m :| m in objects && Usage(objects, s) == Counted(s, m, objects[m]) + Usage(objects - {m}, s);
    if m != n {
      UsageRemove(objects - {m}, n, s);
      UsageRemove(objects - {n}, m, s);
      assert objects - {m} - {n} == objects - {n} - {m};
    }
  }

  function SizeOf(objects: Sizes, n: Name): nat {
    if n in objects then objects[n] else 0
  }

  /** A write adds the difference in size to the usage of its scopes. */
  lemma UsageWrite(objects: Sizes, n: Name, size: nat, s: Scope)
    ensures Usage(objects[n := size], s) + Counted(s, n, SizeOf(objects, n)) == Usage(objects, s) + Counted(s, n, size)
  {
    hide Usage, Counted;
    UsageRemove(objects[n := size], n, s);
    if n in objects {
      UsageRemove(objects, n, s);
      assert objects[n := size] - {n} == objects - {n};
    } else {
      assert objects[n := size] - {n} == objects;
      NothingCounted(s, n);
    }
  }

  lemma NothingCounted(s: Scope, n: Name)
    ensures Counted(s, n, 0) == 0
  {
  }

  lemma UsageDelete(objects: Sizes, n: Name, s: Scope)
    ensures Usage(objects - {n}, s) <= Usage(objects, s)
  {
    hide Usage, Counted;
    if n in objects {
      UsageRemove(objects, n, s);
    } else {
      assert objects - {n} == objects;
    }
  }

  lemma {:induction false} UsageDeleteAll(objects: Sizes, gone: set<Name>, s: Scope)
    ensures Usage(objects - gone, s) <= Usage(objects, s)
    decreases gone
  {
    hide Usage;
    if gone == {} {
      assert objects - gone == objects;
    } else {
      var n :| n in gone;
      UsageDeleteAll(objects - {n}, gone - {n}, s);
      UsageDelete(objects, n, s);
      assert objects - {n} - (gone - {n}) == objects - gone;
    }
  }

  // -------------------------------------------------------------------- the world

  datatype Phase = Locked | Measured | AppChecked | BucketChecked | Admitted | Written

  /** A put under way; `delta` counts from `Measured` on. */
  datatype Put = Put(name: Name, size: nat, phase: Phase, delta: int)

  /** Committed objects and buckets, and the puts under way by transaction. */
  datatype World = World(objects: Sizes, buckets: map<int, Bucket>, puts: map<int, Put>)

  datatype Limits = Limits(perObject: nat, perApp: nat)

  datatype Step =
    | Lock(tx: int, name: Name, size: nat)
    | Measure(tx: int)
    | CheckApp(tx: int)
    | CheckBucket(tx: int)
    | CheckUser(tx: int)
    | Write(tx: int)
    | Commit(tx: int)
    | Abort(tx: int)
    | Delete(name: Name)
    | Create(bucket: int, app: int, cap: Option<int>, userCap: Option<int>)
    | SetLimits(bucket: int, cap: Option<int>, userCap: Option<int>)
    | Drop(bucket: int)

  predicate Free(w: World, bucket: int) {
    forall tx :: tx in w.puts ==> w.puts[tx].name.bucket != bucket
  }

  predicate InPhase(w: World, tx: int, phase: Phase) { tx in w.puts && w.puts[tx].phase == phase }

  /** When a step can be taken. The row lock of a bucket is held from `Lock` until
      the put ends; while it is held neither another put nor a change of limits
      gets past it. Deletes take no such lock. */
  predicate Enabled(l: Limits, w: World, step: Step) {
    match step
    case Lock(tx, n, size) =>
      && tx !in w.puts && n.bucket in w.buckets && w.buckets[n.bucket].app == n.app
      && Free(w, n.bucket) && size <= l.perObject
    case Measure(tx) => InPhase(w, tx, Locked)
    case CheckApp(tx) => InPhase(w, tx, Measured)
    case CheckBucket(tx) => InPhase(w, tx, AppChecked)
    case CheckUser(tx) => InPhase(w, tx, BucketChecked)
    case Write(tx) => InPhase(w, tx, Admitted)
    case Commit(tx) => InPhase(w, tx, Written)
    case Abort(tx) => tx in w.puts
    case Delete(_) => true
    case Create(b, app, cap, userCap) => b !in w.buckets && Positive(cap) && Positive(userCap)
    case SetLimits(b, cap, userCap) => b in w.buckets && Free(w, b) && Positive(cap) && Positive(userCap)
    case Drop(b) => Free(w, b)
  }

  predicate Positive(limit: Option<int>) { limit.Some? ==> limit.value > 0 }

  predicate Fits(used: nat, limit: Option<int>, delta: int) {
    limit.Some? ==> used + delta <= limit.value
  }

  function NamesIn(objects: Sizes, bucket: int): set<Name> {
    set n | n in objects && n.bucket == bucket
  }

  function End(w: World, tx: int): World { w.(puts := w.puts - {tx}) }

  function Enter(w: World, tx: int, phase: Phase): World
    requires tx in w.puts
  {
    w.(puts := w.puts[tx := w.puts[tx].(phase := phase)])
  }

  /** A check passes on or ends the put with an error. */
  function Pass(w: World, tx: int, ok: bool, phase: Phase): World
    requires tx in w.puts
  {
    if ok then Enter(w, tx, phase) else End(w, tx)
  }

  ghost function Next(l: Limits, w: World, step: Step): World
    requires Enabled(l, w, step)
  {
    match step
    case Lock(tx, n, size) => w.(puts := w.puts[tx := Put(n, size, Locked, 0)])
    case Measure(tx) =>
      var p := w.puts[tx];
      w.(puts := w.puts[tx := p.(phase := Measured, delta := p.size - SizeOf(w.objects, p.name))])
    case CheckApp(tx) =>
      var p := w.puts[tx];
      Pass(w, tx, Usage(w.objects, OfApp(p.name.app)) + p.delta <= l.perApp, AppChecked)
    case CheckBucket(tx) =>
      var p := w.puts[tx];
      Pass(w, tx, p.name.bucket in w.buckets
                  && Fits(Usage(w.objects, OfBucket(p.name.bucket)), w.buckets[p.name.bucket].cap, p.delta), BucketChecked)
    case CheckUser(tx) =>
      var p := w.puts[tx];
      Pass(w, tx, p.name.bucket in w.buckets
                  && Fits(Usage(w.objects, OfUser(p.name.bucket, p.name.user)), w.buckets[p.name.bucket].userCap, p.delta), Admitted)
    case Write(tx) => Enter(w, tx, Written)
    case Commit(tx) =>
      var p := w.puts[tx];
      End(w.(objects := w.objects[p.name := p.size]), tx)
    case Abort(tx) => End(w, tx)
    case Delete(n) => w.(objects := w.objects - {n})
    case Create(b, app, cap, userCap) => w.(buckets := w.buckets[b := Bucket(app, cap, userCap)])
    case SetLimits(b, cap, userCap) => w.(buckets := w.buckets[b := w.buckets[b].(cap := cap, userCap := userCap)])
    case Drop(b) =>
      w.(objects := w.objects - NamesIn(w.objects, b), buckets := w.buckets - {b})
  }

  // ------------------------------------------------------------ what every step keeps

  function Rank(phase: Phase): nat {
    match phase
    case Locked => 0
    case Measured => 1
    case AppChecked => 2
    case BucketChecked => 3
    case Admitted => 4
    case Written => 5
  }

  /** The three caps, in the order in which a put checks them. */
  datatype Cap = AppCap | BucketCap | UserCap

  /** The rank from which a put has passed the check. */
  function CheckRank(cap: Cap): nat {
    match cap
    case AppCap => 2
    case BucketCap => 3
    case UserCap => 4
  }

  function ScopeOf(cap: Cap, n: Name): Scope {
    match cap
    case AppCap => OfApp(n.app)
    case BucketCap => OfBucket(n.bucket)
    case UserCap => OfUser(n.bucket, n.user)
  }

  function LimitOf(l: Limits, w: World, cap: Cap, n: Name): Option<int> {
    match cap
    case AppCap => Some(l.perApp)
    case BucketCap => if n.bucket in w.buckets then w.buckets[n.bucket].cap else None
    case UserCap => if n.bucket in w.buckets then w.buckets[n.bucket].userCap else None
  }

  /** What committing the put adds to the usage of its scopes. */
  function Change(w: World, p: Put): int { p.size - SizeOf(w.objects, p.name) }

  /** Between measuring and the check of a cap. */
  predicate InWindow(cap: Cap, phase: Phase) { 1 <= Rank(phase) < CheckRank(cap) }

  /** Objects lie in buckets of their application, and one put at a time works in
      each bucket. */
  ghost predicate Ordered(w: World) {
    && (forall n :: n in w.objects ==> n.bucket in w.buckets && w.buckets[n.bucket].app == n.app)
    && (forall tx :: tx in w.puts ==>
          w.puts[tx].name.bucket in w.buckets && w.buckets[w.puts[tx].name.bucket].app == w.puts[tx].name.app)
    && (forall t, u :: t in w.puts && u in w.puts && t != u ==> w.puts[t].name.bucket != w.puts[u].name.bucket)
  }

  lemma StepOrdered(l: Limits, w: World, step: Step)
    requires Ordered(w) && Enabled(l, w, step)
    ensures Ordered(Next(l, w, step))
  {
    hide Usage;
  }

  /** What a put under way may rely on: its measure until the check of the cap, and
      from then on that what it adds still fits. */
  ghost predicate Holds(l: Limits, w: World, cap: Cap, p: Put) {
    && (InWindow(cap, p.phase) ==> p.delta == Change(w, p))
    && (Rank(p.phase) >= CheckRank(cap) ==>
          Fits(Usage(w.objects, ScopeOf(cap, p.name)), LimitOf(l, w, cap, p.name), Change(w, p)))
  }

  ghost predicate Reliable(l: Limits, w: World, cap: Cap) {
    Ordered(w) && forall tx :: tx in w.puts ==> Holds(l, w, cap, w.puts[tx])
  }

  // ------------------------------------------------------------------------ rules

  /** A discipline that the lock does not impose: the phase from which puts of one
      application are kept apart, if they are at all, and the phases of a put in
      which a delete of its own object may land. */
  datatype Rule = Rule(from: Option<Phase>, open: set<Phase>)

  /** The rank from which the rule keeps puts apart; none has the last. */
  function Start(rule: Rule): nat { if rule.from.Some? then Rank(rule.from.value) else 6 }

  /** The phase that a step takes its put into, and that put's application. */
  function Entered(step: Step): Option<Phase> {
    match step
    case Lock(_, _, _) => Some(Locked)
    case Measure(_) => Some(Measured)
    case CheckApp(_) => Some(AppChecked)
    case CheckBucket(_) => Some(BucketChecked)
    case CheckUser(_) => Some(Admitted)
    case Write(_) => Some(Written)
    case _ => None
  }

  function AppOf(w: World, step: Step): int {
    match step
    case Lock(_, n, _) => n.app
    case Measure(tx) => if tx in w.puts then w.puts[tx].name.app else 0
    case CheckApp(tx) => if tx in w.puts then w.puts[tx].name.app else 0
    case CheckBucket(tx) => if tx in w.puts then w.puts[tx].name.app else 0
    case CheckUser(tx) => if tx in w.puts then w.puts[tx].name.app else 0
    case Write(tx) => if tx in w.puts then w.puts[tx].name.app else 0
    case _ => 0
  }

  /** No other put of the application has got as far as `rank`. */
  ghost predicate Clear(w: World, rank: nat, app: int) {
    forall tx :: tx in w.puts && w.puts[tx].name.app == app ==> Rank(w.puts[tx].phase) < rank
  }

  ghost predicate Obeys(rule: Rule, w: World, step: Step) {
    && (Entered(step).Some? && Entered(step) == rule.from ==> Clear(w, Start(rule), AppOf(w, step)))
    && (step.Delete? ==> forall tx :: tx in w.puts && w.puts[tx].name == step.name ==> w.puts[tx].phase in rule.open)
  }

  /** Two puts of one application are never both at `rank` or past it. */
  ghost predicate Apart(w: World, rank: nat) {
    forall t, u :: t in w.puts && u in w.puts && t != u && w.puts[t].name.app == w.puts[u].name.app ==>
      Rank(w.puts[t].phase) < rank || Rank(w.puts[u].phase) < rank
  }

  lemma StepApart(l: Limits, w: World, step: Step, rule: Rule)
    requires Apart(w, Start(rule)) && Enabled(l, w, step) && Obeys(rule, w, step)
    ensures Apart(Next(l, w, step), Start(rule))
  {
    hide Usage, Free;
  }

  /** The rule keeps a cap: no delete lands in the cap's window, and for the cap of
      an application puts are kept apart from its check on, or before. */
  predicate Suits(rule: Rule, cap: Cap) {
    && (forall phase :: phase in rule.open ==> !InWindow(cap, phase))
    && (cap.AppCap? ==> Start(rule) <= CheckRank(AppCap))
  }

  // ------------------------------------------------------------ what every step keeps

  lemma UsageDeleted(objects: Sizes, n: Name, s: Scope)
    ensures Usage(objects - {n}, s) + Counted(s, n, SizeOf(objects, n)) == Usage(objects, s)
  {
    hide Usage, Counted;
    if n in objects {
      UsageRemove(objects, n, s);
    } else {
      assert objects - {n} == objects;
      NothingCounted(s, n);
    }
  }

  /** A delete of the put's own object, outside the window, leaves what it adds
      fitting: it then adds more, to less. */
  lemma HoldsAfterOwnDelete(l: Limits, w: World, cap: Cap, p: Put)
    requires Holds(l, w, cap, p) && !InWindow(cap, p.phase)
    ensures Holds(l, w.(objects := w.objects - {p.name}), cap, p)
  {
    hide Usage;
    UsageDeleted(w.objects, p.name, ScopeOf(cap, p.name));
  }

  lemma HoldsAfterDelete(l: Limits, w: World, cap: Cap, p: Put, gone: set<Name>)
    requires Holds(l, w, cap, p) && p.name !in gone
    ensures Holds(l, w.(objects := w.objects - gone), cap, p)
  {
    hide Usage;
    UsageDeleteAll(w.objects, gone, ScopeOf(cap, p.name));
  }

  /** Another put's commit, outside the scope or before the check. */
  lemma HoldsAfterCommit(l: Limits, w: World, cap: Cap, p: Put, n: Name, size: nat)
    requires Holds(l, w, cap, p) && n.bucket != p.name.bucket
    requires cap.AppCap? && n.app == p.name.app ==> Rank(p.phase) < CheckRank(AppCap)
    ensures Holds(l, w.(objects := w.objects[n := size]), cap, p)
  {
    hide Usage;
    UsageWrite(w.objects, n, size, ScopeOf(cap, p.name));
  }

  lemma HoldsIgnoresPuts(l: Limits, w: World, w': World, cap: Cap, p: Put)
    requires Holds(l, w, cap, p) && w'.objects == w.objects
    requires LimitOf(l, w', cap, p.name) == LimitOf(l, w, cap, p.name)
    ensures Holds(l, w', cap, p)
  {
    hide Usage;
  }

  /** A put's own step takes it on with what it may rely on. */
  lemma OwnStepHolds(l: Limits, w: World, step: Step, cap: Cap)
    requires Reliable(l, w, cap) && Enabled(l, w, step)
    requires step.Measure? || step.CheckApp? || step.CheckBucket? || step.CheckUser? || step.Write?
    ensures step.tx in Next(l, w, step).puts ==> Holds(l, Next(l, w, step), cap, Next(l, w, step).puts[step.tx])
  {
    hide Usage;
    assert Holds(l, w, cap, w.puts[step.tx]);
  }

  lemma HoldsAfterDrop(l: Limits, w: World, cap: Cap, p: Put, b: int)
    requires Enabled(l, w, Drop(b)) && Holds(l, w, cap, p) && p.name.bucket != b
    ensures Holds(l, Next(l, w, Drop(b)), cap, p)
  {
    hide Usage, Holds;
    HoldsAfterDelete(l, w, cap, p, NamesIn(w.objects, b));
    HoldsIgnoresPuts(l, w.(objects := w.objects - NamesIn(w.objects, b)), Next(l, w, Drop(b)), cap, p);
  }

  lemma HoldsAfterCommitOf(l: Limits, w: World, cap: Cap, p: Put, t: int)
    requires Enabled(l, w, Commit(t)) && Holds(l, w, cap, p) && w.puts[t].name.bucket != p.name.bucket
    requires cap.AppCap? && w.puts[t].name.app == p.name.app ==> Rank(p.phase) < CheckRank(AppCap)
    ensures Holds(l, Next(l, w, Commit(t)), cap, p)
  {
    hide Usage, Holds;
    var q := w.puts[t];
    HoldsAfterCommit(l, w, cap, p, q.name, q.size);
    HoldsIgnoresPuts(l, w.(objects := w.objects[q.name := q.size]), Next(l, w, Commit(t)), cap, p);
  }

  /** The other steps write no object and keep the limits of a bucket that is
      there. */
  lemma HoldsAfterOther(l: Limits, w: World, step: Step, cap: Cap, p: Put)
    requires Enabled(l, w, step) && Holds(l, w, cap, p) && p.name.bucket in w.buckets
    requires !step.Commit? && !step.Delete? && !step.Drop? && !step.SetLimits?
    ensures Holds(l, Next(l, w, step), cap, p)
  {
    hide Usage, Holds;
    HoldsIgnoresPuts(l, w, Next(l, w, step), cap, p);
  }

  /** Two puts of one application are not both at its check or beyond. */
  lemma CommitsApart(w: World, rule: Rule, cap: Cap, tx: int, t: int)
    requires Ordered(w) && Apart(w, Start(rule)) && Suits(rule, cap)
    requires tx in w.puts && t in w.puts && tx != t && w.puts[t].phase.Written?
    ensures w.puts[t].name.bucket != w.puts[tx].name.bucket
    ensures cap.AppCap? && w.puts[t].name.app == w.puts[tx].name.app ==> Rank(w.puts[tx].phase) < CheckRank(AppCap)
  {
  }

  /** What a put may rely on outlasts every step of any other call. */
  lemma HoldsAfterStep(l: Limits, w: World, step: Step, cap: Cap, rule: Rule, tx: int)
    requires Reliable(l, w, cap) && Apart(w, Start(rule)) && Suits(rule, cap)
    requires Enabled(l, w, step) && Obeys(rule, w, step)
    requires tx in w.puts && tx in Next(l, w, step).puts && Next(l, w, step).puts[tx] == w.puts[tx]
    ensures Holds(l, Next(l, w, step), cap, w.puts[tx])
  {
    var p := w.puts[tx];
    assert Ordered(w) && Holds(l, w, cap, p);
    hide Usage, Holds, Free, Reliable, Apart, Suits, Ordered;
    match step
    case Commit(t) =>
      CommitsApart(w, rule, cap, tx, t);
      HoldsAfterCommitOf(l, w, cap, p, t);
    case Delete(n) =>
      if p.name == n {
        HoldsAfterOwnDelete(l, w, cap, p);
      } else {
        HoldsAfterDelete(l, w, cap, p, {n});
      }
    case Drop(b) =>
      FreeOf(w, b, tx);
      HoldsAfterDrop(l, w, cap, p, b);
    case SetLimits(b, _, _) =>
      FreeOf(w, b, tx);
      HoldsIgnoresPuts(l, w, Next(l, w, step), cap, p);
    case _ => HoldsAfterOther(l, w, step, cap, p);
  }

  lemma FreeOf(w: World, bucket: int, tx: int)
    requires Free(w, bucket) && tx in w.puts
    ensures w.puts[tx].name.bucket != bucket
  {
  }

  /** Which put a step is about. */
  function Own(step: Step): Option<int> {
    match step
    case Lock(tx, _, _) => Some(tx)
    case Measure(tx) => Some(tx)
    case CheckApp(tx) => Some(tx)
    case CheckBucket(tx) => Some(tx)
    case CheckUser(tx) => Some(tx)
    case Write(tx) => Some(tx)
    case Commit(tx) => Some(tx)
    case Abort(tx) => Some(tx)
    case _ => None
  }

  lemma OthersStay(l: Limits, w: World, step: Step, tx: int)
    requires Enabled(l, w, step) && Own(step) != Some(tx)
    ensures tx in Next(l, w, step).puts <==> tx in w.puts
    ensures tx in w.puts ==> Next(l, w, step).puts[tx] == w.puts[tx]
  {
    hide Usage, Free;
  }

  /** Under a rule that suits a cap, what puts may rely on is kept in every step. */
  lemma StepReliable(l: Limits, w: World, step: Step, cap: Cap, rule: Rule)
    requires Reliable(l, w, cap) && Apart(w, Start(rule)) && Suits(rule, cap)
    requires Enabled(l, w, step) && Obeys(rule, w, step)
    ensures Reliable(l, Next(l, w, step), cap)
  {
    StepOrdered(l, w, step);
    var w' := Next(l, w, step);
    hide Ordered, Apart, Suits, Obeys, Usage, Enabled, Free;
    forall tx | tx in w'.puts
      ensures Holds(l, w', cap, w'.puts[tx])
    {
      if Own(step) == Some(tx) {
        OwnHolds(l, w, step, cap, tx);
      } else {
        hide Holds, Next;
        OthersStay(l, w, step, tx);
        HoldsAfterStep(l, w, step, cap, rule, tx);
      }
    }
  }

  lemma OwnHolds(l: Limits, w: World, step: Step, cap: Cap, tx: int)
    requires Reliable(l, w, cap) && Enabled(l, w, step) && Own(step) == Some(tx) && tx in Next(l, w, step).puts
    ensures Holds(l, Next(l, w, step), cap, Next(l, w, step).puts[tx])
  {
    if step.Lock? {
      hide Usage, Free;
    } else {
      hide Usage, Holds, Free, Ordered;
      OwnStepHolds(l, w, step, cap);
    }
  }

  // --------------------------------------------------------------------- the caps

  /** The cap is kept in the scope of a name. */
  ghost predicate KeptAt(l: Limits, w: World, cap: Cap, n: Name) {
    Fits(Usage(w.objects, ScopeOf(cap, n)), LimitOf(l, w, cap, n), 0)
  }

  ghost predicate Kept(l: Limits, w: World, cap: Cap) { forall n :: KeptAt(l, w, cap, n) }

  /** A committed put changes the usage of its scope by the difference in size alone
      and leaves it within the cap, whatever ran between its steps. */
  lemma CommittedWithinCap(l: Limits, w: World, cap: Cap, tx: int)
    requires Reliable(l, w, cap) && InPhase(w, tx, Written)
    ensures
      var p, w' := w.puts[tx], Next(l, w, Commit(tx));
      && Usage(w'.objects, ScopeOf(cap, p.name)) == Usage(w.objects, ScopeOf(cap, p.name)) + Change(w, p)
      && KeptAt(l, w', cap, p.name)
  {
    hide Usage;
    var p := w.puts[tx];
    assert Holds(l, w, cap, p);
    UsageWrite(w.objects, p.name, p.size, ScopeOf(cap, p.name));
  }

  predicate AtLeast(limit: Option<int>, before: Option<int>) {
    limit.None? || (before.Some? && limit.value >= before.value)
  }

  /** No limit is lowered. */
  predicate CutsNothing(w: World, step: Step) {
    step.SetLimits? && step.bucket in w.buckets ==>
      AtLeast(step.cap, w.buckets[step.bucket].cap) && AtLeast(step.userCap, w.buckets[step.bucket].userCap)
  }

  lemma StepKeepsAt(l: Limits, w: World, step: Step, cap: Cap, n: Name)
    requires Reliable(l, w, cap) && Enabled(l, w, step) && CutsNothing(w, step) && KeptAt(l, w, cap, n)
    ensures KeptAt(l, Next(l, w, step), cap, n)
  {
    hide Usage, Free, Holds;
    match step
    case Commit(tx) => CommitKeepsAt(l, w, cap, tx, n);
    case Delete(m) => UsageDelete(w.objects, m, ScopeOf(cap, n));
    case Drop(b) => UsageDeleteAll(w.objects, NamesIn(w.objects, b), ScopeOf(cap, n));
    case Create(b, _, _, _) =>
      if b == n.bucket && !cap.AppCap? {
        EmptyScope(w.objects, ScopeOf(cap, n));
      }
    case _ =>
  }

  lemma CommitKeepsAt(l: Limits, w: World, cap: Cap, tx: int, n: Name)
    requires Reliable(l, w, cap) && InPhase(w, tx, Written) && KeptAt(l, w, cap, n)
    ensures KeptAt(l, Next(l, w, Commit(tx)), cap, n)
  {
    hide Usage, Holds, Reliable;
    var p := w.puts[tx];
    CommittedWithinCap(l, w, cap, tx);
    UsageWrite(w.objects, p.name, p.size, ScopeOf(cap, n));
  }

  lemma {:induction false} EmptyScope(objects: Sizes, s: Scope)
    requires forall n :: n in objects ==> !Within(s, n)
    ensures Usage(objects, s) == 0
    decreases objects
  {
    if objects != map[] {
      var n :| n in objects;
      UsageRemove(objects, n, s);
      EmptyScope(objects - {n}, s);
    }
  }

  // --------------------------------------------------------------------------- runs

  const EMPTY := World(map[], map[], map[])

  /** The steps can be taken one after another from `w`. */
  ghost predicate Possible(l: Limits, w: World, steps: seq<Step>)
    decreases |steps|
  {
    steps == [] || (Enabled(l, w, steps[0]) && Possible(l, Next(l, w, steps[0]), steps[1..]))
  }

  ghost function Run(l: Limits, w: World, steps: seq<Step>): World
    requires Possible(l, w, steps)
    decreases |steps|
  {
    if steps == [] then w else Run(l, Next(l, w, steps[0]), steps[1..])
  }

  /** The steps follow a rule, and lower no limit. */
  ghost predicate Follows(l: Limits, w: World, steps: seq<Step>, rule: Rule)
    requires Possible(l, w, steps)
    decreases |steps|
  {
    steps == []
    || (Obeys(rule, w, steps[0]) && CutsNothing(w, steps[0]) && Follows(l, Next(l, w, steps[0]), steps[1..], rule))
  }

  lemma {:induction false} RunKeeps(l: Limits, w: World, steps: seq<Step>, cap: Cap, rule: Rule)
    requires Reliable(l, w, cap) && Apart(w, Start(rule)) && Suits(rule, cap) && Kept(l, w, cap)
    requires Possible(l, w, steps) && Follows(l, w, steps, rule)
    ensures Kept(l, Run(l, w, steps), cap)
    decreases |steps|
  {
    hide Reliable, Apart, Suits, KeptAt, Next, Enabled, Obeys, CutsNothing;
    if steps != [] {
      var w' := Next(l, w, steps[0]);
      StepReliable(l, w, steps[0], cap, rule);
      StepApart(l, w, steps[0], rule);
      forall n
        ensures KeptAt(l, w', cap, n)
      {
        assert KeptAt(l, w, cap, n);
        StepKeepsAt(l, w, steps[0], cap, n);
      }
      RunKeeps(l, w', steps[1..], cap, rule);
    }
  }

  /** Every run that follows a rule suiting a cap keeps the cap, in every
      interleaving from the start. */
  lemma CapHoldsInEveryRun(l: Limits, steps: seq<Step>, cap: Cap, rule: Rule)
    requires Suits(rule, cap) && Possible(l, EMPTY, steps) && Follows(l, EMPTY, steps, rule)
    ensures Kept(l, Run(l, EMPTY, steps), cap)
  {
    hide Run, Possible, Follows, Suits;
    EmptyKeeps(l, cap);
    RunKeeps(l, EMPTY, steps, cap, rule);
  }

  lemma EmptyKeeps(l: Limits, cap: Cap)
    ensures Reliable(l, EMPTY, cap) && Kept(l, EMPTY, cap)
  {
    forall n
      ensures KeptAt(l, EMPTY, cap, n)
    {
      EmptyScope(EMPTY.objects, ScopeOf(cap, n));
    }
  }
}
