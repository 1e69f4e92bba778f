/** Signing keys of applications: adopted, rotated and dropped, with public keys
    cached by key id. */
module SigningKeys {
  import opened Outcomes

  datatype Key = Key(kid: string, pem: string, active: bool, retiredAt: Option<int>)

  /** An application's inline key and its key rows, as its query returns them: the
      active one first, then the retired ones, newest first. */
  datatype Ring = Ring(kid: string, pem: string, keys: seq<Key>)

  /** Deriving the public key of a private one. */
  type Derive = string -> string

  /** A signature checks out with the public key of its signer and no other. */
  datatype Token = Token(signer: string, claims: string)

  // ------------------------------------------------------------------- operations

  function Adopt(r: Ring): (a: Ring)
    ensures a.keys != []
  {
    if r.keys == [] then r.(keys := [Key(r.kid, r.pem, true, None)]) else r
  }

  function Retire(k: Key, now: int): Key {
    if k.active then k.(active := false, retiredAt := Some(now)) else k
  }

  function RetireAll(keys: seq<Key>, now: int): (r: seq<Key>)
    ensures |r| == |keys| && forall i :: 0 <= i < |keys| ==> r[i] == Retire(keys[i], now)
  {
    seq(|keys|, i requires 0 <= i < |keys| => Retire(keys[i], now))
  }

  function Rotate(r: Ring, kid: string, pem: string, now: int): Ring {
    Ring(kid, pem, [Key(kid, pem, true, None)] + RetireAll(Adopt(r).keys, now))
  }

  function Kept(keys: seq<Key>): (r: seq<Key>)
    ensures forall k :: k in r <==> k in keys && k.active
    ensures |r| <= |keys|
  {
    if keys == [] then []
    else
      var last := keys[|keys| - 1];
      if last.active then Kept(keys[..|keys| - 1]) + [last] else Kept(keys[..|keys| - 1])
  }

  function Drop(r: Ring): Ring { Adopt(r).(keys := Kept(Adopt(r).keys)) }

  /** The key that signs: the first active one, or the first of all. */
  function FirstActive(keys: seq<Key>): (i: nat)
    ensures i <= |keys|
    ensures i < |keys| ==> keys[i].active
    ensures forall j :: 0 <= j < i ==> !keys[j].active
  {
    if keys == [] || keys[0].active then 0 else 1 + FirstActive(keys[1..])
  }

  function ActiveKey(r: Ring): Key {
    var keys := Adopt(r).keys;
    if FirstActive(keys) < |keys| then keys[FirstActive(keys)] else keys[0]
  }

  predicate VerifiedBy(pub: Derive, k: Key, t: Token) { pub(k.pem) == pub(t.signer) }

  /** A token is decoded when any key that is still there verifies it. */
  predicate Verifies(pub: Derive, r: Ring, t: Token) {
    exists k :: k in Adopt(r).keys && VerifiedBy(pub, k, t)
  }

  // -------------------------------------------------------------- exactly one active

  /** From adoption on: one active key, which is the inline key. */
  predicate OneActive(r: Ring) {
    && r.keys != []
    && r.keys[0].active && r.keys[0].kid == r.kid && r.keys[0].pem == r.pem
    && forall i :: 1 <= i < |r.keys| ==> !r.keys[i].active
  }

  datatype Step = Touch | RotateStep(kid: string, pem: string, now: int) | DropStep

  function Apply(r: Ring, step: Step): Ring {
    match step
    case Touch => Adopt(r)
    case RotateStep(kid, pem, now) => Rotate(r, kid, pem, now)
    case DropStep => Drop(r)
  }

  lemma {:induction false} KeptOne(keys: seq<Key>)
    requires keys != [] && keys[0].active && forall i :: 1 <= i < |keys| ==> !keys[i].active
    ensures Kept(keys) == [keys[0]]
  {
    if |keys| == 1 {
      assert keys[..0] == [];
    } else {
      KeptOne(keys[..|keys| - 1]);
    }
  }

  /** Every call leaves exactly one active key, whose id is the application's. */
  lemma StepKeepsOneActive(r: Ring, step: Step)
    requires r.keys == [] || OneActive(r)
    ensures OneActive(Apply(r, step))
    ensures ActiveKey(Apply(r, step)).kid == Apply(r, step).kid && ActiveKey(Apply(r, step)).pem == Apply(r, step).pem
  {
    hide FirstActive, Kept;
    if step.DropStep? {
      KeptOne(Adopt(r).keys);
    }
  }

  function Run(r: Ring, steps: seq<Step>): Ring {
    if steps == [] then r else Apply(Run(r, steps[..|steps| - 1]), steps[|steps| - 1])
  }

  lemma {:induction false} RunKeepsOneActive(r: Ring, steps: seq<Step>)
    requires steps != [] && (r.keys == [] || OneActive(r))
    ensures OneActive(Run(r, steps))
  {
    hide Apply, OneActive;
    if |steps| == 1 {
      assert steps[..0] == [];
      StepKeepsOneActive(r, steps[0]);
    } else {
      RunKeepsOneActive(r, steps[..|steps| - 1]);
      StepKeepsOneActive(Run(r, steps[..|steps| - 1]), steps[|steps| - 1]);
    }
  }

  // -------------------------------------------------------------- the life of a token

  /** The key of the token has been retired. */
  predicate Rotated(steps: seq<Step>) { exists i :: 0 <= i < |steps| && steps[i].RotateStep? }

  /** Retired keys have been dropped since. */
  predicate DroppedSince(steps: seq<Step>) {
    exists i, j :: 0 <= i < j < |steps| && steps[i].RotateStep? && steps[j].DropStep?
  }

  /** No new key derives the public key `p`. */
  predicate NeverAgain(pub: Derive, p: string, steps: seq<Step>) {
    forall i :: 0 <= i < |steps| && steps[i].RotateStep? ==> pub(steps[i].pem) != p
  }

  /** Where the key of a token is after some calls. */
  ghost predicate Standing(pub: Derive, r: Ring, t: Token, rotated: bool, dropped: bool) {
    && OneActive(r)
    && (!rotated ==> r.pem == t.signer)
    && (rotated && !dropped ==> exists k :: k in r.keys && !k.active && k.pem == t.signer)
    && (rotated ==> pub(r.pem) != pub(t.signer))
    && (dropped ==> rotated && forall k :: k in r.keys ==> pub(k.pem) != pub(t.signer))
  }

  lemma StandingStep(pub: Derive, r: Ring, t: Token, rotated: bool, dropped: bool, step: Step)
    requires Standing(pub, r, t, rotated, dropped)
    requires step.RotateStep? ==> pub(step.pem) != pub(t.signer)
    ensures Standing(pub, Apply(r, step), t, rotated || step.RotateStep?, dropped || (rotated && step.DropStep?))
  {
    StepKeepsOneActive(r, step);
    hide FirstActive;
    var r' := Apply(r, step);
    match step
    case Touch =>
    case RotateStep(kid, pem, now) =>
      if !dropped {
        var k :| k in r.keys && k.pem == t.signer;
        var i :| 0 <= i < |r.keys| && r.keys[i] == k;
        assert r'.keys[i + 1] == Retire(k, now);
        assert r'.keys[i + 1] in r'.keys;
      }
    case DropStep =>
      KeptOne(r.keys);
  }

  lemma {:induction false} StandingAfter(pub: Derive, r: Ring, t: Token, steps: seq<Step>)
    requires OneActive(r) && t.signer == ActiveKey(r).pem && NeverAgain(pub, pub(t.signer), steps)
    ensures Standing(pub, Run(r, steps), t, Rotated(steps), DroppedSince(steps))
  {
    hide Apply, Standing;
    if steps == [] {
      StandingStart(pub, r, t);
    } else {
      var rest, last := steps[..|steps| - 1], steps[|steps| - 1];
      StandingAfter(pub, r, t, rest);
      StandingStep(pub, Run(r, rest), t, Rotated(rest), DroppedSince(rest), last);
      StandingFlags(steps);
    }
  }

  lemma StandingStart(pub: Derive, r: Ring, t: Token)
    requires OneActive(r) && t.signer == ActiveKey(r).pem
    ensures Standing(pub, r, t, false, false)
  {
  }

  lemma StandingFlags(steps: seq<Step>)
    requires steps != []
    ensures
      var rest, last := steps[..|steps| - 1], steps[|steps| - 1];
      && (Rotated(steps) <==> Rotated(rest) || last.RotateStep?)
      && (DroppedSince(steps) <==> DroppedSince(rest) || (Rotated(rest) && last.DropStep?))
  {
    var rest, last, n := steps[..|steps| - 1], steps[|steps| - 1], |steps| - 1;
    if Rotated(rest) {
      var i :| 0 <= i < |rest| && rest[i].RotateStep?;
      assert steps[i].RotateStep?;
      if last.DropStep? {
        assert steps[i].RotateStep? && steps[n].DropStep?;
      }
    }
    if Rotated(steps) {
      var i :| 0 <= i < |steps| && steps[i].RotateStep?;
      assert i < n ==> rest[i].RotateStep?;
    }
    if DroppedSince(rest) {
      var i, j :| 0 <= i < j < |rest| && rest[i].RotateStep? && rest[j].DropStep?;
      assert steps[i].RotateStep? && steps[j].DropStep?;
    }
    if DroppedSince(steps) {
      var i, j :| 0 <= i < j < |steps| && steps[i].RotateStep? && steps[j].DropStep?;
      assert rest[i].RotateStep?;
      if j < n {
        assert rest[j].DropStep?;
      }
    }
  }

  /** A token verifies until retired keys are first dropped after a rotation, and
      never afterwards. */
  lemma TokenLivesUntilDropped(pub: Derive, r: Ring, t: Token, steps: seq<Step>)
    requires OneActive(r) && t.signer == ActiveKey(r).pem && NeverAgain(pub, pub(t.signer), steps)
    ensures Verifies(pub, Run(r, steps), t) <==> !DroppedSince(steps)
  {
    hide Run, DroppedSince, Rotated, NeverAgain;
    StandingAfter(pub, r, t, steps);
    var end := Run(r, steps);
    if !Rotated(steps) {
      assert end.keys[0] in end.keys && VerifiedBy(pub, end.keys[0], t);
    } else if !DroppedSince(steps) {
      var k :| k in end.keys && !k.active && k.pem == t.signer;
      assert VerifiedBy(pub, k, t);
    }
  }

  // ------------------------------------------------------------- the shared cache

  /** All applications, the public keys cached by key id, and every key ever made
      by its id. */
  datatype World = World(rings: map<int, Ring>, cache: map<string, string>, issued: map<string, string>)

  datatype Call =
    | Create(app: int, kid: string, pem: string)
    | OnApp(app: int, step: Step)
    | Decode(app: int, token: Token)

  /** Remember the public key of a key id, unless one is remembered already. */
  function Remember(pub: Derive, cache: map<string, string>, k: Key): map<string, string> {
    if k.kid in cache then cache else cache[k.kid := pub(k.pem)]
  }

  /** The cache after decoding: the keys up to the one that verifies are looked up. */
  function LookUp(pub: Derive, cache: map<string, string>, keys: seq<Key>, t: Token): map<string, string>
    decreases keys
  {
    if keys == [] then cache
    else
      var c := Remember(pub, cache, keys[0]);
      if c[keys[0].kid] == pub(t.signer) then c else LookUp(pub, c, keys[1..], t)
  }

  /** The first `i` keys have been looked up, and none verified the token. */
  ghost predicate Tried(pub: Derive, before: map<string, string>, cache: map<string, string>, keys: seq<Key>, i: nat, t: Token) {
    && i <= |keys| && LookUp(pub, before, keys, t) == LookUp(pub, cache, keys[i..], t)
    && forall j :: 0 <= j < i ==> !VerifiedBy(pub, keys[j], t)
  }

  lemma NoneTried(pub: Derive, cache: map<string, string>, keys: seq<Key>, t: Token)
    ensures Tried(pub, cache, cache, keys, 0, t)
  {
    assert keys[0..] == keys;
  }

  lemma TryNext(pub: Derive, before: map<string, string>, cache: map<string, string>, keys: seq<Key>, i: nat, t: Token)
    requires Tried(pub, before, cache, keys, i, t) && i < |keys|
    requires Remember(pub, cache, keys[i])[keys[i].kid] == pub(keys[i].pem)
    ensures
      var c := Remember(pub, cache, keys[i]);
      if VerifiedBy(pub, keys[i], t) then c == LookUp(pub, before, keys, t) else Tried(pub, before, c, keys, i + 1, t)
  {
    assert keys[i..][1..] == keys[i + 1..];
    hide Remember;
  }

  lemma AllTried(pub: Derive, before: map<string, string>, cache: map<string, string>, keys: seq<Key>, t: Token)
    requires Tried(pub, before, cache, keys, |keys|, t)
    ensures cache == LookUp(pub, before, keys, t) && forall k :: k in keys ==> !VerifiedBy(pub, k, t)
  {
    hide LookUp;
    assert keys[|keys|..] == [];
    assert LookUp(pub, cache, [], t) == cache by { NothingLookedUp(pub, cache, t); }
  }

  lemma NothingLookedUp(pub: Derive, cache: map<string, string>, t: Token)
    ensures LookUp(pub, cache, [], t) == cache
  {
  }

  function Issue(w: World, step: Step): map<string, string> {
    if step.RotateStep? then w.issued[step.kid := step.pem] else w.issued
  }

  function After(pub: Derive, w: World, call: Call): World {
    match call
    case Create(app, kid, pem) =>
      w.(rings := w.rings[app := Ring(kid, pem, [])], issued := w.issued[kid := pem])
    case OnApp(app, step) =>
      if app in w.rings then w.(rings := w.rings[app := Apply(w.rings[app], step)], issued := Issue(w, step)) else w
    case Decode(app, t) =>
      if app in w.rings then
        var r := Adopt(w.rings[app]);
        w.(rings := w.rings[app := r], cache := LookUp(pub, w.cache, r.keys, t))
      else w
  }

  /** Key ids are new. */
  predicate Fresh(w: World, call: Call) {
    match call
    case Create(app, kid, _) => app !in w.rings && kid !in w.issued
    case OnApp(_, RotateStep(kid, _, _)) => kid !in w.issued
    case _ => true
  }

  predicate Recorded(issued: map<string, string>, r: Ring) {
    && r.kid in issued && issued[r.kid] == r.pem
    && forall k :: k in r.keys ==> k.kid in issued && issued[k.kid] == k.pem
  }

  /** Every cached public key is the one that deriving gives. */
  ghost predicate Derived(pub: Derive, cache: map<string, string>, issued: map<string, string>) {
    forall kid :: kid in cache ==> kid in issued && cache[kid] == pub(issued[kid])
  }

  ghost predicate Consistent(pub: Derive, w: World) {
    && (forall app :: app in w.rings ==> Recorded(w.issued, w.rings[app]) && (w.rings[app].keys == [] || OneActive(w.rings[app])))
    && Derived(pub, w.cache, w.issued)
  }

  lemma RememberDerives(pub: Derive, cache: map<string, string>, k: Key, issued: map<string, string>)
    requires Derived(pub, cache, issued) && k.kid in issued && issued[k.kid] == k.pem
    ensures Derived(pub, Remember(pub, cache, k), issued) && Remember(pub, cache, k)[k.kid] == pub(k.pem)
  {
  }

  lemma {:induction false} LookUpAgrees(pub: Derive, cache: map<string, string>, keys: seq<Key>, t: Token, issued: map<string, string>)
    requires Derived(pub, cache, issued)
    requires forall k :: k in keys ==> k.kid in issued && issued[k.kid] == k.pem
    ensures Derived(pub, LookUp(pub, cache, keys, t), issued)
    decreases keys
  {
    if keys != [] {
      assert keys[0] in keys;
      LookUpAgrees(pub, Remember(pub, cache, keys[0]), keys[1..], t, issued);
    }
  }

  lemma StepRecorded(issued: map<string, string>, r: Ring, step: Step)
    requires Recorded(issued, r) && (step.RotateStep? ==> step.kid !in issued)
    ensures Recorded(if step.RotateStep? then issued[step.kid := step.pem] else issued, Apply(r, step))
  {
    if step.RotateStep? {
      var keys := Adopt(r).keys;
      forall k | k in RetireAll(keys, step.now)
        ensures k.kid in issued && issued[k.kid] == k.pem
      {
        var i :| 0 <= i < |keys| && RetireAll(keys, step.now)[i] == k;
        assert keys[i] in keys;
      }
    }
  }

  lemma CallKeeps(pub: Derive, w: World, call: Call)
    requires Consistent(pub, w) && Fresh(w, call)
    ensures Consistent(pub, After(pub, w, call))
  {
    hide Apply, OneActive;
    match call
    case Create(_, _, _) =>
    case OnApp(app, step) =>
      if app in w.rings {
        StepRecorded(w.issued, w.rings[app], step);
        StepKeepsOneActive(w.rings[app], step);
      }
    case Decode(app, t) =>
      if app in w.rings {
        StepRecorded(w.issued, w.rings[app], Touch);
        StepKeepsOneActive(w.rings[app], Touch);
        TouchAdopts(w.rings[app]);
        LookUpAgrees(pub, w.cache, Adopt(w.rings[app]).keys, t, w.issued);
      }
  }

  lemma TouchAdopts(r: Ring)
    ensures Apply(r, Touch) == Adopt(r)
  {
  }

  const EMPTY := World(map[], map[], map[])

  ghost function RunAll(pub: Derive, calls: seq<Call>): World {
    if calls == [] then EMPTY else After(pub, RunAll(pub, calls[..|calls| - 1]), calls[|calls| - 1])
  }

  ghost predicate FreshRun(pub: Derive, calls: seq<Call>) {
    calls == []
    || (FreshRun(pub, calls[..|calls| - 1]) && Fresh(RunAll(pub, calls[..|calls| - 1]), calls[|calls| - 1]))
  }

  lemma {:induction false} RunConsistent(pub: Derive, calls: seq<Call>)
    requires FreshRun(pub, calls)
    ensures Consistent(pub, RunAll(pub, calls))
  {
    hide After, Fresh, Consistent;
    if calls == [] {
      EmptyConsistent(pub);
    } else {
      RunConsistent(pub, calls[..|calls| - 1]);
      CallKeeps(pub, RunAll(pub, calls[..|calls| - 1]), calls[|calls| - 1]);
    }
  }

  lemma EmptyConsistent(pub: Derive)
    ensures Consistent(pub, EMPTY)
  {
  }

  /** Whatever any application did, what the cache says of a key is what deriving it
      afresh would say. */
  lemma CacheAgrees(pub: Derive, calls: seq<Call>, app: int, k: Key)
    requires FreshRun(pub, calls) && app in RunAll(pub, calls).rings && k in Adopt(RunAll(pub, calls).rings[app]).keys
    ensures
      var w := RunAll(pub, calls);
      && (k.kid in w.cache ==> w.cache[k.kid] == pub(k.pem))
      && Remember(pub, w.cache, k)[k.kid] == pub(k.pem)
  {
    hide RunAll, FreshRun;
    RunConsistent(pub, calls);
  }
}
