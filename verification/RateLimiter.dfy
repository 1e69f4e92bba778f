/** The fixed-window rate limiter: counters that expire, and how many calls get
    through. */
module RateLimiter {
  import opened Outcomes

  // ------------------------------------------------------------------ the counters

  /** A counter of one subject for one window size, in seconds. */
  datatype Key = Key(namespace: string, user: string, window: int)

  datatype Cell = Cell(count: int, expiresAt: Option<int>)

  type Counters = map<Key, Cell>

  /** The counter, unless it has expired. */
  function Live(c: Counters, k: Key, now: int): Option<Cell> {
    if k in c && (c[k].expiresAt.Some? ==> now < c[k].expiresAt.value) then Some(c[k]) else None
  }

  /** Count one more; a counter that is gone starts again, without an expiry. */
  function Increment(c: Counters, k: Key, now: int): Counters {
    var live := Live(c, k, now);
    c[k := if live.Some? then live.value.(count := live.value.count + 1) else Cell(1, None)]
  }

  /** Give a counter its expiry unless it has one; an expiry that is not in the
      future deletes it. */
  function ExpireOnce(c: Counters, k: Key, seconds: int, now: int): Counters {
    if k !in c || c[k].expiresAt.Some? then c
    else if seconds <= 0 then c - {k}
    else c[k := c[k].(expiresAt := Some(now + seconds))]
  }

  function CountAfter(c: Counters, k: Key, now: int): int { Increment(c, k, now)[k].count }

  function Touch(c: Counters, k: Key, now: int): Counters {
    ExpireOnce(Increment(c, k, now), k, k.window, now)
  }

  datatype Limit = Limit(window: int, limit: int)

  // ------------------------------------------------------------- a limiter's calls

  function KeyOf(namespace: string, user: string, l: Limit): Key { Key(namespace, user, l.window) }

  function TouchAll(c: Counters, namespace: string, user: string, limits: seq<Limit>, now: int): Counters {
    if limits == [] then c
    else
      Touch(TouchAll(c, namespace, user, limits[..|limits| - 1], now), KeyOf(namespace, user, limits[|limits| - 1]), now)
  }

  /** The answers to the increments, in order. */
  function Counts(c: Counters, namespace: string, user: string, limits: seq<Limit>, now: int): (r: seq<int>)
    ensures |r| == |limits|
  {
    if limits == [] then []
    else
      var rest := limits[..|limits| - 1];
      Counts(c, namespace, user, rest, now)
      + [CountAfter(TouchAll(c, namespace, user, rest, now), KeyOf(namespace, user, limits[|limits| - 1]), now)]
  }

  predicate Accepts(counts: seq<int>, limits: seq<Limit>)
    requires |counts| == |limits|
  {
    forall i :: 0 <= i < |limits| ==> counts[i] <= limits[i].limit
  }

  /** The counters in the store, shared by all limiters. */
  class Store {
    var counters: Counters

    constructor ()
      ensures counters == map[]
    {
      counters := map[];
    }
  }

  class Limiter {
    const store: Store
    const limits: seq<Limit>
    const user: string
    const namespace: string

    constructor (store: Store, limits: seq<Limit>, user: string, namespace: string)
      ensures this.store == store && this.limits == limits && this.user == user && this.namespace == namespace
    {
      this.store, this.limits, this.user, this.namespace := store, limits, user, namespace;
    }

    /** Every window is counted, also when the call is refused. */
    method CheckAndConsume(now: int) returns (accepted: bool)
      modifies store
      ensures store.counters == TouchAll(old(store.counters), namespace, user, limits, now)
      ensures accepted <==> Accepts(Counts(old(store.counters), namespace, user, limits, now), limits)
    {
      hide Touch, CountAfter;
      var results: seq<int> := [];
      ghost var before := store.counters;
      for i := 0 to |limits|
        invariant store.counters == TouchAll(before, namespace, user, limits[..i], now)
        invariant results == Counts(before, namespace, user, limits[..i], now)
      {
        assert limits[..i + 1][..i] == limits[..i];
        var key := KeyOf(namespace, user, limits[i]);
        results := results + [CountAfter(store.counters, key, now)];
        store.counters := Touch(store.counters, key, now);
      }
      assert limits[..|limits|] == limits;
      for i := 0 to |limits|
        invariant forall j :: 0 <= j < i ==> results[j] <= limits[j].limit
      {
        if results[i] > limits[i].limit {
          return false;
        }
      }
      return true;
    }

    method GetRemaining(now: int) returns (remaining: seq<int>)
      ensures remaining == Remaining(store.counters, namespace, user, limits, now)
    {
      remaining := [];
      for i := 0 to |limits|
        invariant remaining == Remaining(store.counters, namespace, user, limits, now)[..i]
      {
        remaining := remaining + [Left(store.counters, KeyOf(namespace, user, limits[i]), limits[i].limit, now)];
      }
    }
  }

  /** How many more calls a counter lets through. */
  function Left(c: Counters, k: Key, limit: int, now: int): (left: int)
    ensures left >= 0
  {
    var live := Live(c, k, now);
    var left := limit - if live.Some? then live.value.count else 0;
    if left > 0 then left else 0
  }

  function Remaining(c: Counters, namespace: string, user: string, limits: seq<Limit>, now: int): seq<int> {
    seq(|limits|, i requires 0 <= i < |limits| => Left(c, KeyOf(namespace, user, limits[i]), limits[i].limit, now))
  }

  // -------------------------------------------------------- windows are independent

  lemma TouchElsewhere(c: Counters, k: Key, k': Key, now: int)
    requires k != k'
    ensures k' in Touch(c, k, now) <==> k' in c
    ensures k' in c ==> Touch(c, k, now)[k'] == c[k']
  {
  }

  /** What a counter shows and becomes does not depend on other counters. */
  predicate SameAt(c: Counters, c': Counters, k: Key) {
    (k in c <==> k in c') && (k in c ==> c[k] == c'[k])
  }

  lemma TouchAlike(c: Counters, c': Counters, k: Key, now: int)
    requires SameAt(c, c', k)
    ensures SameAt(Touch(c, k, now), Touch(c', k, now), k) && CountAfter(c, k, now) == CountAfter(c', k, now)
  {
  }

  function TouchTimes(c: Counters, k: Key, n: nat, now: int): Counters {
    if n == 0 then c else Touch(TouchTimes(c, k, n - 1, now), k, now)
  }

  /** How often a window size is configured. */
  function Occurs(limits: seq<Limit>, window: int): nat {
    if limits == [] then 0
    else Occurs(limits[..|limits| - 1], window) + if limits[|limits| - 1].window == window then 1 else 0
  }

  /** How many entries before the `i`th have its window size. */
  function Earlier(limits: seq<Limit>, i: nat): nat
    requires i < |limits|
  {
    Occurs(limits[..i], limits[i].window)
  }

  lemma {:induction false} WindowTouched(c: Counters, namespace: string, user: string, limits: seq<Limit>, now: int, window: int)
    ensures
      var k := Key(namespace, user, window);
      SameAt(TouchAll(c, namespace, user, limits, now), TouchTimes(c, k, Occurs(limits, window), now), k)
    decreases |limits|
  {
    hide Touch;
    if limits != [] {
      var rest, k := limits[..|limits| - 1], Key(namespace, user, window);
      WindowTouched(c, namespace, user, rest, now, window);
      var last := KeyOf(namespace, user, limits[|rest|]);
      if last == k {
        TouchAlike(TouchAll(c, namespace, user, rest, now), TouchTimes(c, k, Occurs(rest, window), now), k, now);
      } else {
        TouchElsewhere(TouchAll(c, namespace, user, rest, now), last, k, now);
      }
    }
  }

  lemma {:induction false} CountIs(c: Counters, namespace: string, user: string, limits: seq<Limit>, now: int, i: nat)
    requires i < |limits|
    ensures Counts(c, namespace, user, limits, now)[i]
         == CountAfter(TouchAll(c, namespace, user, limits[..i], now), KeyOf(namespace, user, limits[i]), now)
    decreases |limits|
  {
    hide TouchAll, CountAfter;
    var rest := limits[..|limits| - 1];
    if i < |rest| {
      CountIs(c, namespace, user, rest, now, i);
      assert rest[..i] == limits[..i];
    }
  }

  /** In a call a counter is touched by its own entries alone, one after another. */
  lemma EachWindowCounts(c: Counters, namespace: string, user: string, limits: seq<Limit>, now: int, i: nat)
    requires i < |limits|
    ensures
      var k := KeyOf(namespace, user, limits[i]);
      && Counts(c, namespace, user, limits, now)[i] == CountAfter(TouchTimes(c, k, Earlier(limits, i), now), k, now)
      && SameAt(TouchAll(c, namespace, user, limits, now), TouchTimes(c, k, Occurs(limits, limits[i].window), now), k)
  {
    hide Counts, TouchAll, TouchTimes, Touch, CountAfter, Occurs;
    var k := KeyOf(namespace, user, limits[i]);
    CountIs(c, namespace, user, limits, now, i);
    WindowTouched(c, namespace, user, limits[..i], now, k.window);
    TouchAlike(TouchAll(c, namespace, user, limits[..i], now), TouchTimes(c, k, Earlier(limits, i), now), k, now);
    WindowTouched(c, namespace, user, limits, now, k.window);
  }

  /** No window size is configured twice. */
  ghost predicate DistinctWindows(limits: seq<Limit>) {
    forall i, j :: 0 <= i < j < |limits| ==> limits[i].window != limits[j].window
  }

  lemma {:induction false} NeverOccurs(limits: seq<Limit>, window: int)
    requires forall i :: 0 <= i < |limits| ==> limits[i].window != window
    ensures Occurs(limits, window) == 0
  {
    if limits != [] {
      NeverOccurs(limits[..|limits| - 1], window);
    }
  }

  lemma {:induction false} OccursOnce(limits: seq<Limit>, i: nat)
    requires i < |limits|
    ensures Occurs(limits, limits[i].window) >= 1
    ensures DistinctWindows(limits) ==> Occurs(limits, limits[i].window) == 1 && Earlier(limits, i) == 0
    decreases |limits|
  {
    var rest := limits[..|limits| - 1];
    if DistinctWindows(limits) {
      NeverOccurs(limits[..i], limits[i].window);
    }
    if i < |rest| {
      OccursOnce(rest, i);
    } else {
      assert rest == limits[..i];
    }
  }

  /** Without repetition each window is counted as if it were the only one. */
  lemma EachWindowAlone(c: Counters, namespace: string, user: string, limits: seq<Limit>, now: int, i: nat)
    requires DistinctWindows(limits) && i < |limits|
    ensures
      var k := KeyOf(namespace, user, limits[i]);
      && Counts(c, namespace, user, limits, now)[i] == CountAfter(c, k, now)
      && SameAt(TouchAll(c, namespace, user, limits, now), Touch(c, k, now), k)
  {
    hide Counts, TouchAll, Touch, CountAfter;
    EachWindowCounts(c, namespace, user, limits, now, i);
    OccursOnce(limits, i);
  }

  /** A touched counter of a positive window is live, and keeps an expiry it had. */
  lemma TouchLives(c: Counters, k: Key, now: int)
    requires k.window >= 1
    ensures
      var live, after := Live(c, k, now), Live(Touch(c, k, now), k, now);
      && after.Some? && after.value.count == CountAfter(c, k, now) == 1 + (if live.Some? then live.value.count else 0)
      && after.value.expiresAt
         == Some(if live.Some? && live.value.expiresAt.Some? then live.value.expiresAt.value else now + k.window)
  {
  }

  lemma {:induction false} TimesCount(c: Counters, k: Key, n: nat, now: int)
    requires k.window >= 1
    ensures CountAfter(TouchTimes(c, k, n, now), k, now) == CountAfter(c, k, now) + n
  {
    if n > 0 {
      TimesCount(c, k, n - 1, now);
      hide Touch;
      TouchLives(TouchTimes(c, k, n - 1, now), k, now);
      TouchLives(TouchTimes(c, k, n, now), k, now);
    }
  }

  /** A window that is not positive leaves no counter behind. */
  lemma {:induction false} TimesNothing(c: Counters, k: Key, n: nat, now: int)
    requires k.window <= 0 && k !in c
    ensures k !in TouchTimes(c, k, n, now) && CountAfter(TouchTimes(c, k, n, now), k, now) == 1
  {
    if n > 0 {
      TimesNothing(c, k, n - 1, now);
    }
  }

  /** Every counter in the store has a positive window, whichever limiters wrote it. */
  ghost predicate Timed(c: Counters) { forall k :: k in c ==> k.window >= 1 }

  lemma {:induction false} TouchAllTimed(c: Counters, namespace: string, user: string, limits: seq<Limit>, now: int)
    requires Timed(c)
    ensures Timed(TouchAll(c, namespace, user, limits, now))
  {
    if limits != [] {
      TouchAllTimed(c, namespace, user, limits[..|limits| - 1], now);
    }
  }

  /** What earlier entries of a call take from the counter of the `i`th. */
  function Taken(limits: seq<Limit>, i: nat): nat
    requires i < |limits|
  {
    if limits[i].window >= 1 then Earlier(limits, i) else 0
  }

  /** A call is accepted exactly when more remains for every entry than earlier
      entries of the same window take: anything at all, when none is repeated. */
  lemma RemainingPredicts(c: Counters, namespace: string, user: string, limits: seq<Limit>, now: int)
    requires Timed(c) || DistinctWindows(limits)
    ensures Accepts(Counts(c, namespace, user, limits, now), limits)
       <==> forall i :: 0 <= i < |limits| ==> Remaining(c, namespace, user, limits, now)[i] > Taken(limits, i)
    ensures DistinctWindows(limits) ==> forall i :: 0 <= i < |limits| ==> Taken(limits, i) == 0
  {
    hide Counts, TouchTimes, Occurs;
    forall i | 0 <= i < |limits|
      ensures Counts(c, namespace, user, limits, now)[i] <= limits[i].limit
         <==> Remaining(c, namespace, user, limits, now)[i] > Taken(limits, i)
      ensures DistinctWindows(limits) ==> Taken(limits, i) == 0
    {
      EntryPredicts(c, namespace, user, limits, now, i);
      OccursOnce(limits, i);
    }
  }

  lemma EntryPredicts(c: Counters, namespace: string, user: string, limits: seq<Limit>, now: int, i: nat)
    requires i < |limits| && (Timed(c) || DistinctWindows(limits))
    ensures Counts(c, namespace, user, limits, now)[i] <= limits[i].limit
       <==> Remaining(c, namespace, user, limits, now)[i] > Taken(limits, i)
  {
    hide Counts, TouchTimes, Occurs, TouchAll;
    var k := KeyOf(namespace, user, limits[i]);
    EachWindowCounts(c, namespace, user, limits, now, i);
    if k.window >= 1 {
      TimesCount(c, k, Earlier(limits, i), now);
    } else if k !in c {
      TimesNothing(c, k, Earlier(limits, i), now);
    } else {
      EachWindowAlone(c, namespace, user, limits, now, i);
    }
  }

  /** A limit of one, configured twice: when no counter is live something remains in
      both entries, and yet the call is refused. */
  lemma RepeatedWindowMisleads(c: Counters, namespace: string, user: string, now: int)
    requires Timed(c) && Live(c, Key(namespace, user, 60), now).None?
    ensures
      var limits := [Limit(60, 1), Limit(60, 1)];
      && Remaining(c, namespace, user, limits, now) == [1, 1]
      && !Accepts(Counts(c, namespace, user, limits, now), limits)
  {
    var limits := [Limit(60, 1), Limit(60, 1)];
    RemainingPredicts(c, namespace, user, limits, now);
    hide Counts, Live;
    assert limits[..1] == [Limit(60, 1)] && [Limit(60, 1)][..0] == [];
    assert Occurs([Limit(60, 1)], 60) == 1;
    assert Taken(limits, 1) == 1;
  }

  // -------------------------------------------------------------- a run on one window

  /** A counted call: when, until when its counter lives, and what it counted. */
  datatype Hit = Hit(at: int, expiry: int, count: int)

  /** Later calls come no earlier; each belongs to the window that is open, or opens
      the next. */
  predicate Follows(a: Hit, b: Hit, window: int) {
    && a.at <= b.at
    && if b.at < a.expiry then b.expiry == a.expiry && b.count == a.count + 1
       else b.expiry == b.at + window && b.count == 1
  }

  predicate Windowed(trace: seq<Hit>, window: int) {
    && (trace != [] ==> trace[0].count == 1 && trace[0].expiry == trace[0].at + window)
    && forall i :: 0 <= i < |trace| - 1 ==> Follows(trace[i], trace[i + 1], window)
  }

  /** Accepted hits that satisfy `p`. */
  function Accepted(trace: seq<Hit>, limit: int, p: Hit -> bool): nat {
    if trace == [] then 0
    else
      var last := trace[|trace| - 1];
      Accepted(trace[..|trace| - 1], limit, p) + if last.count <= limit && p(last) then 1 else 0
  }

  function Cap(limit: int): nat { if limit > 0 then limit else 0 }

  function Lower(a: int, b: int): int { if a <= b then a else b }

  lemma {:induction false} AcceptedMono(trace: seq<Hit>, limit: int, p: Hit -> bool, q: Hit -> bool)
    requires forall h :: h in trace && p(h) ==> q(h)
    ensures Accepted(trace, limit, p) <= Accepted(trace, limit, q)
  {
    if trace != [] {
      AcceptedMono(trace[..|trace| - 1], limit, p, q);
      assert trace[|trace| - 1] in trace;
    }
  }

  lemma {:induction false} AcceptedSplit(trace: seq<Hit>, limit: int, p: Hit -> bool, a: Hit -> bool, b: Hit -> bool)
    requires forall h :: h in trace && p(h) ==> a(h) || b(h)
    ensures Accepted(trace, limit, p) <= Accepted(trace, limit, a) + Accepted(trace, limit, b)
  {
    if trace != [] {
      AcceptedSplit(trace[..|trace| - 1], limit, p, a, b);
      assert trace[|trace| - 1] in trace;
    }
  }

  function Epoch(e: int): Hit -> bool { (h: Hit) => h.expiry == e }

  lemma {:induction false} EpochsAscend(trace: seq<Hit>, window: int, i: nat)
    requires Windowed(trace, window) && window >= 1 && i < |trace|
    ensures
      var last := trace[|trace| - 1];
      && last.count >= 1 && last.expiry - window <= last.at < last.expiry
      && (trace[i].expiry == last.expiry || trace[i].expiry + window <= last.expiry)
    decreases |trace|
  {
    var rest := trace[..|trace| - 1];
    if rest != [] {
      EpochsAscend(rest, window, if i < |rest| then i else 0);
      assert Follows(trace[|rest| - 1], trace[|rest|], window);
    }
  }

  /** Within one expiry epoch the hits count 1, 2, 3 and so on. */
  lemma {:induction false} EpochAccepts(trace: seq<Hit>, window: int, limit: int, e: int)
    requires Windowed(trace, window) && window >= 1
    ensures Accepted(trace, limit, Epoch(e)) <= Cap(limit)
    ensures trace != [] && e == trace[|trace| - 1].expiry ==>
      Accepted(trace, limit, Epoch(e)) == Lower(trace[|trace| - 1].count, Cap(limit))
    ensures trace != [] && e > trace[|trace| - 1].expiry ==> Accepted(trace, limit, Epoch(e)) == 0
  {
    if trace != [] {
      var rest := trace[..|trace| - 1];
      EpochAccepts(rest, window, limit, e);
      EpochsAscend(trace, window, 0);
      if rest != [] {
        EpochsAscend(rest, window, 0);
        assert Follows(trace[|rest| - 1], trace[|rest|], window);
      }
    }
  }

  lemma {:induction false} EpochsApart(trace: seq<Hit>, window: int, i: nat, j: nat)
    requires Windowed(trace, window) && window >= 1 && i <= j < |trace|
    ensures trace[i].expiry == trace[j].expiry || trace[i].expiry + window <= trace[j].expiry
    ensures trace[j].expiry - window <= trace[j].at < trace[j].expiry
  {
    EpochsAscend(trace[..j + 1], window, i);
  }

  function Expiring(lo: int, hi: int): Hit -> bool { (h: Hit) => lo < h.expiry <= hi }

  /** Expiry times within one window length are all the same. */
  lemma OneEpoch(trace: seq<Hit>, window: int, limit: int, lo: int)
    requires Windowed(trace, window) && window >= 1
    ensures Accepted(trace, limit, Expiring(lo, lo + window)) <= Cap(limit)
  {
    var p := Expiring(lo, lo + window);
    if h :| h in trace && p(h) {
      var i :| 0 <= i < |trace| && trace[i] == h;
      forall g | g in trace && p(g)
        ensures g.expiry == h.expiry
      {
        var j :| 0 <= j < |trace| && trace[j] == g;
        EpochsApart(trace, window, if i <= j then i else j, if i <= j then j else i);
      }
      AcceptedMono(trace, limit, p, Epoch(h.expiry));
      EpochAccepts(trace, window, limit, h.expiry);
    } else {
      AcceptedMono(trace, limit, p, Epoch(0));
      EpochAccepts(trace, window, limit, 0);
    }
  }

  function During(from: int, length: int): Hit -> bool { (h: Hit) => from <= h.at < from + length }

  /** Hits of an epoch after its first. */
  function Later(e: int): Hit -> bool { (h: Hit) => h.expiry == e && h.count >= 2 }

  lemma {:induction false} LaterAccepts(trace: seq<Hit>, window: int, limit: int, e: int)
    requires Windowed(trace, window) && window >= 1 && limit >= 1
    ensures Accepted(trace, limit, Later(e)) <= limit - 1
    ensures trace != [] && e == trace[|trace| - 1].expiry ==>
      Accepted(trace, limit, Later(e)) == Lower(trace[|trace| - 1].count, limit) - 1
    ensures trace != [] && e > trace[|trace| - 1].expiry ==> Accepted(trace, limit, Later(e)) == 0
  {
    if trace != [] {
      var rest := trace[..|trace| - 1];
      LaterAccepts(rest, window, limit, e);
      EpochsAscend(trace, window, 0);
      if rest != [] {
        EpochsAscend(rest, window, 0);
        assert Follows(trace[|rest| - 1], trace[|rest|], window);
      }
    }
  }

  /** The first hit of an epoch opens it. */
  lemma FirstOpens(trace: seq<Hit>, window: int, i: nat)
    requires Windowed(trace, window) && window >= 1 && i < |trace| && trace[i].count <= 1
    ensures trace[i].at == trace[i].expiry - window
  {
    if i > 0 {
      EpochsAscend(trace[..i], window, 0);
      assert Follows(trace[i - 1], trace[i], window);
    }
  }

  predicate Both(p: Hit -> bool, q: Hit -> bool, h: Hit) { p(h) && q(h) }

  /** When an interval reaches into a second epoch, it holds no first hit of the
      epoch before. */
  lemma EarlierEpochCut(trace: seq<Hit>, window: int, limit: int, from: int, j: nat)
    requires Windowed(trace, window) && window >= 1 && limit >= 1 && j < |trace|
    requires During(from, window)(trace[j]) && trace[j].expiry > from + window
    ensures Accepted(trace, limit, h => Both(During(from, window), Expiring(from, from + window), h)) <= limit - 1
  {
    var p := h => Both(During(from, window), Expiring(from, from + window), h);
    EpochsApart(trace, window, j, j);
    if h :| h in trace && p(h) {
      var i :| 0 <= i < |trace| && trace[i] == h;
      forall g | g in trace && p(g)
        ensures g.expiry == h.expiry && g.count >= 2
      {
        var m :| 0 <= m < |trace| && trace[m] == g;
        EpochsApart(trace, window, if i <= m then i else m, if i <= m then m else i);
        EpochsApart(trace, window, if j <= m then j else m, if j <= m then m else j);
        if g.count <= 1 {
          FirstOpens(trace, window, m);
          assert false;
        }
      }
      AcceptedMono(trace, limit, p, Later(h.expiry));
      LaterAccepts(trace, window, limit, h.expiry);
    } else {
      AcceptedMono(trace, limit, p, Later(0));
      LaterAccepts(trace, window, limit, 0);
    }
  }

  /** What an interval as long as the window can hold: one call less than twice the
      limit, since the call that opens the first of two epochs lies outside. */
  function Most(limit: int): nat { if limit > 0 then 2 * limit - 1 else 0 }

  /** In any interval as long as the window fewer than twice the limit are accepted. */
  lemma SlidingBound(trace: seq<Hit>, window: int, limit: int, from: int)
    requires Windowed(trace, window) && window >= 1
    ensures Accepted(trace, limit, During(from, window)) <= Most(limit)
  {
    var during, early, late := During(from, window), Expiring(from, from + window), Expiring(from + window, from + window + window);
    OneEpoch(trace, window, limit, from);
    OneEpoch(trace, window, limit, from + window);
    forall h | h in trace && during(h)
      ensures early(h) || late(h)
    {
      var i :| 0 <= i < |trace| && trace[i] == h;
      EpochsApart(trace, window, i, i);
    }
    if limit >= 1 {
      if h :| h in trace && during(h) && late(h) {
        var j :| 0 <= j < |trace| && trace[j] == h;
        EarlierEpochCut(trace, window, limit, from, j);
        AcceptedSplit(trace, limit, during, g => Both(during, early, g), late);
      } else {
        AcceptedMono(trace, limit, during, early);
      }
    } else {
      AcceptedSplit(trace, limit, during, early, late);
    }
  }

  // ------------------------------------------------------------------- whole runs

  /** The counters after calls at the given times. */
  function RunCalls(c: Counters, namespace: string, user: string, limits: seq<Limit>, times: seq<int>): Counters {
    if times == [] then c
    else
      TouchAll(RunCalls(c, namespace, user, limits, times[..|times| - 1]), namespace, user, limits, times[|times| - 1])
  }

  /** What the calls did in one window. */
  function Trace(c: Counters, namespace: string, user: string, limits: seq<Limit>, times: seq<int>, i: nat): (t: seq<Hit>)
    requires i < |limits|
    ensures |t| == |times|
  {
    if times == [] then []
    else
      var rest, now := times[..|times| - 1], times[|times| - 1];
      var before, k := RunCalls(c, namespace, user, limits, rest), KeyOf(namespace, user, limits[i]);
      var after := TouchAll(before, namespace, user, limits, now);
      var expiry := if k in after && after[k].expiresAt.Some? then after[k].expiresAt.value else now;
      Trace(c, namespace, user, limits, rest, i) + [Hit(now, expiry, Counts(before, namespace, user, limits, now)[i])]
  }

  ghost predicate Ascending(times: seq<int>) { forall i, j :: 0 <= i <= j < |times| ==> times[i] <= times[j] }

  /** The counter after a run tells of the last hit. */
  predicate Mirrors(c: Counters, k: Key, trace: seq<Hit>) {
    if trace == [] then k !in c
    else k in c && c[k] == Cell(trace[|trace| - 1].count, Some(trace[|trace| - 1].expiry))
  }

  lemma {:induction false} TraceWindowed(namespace: string, user: string, limits: seq<Limit>, times: seq<int>, i: nat)
    requires DistinctWindows(limits) && i < |limits| && limits[i].window >= 1 && Ascending(times)
    ensures Windowed(Trace(map[], namespace, user, limits, times, i), limits[i].window)
    ensures Mirrors(RunCalls(map[], namespace, user, limits, times), KeyOf(namespace, user, limits[i]),
                    Trace(map[], namespace, user, limits, times, i))
    ensures forall m :: 0 <= m < |times| ==> Trace(map[], namespace, user, limits, times, i)[m].at == times[m]
  {
    hide Counts, TouchAll;
    if times != [] {
      var rest, now, k := times[..|times| - 1], times[|times| - 1], KeyOf(namespace, user, limits[i]);
      TraceWindowed(namespace, user, limits, rest, i);
      var before := RunCalls(map[], namespace, user, limits, rest);
      EachWindowAlone(before, namespace, user, limits, now, i);
      var trace := Trace(map[], namespace, user, limits, rest, i);
      if trace != [] {
        assert trace[|trace| - 1].at == times[|rest| - 1] <= now;
      }
    }
  }

  // ------------------------------------------------------- windows that are repeated

  /** The two counters expire together, and the first has counted no less. */
  predicate Covers(c: Counters, c': Counters, k: Key) {
    && (k in c <==> k in c')
    && (k in c ==> c[k].expiresAt.Some? && c[k].expiresAt == c'[k].expiresAt && c[k].count >= c'[k].count)
  }

  lemma TouchCovers(c: Counters, c': Counters, k: Key, now: int)
    requires k.window >= 1 && Covers(c, c', k)
    ensures Covers(Touch(c, k, now), Touch(c', k, now), k) && CountAfter(c, k, now) >= CountAfter(c', k, now)
  {
  }

  lemma {:induction false} TimesCover(c: Counters, c': Counters, k: Key, n: nat, now: int)
    requires k.window >= 1 && Covers(c, c', k)
    ensures n >= 1 ==> Covers(TouchTimes(c, k, n, now), Touch(c', k, now), k)
    ensures CountAfter(TouchTimes(c, k, n, now), k, now) >= CountAfter(c', k, now)
  {
    TouchCovers(c, c', k, now);
    TimesCount(c, k, n, now);
    if n > 1 {
      TimesCover(c, c', k, n - 1, now);
      hide Touch, CountAfter;
      var before := TouchTimes(c, k, n - 1, now);
      TouchLives(before, k, now);
      TouchLives(c', k, now);
      StillCovers(before, Touch(c', k, now), k, now);
    } else {
      assert TouchTimes(c, k, 0, now) == c;
    }
  }

  lemma StillCovers(c: Counters, c': Counters, k: Key, now: int)
    requires k.window >= 1 && Covers(c, c', k) && Live(c', k, now).Some?
    ensures Covers(Touch(c, k, now), c', k)
  {
  }

  /** Hits at the same times and of the same epochs, which have counted no less. */
  ghost predicate Outcounts(trace: seq<Hit>, trace': seq<Hit>) {
    && |trace| == |trace'|
    && forall m :: 0 <= m < |trace| ==>
         trace[m].at == trace'[m].at && trace[m].expiry == trace'[m].expiry && trace[m].count >= trace'[m].count
  }

  /** A repeated window counts no less than one configured alone. */
  lemma {:induction false} TraceCovers(namespace: string, user: string, limits: seq<Limit>, times: seq<int>, i: nat)
    requires i < |limits| && limits[i].window >= 1
    ensures Outcounts(Trace(map[], namespace, user, limits, times, i), Trace(map[], namespace, user, [limits[i]], times, 0))
    ensures Covers(RunCalls(map[], namespace, user, limits, times), RunCalls(map[], namespace, user, [limits[i]], times),
                   KeyOf(namespace, user, limits[i]))
  {
    hide Counts, TouchAll;
    if times != [] {
      var rest, now, k := times[..|times| - 1], times[|times| - 1], KeyOf(namespace, user, limits[i]);
      TraceCovers(namespace, user, limits, rest, i);
      var before, before' := RunCalls(map[], namespace, user, limits, rest), RunCalls(map[], namespace, user, [limits[i]], rest);
      CallCovers(before, before', namespace, user, limits, now, i);
    }
  }

  lemma CallCovers(c: Counters, c': Counters, namespace: string, user: string, limits: seq<Limit>, now: int, i: nat)
    requires i < |limits| && limits[i].window >= 1 && Covers(c, c', KeyOf(namespace, user, limits[i]))
    ensures
      var k, single := KeyOf(namespace, user, limits[i]), [limits[i]];
      && Covers(TouchAll(c, namespace, user, limits, now), TouchAll(c', namespace, user, single, now), k)
      && Counts(c, namespace, user, limits, now)[i] >= Counts(c', namespace, user, single, now)[0]
      && k in TouchAll(c, namespace, user, limits, now)
  {
    hide Counts, TouchAll, TouchTimes, Touch, CountAfter, Occurs;
    var k, single := KeyOf(namespace, user, limits[i]), [limits[i]];
    EachWindowCounts(c, namespace, user, limits, now, i);
    EachWindowAlone(c', namespace, user, single, now, 0);
    OccursOnce(limits, i);
    TimesCover(c, c', k, Earlier(limits, i), now);
    TimesCover(c, c', k, Occurs(limits, k.window), now);
    TouchLives(c', k, now);
  }

  lemma {:induction false} AcceptedFewer(trace: seq<Hit>, trace': seq<Hit>, limit: int, p: Hit -> bool)
    requires Outcounts(trace, trace')
    requires forall h: Hit, h': Hit :: h.at == h'.at && h.expiry == h'.expiry ==> p(h) == p(h')
    ensures Accepted(trace, limit, p) <= Accepted(trace', limit, p)
  {
    if trace != [] {
      AcceptedFewer(trace[..|trace| - 1], trace'[..|trace| - 1], limit, p);
    }
  }

  /** A call at a time passed every window. */
  predicate PassedAll(namespace: string, user: string, limits: seq<Limit>, times: seq<int>, m: nat)
    requires m < |times|
  {
    Accepts(Counts(RunCalls(map[], namespace, user, limits, times[..m]), namespace, user, limits, times[m]), limits)
  }

  /** How many calls in an interval were accepted. */
  function Passed(namespace: string, user: string, limits: seq<Limit>, times: seq<int>, from: int, length: int): nat {
    if times == [] then 0
    else
      var n := |times| - 1;
      Passed(namespace, user, limits, times[..n], from, length)
      + if from <= times[n] < from + length && PassedAll(namespace, user, limits, times, n) then 1 else 0
  }

  lemma {:induction false} PassedAccepted(namespace: string, user: string, limits: seq<Limit>, times: seq<int>, from: int, length: int, i: nat)
    requires i < |limits|
    ensures Passed(namespace, user, limits, times, from, length)
         <= Accepted(Trace(map[], namespace, user, limits, times, i), limits[i].limit, During(from, length))
  {
    hide Counts, TouchAll;
    if times != [] {
      var n := |times| - 1;
      PassedAccepted(namespace, user, limits, times[..n], from, length, i);
      var trace := Trace(map[], namespace, user, limits, times, i);
      assert trace[..n] == Trace(map[], namespace, user, limits, times[..n], i);
    }
  }

  /** However calls come, and whatever windows are configured, in any interval as
      long as a window fewer than twice that window's limit are accepted. */
  lemma AcceptedCallsBounded(namespace: string, user: string, limits: seq<Limit>, times: seq<int>, from: int, i: nat)
    requires i < |limits| && limits[i].window >= 1 && Ascending(times)
    ensures Passed(namespace, user, limits, times, from, limits[i].window) <= Most(limits[i].limit)
  {
    hide Passed, Trace, Accepted, Windowed, Outcounts;
    var trace, single := Trace(map[], namespace, user, limits, times, i), Trace(map[], namespace, user, [limits[i]], times, 0);
    PassedAccepted(namespace, user, limits, times, from, limits[i].window, i);
    TraceCovers(namespace, user, limits, times, i);
    AcceptedFewer(trace, single, limits[i].limit, During(from, limits[i].window));
    TraceWindowed(namespace, user, [limits[i]], times, 0);
    SlidingBound(single, limits[i].window, limits[i].limit, from);
  }

  /** Between two expiries of a counter no more than its limit are accepted. */
  lemma AcceptedPerEpoch(namespace: string, user: string, limits: seq<Limit>, times: seq<int>, e: int, i: nat)
    requires i < |limits| && limits[i].window >= 1 && Ascending(times)
    ensures Accepted(Trace(map[], namespace, user, limits, times, i), limits[i].limit, Epoch(e)) <= Cap(limits[i].limit)
  {
    hide Trace, Accepted, Windowed, Outcounts;
    var trace, single := Trace(map[], namespace, user, limits, times, i), Trace(map[], namespace, user, [limits[i]], times, 0);
    TraceCovers(namespace, user, limits, times, i);
    AcceptedFewer(trace, single, limits[i].limit, Epoch(e));
    TraceWindowed(namespace, user, [limits[i]], times, 0);
    EpochAccepts(single, limits[i].window, limits[i].limit, e);
  }
}
