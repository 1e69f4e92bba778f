/** The attempt table as its functions write it: rows selected under a lock, then
    changed one by one. */
module AttemptStore {
  import opened Outcomes
  import opened AuthAttempts

  class Attempts {
    const env: Env
    var attempts: seq<Attempt>
    var users: map<int, User>
    var sessions: seq<Session>

    constructor (env: Env, users: map<int, User>)
      ensures this.env == env && State() == Store([], users, [])
    {
      this.env := env;
      attempts, this.users, sessions := [], users, [];
    }

    ghost function State(): Store
      reads this
    {
      Store(attempts, users, sessions)
    }

    method RevokePendingAttempts(app: int, email: string, kind: Option<Kind>) returns (revoked: nat)
      modifies this`attempts
      ensures attempts == RevokePending(old(attempts), app, email, kind)
      ensures revoked == |RowsWhere(old(attempts), a => Addressed(a, app, email, kind))|
    {
      revoked := 0;
      ghost var before := attempts;
      RevokedNone(before, app, email, kind);
      hide Addressed, RowsWhere, RevokedUpTo, RevokePending;
      for i := 0 to |attempts|
        invariant |attempts| == |before|
        invariant RevokedUpTo(before, attempts, revoked, app, email, kind, i)
      {
        RevokedNext(before, attempts, revoked, app, email, kind, i);
        if Addressed(attempts[i], app, email, kind) {
          attempts := attempts[i := Revoke(attempts[i])];
          revoked := revoked + 1;
        }
      }
      RevokedEvery(before, attempts, revoked, app, email, kind);
    }

    /** Revoke the pending attempts of the address, then add the new one. */
    method IssueCredential(app: int, email: string, kind: Kind, user: Option<int>, token: string, code: Option<string>, expiresAt: int)
      modifies this`attempts
      ensures State() == Issue(env, old(State()), app, email, kind, user, token, code, expiresAt)
    {
      var _ := RevokePendingAttempts(app, email, Some(kind));
      var codeHash := if code.Some? then Some(env.hash(code.value)) else None;
      attempts := attempts + [Attempt(app, kind, email, user, env.hash(token), codeHash, 0, Pending, expiresAt)];
    }

    /** The places of the rows a query selects, in order. */
    method Select(p: Attempt -> bool) returns (places: seq<nat>)
      ensures places == RowsWhere(attempts, p)
    {
      places := [];
      for i := 0 to |attempts|
        invariant places == RowsWhere(attempts[..i], p)
      {
        assert attempts[..i + 1][..i] == attempts[..i];
        if p(attempts[i]) {
          places := places + [i];
        }
      }
      assert attempts[..|attempts|] == attempts;
    }

    /** The first of the selected rows that has the code, if any. */
    method FindCode(ghost p: Attempt -> bool, places: seq<nat>, codeHash: string) returns (found: Option<nat>)
      requires forall m :: 0 <= m < |places| ==> places[m] < |attempts| && p(attempts[places[m]])
      requires forall i :: 0 <= i < |attempts| && p(attempts[i]) ==> i in places
      requires forall m, n :: 0 <= m < n < |places| ==> places[m] < places[n]
      ensures
        var i := FirstWith(attempts, p, codeHash);
        found == if i < |attempts| then Some(i) else None
    {
      ghost var i := FirstWith(attempts, p, codeHash);
      for m := 0 to |places|
        invariant forall n :: 0 <= n < m ==> !Matches(attempts[places[n]], codeHash)
      {
        if Matches(attempts[places[m]], codeHash) {
          assert i == places[m] by {
            assert i in places;
          }
          return Some(places[m]);
        }
      }
      return None;
    }

    /** Count a wrong code against each selected row that has one. */
    method CountMisses(ghost p: Attempt -> bool, places: seq<nat>) returns (exhausted: bool)
      requires forall m :: 0 <= m < |places| ==> places[m] < |attempts| && p(attempts[places[m]])
      requires forall i :: 0 <= i < |attempts| && p(attempts[i]) ==> i in places
      requires forall m, n :: 0 <= m < n < |places| ==> places[m] < places[n]
      modifies this`attempts
      ensures attempts == MissAll(old(attempts), p, env.maxTries)
      ensures MissReason(old(attempts), p, env.maxTries) == if exhausted then TooManyAttempts else InvalidCode
    {
      hide Miss, MissReason, MissAll;
      ghost var before := attempts;
      exhausted := false;
      for m := 0 to |places|
        invariant MissedUpTo(before, attempts, places, m, env.maxTries)
        invariant exhausted <==> ExhaustedUpTo(before, places, m, env.maxTries)
      {
        var i := places[m];
        MissedNext(before, attempts, places, m, env.maxTries);
        hide MissedUpTo;
        var a := attempts[i];
        if a.codeHash.Some? {
          if a.tries + 1 >= env.maxTries {
            exhausted := true;
          }
          attempts := attempts[i := Miss(a, env.maxTries)];
        }
      }
      MissedEvery(before, attempts, p, places, env.maxTries);
      ExhaustedReason(before, p, places, env.maxTries);
    }

    method ConsumeAuthAttemptByCode(app: int, email: string, kinds: set<Kind>, code: string, now: int) returns (r: Result<nat, Failure>)
      modifies this`attempts
      ensures Consumption(attempts, r) == ConsumeCode(env, old(attempts), app, email, kinds, code, now)
    {
      hide FirstWith, MissAll, MissReason, CodeCandidate;
      var p := (a: Attempt) => CodeCandidate(a, app, email, kinds, now);
      var places := Select(p);
      RowsWhereMeans(attempts, p);
      if places == [] {
        NoCandidates(attempts, p, env.hash(code), env.maxTries);
        return Err(InvalidCode);
      }
      var found := FindCode(p, places, env.hash(code));
      if found.Some? {
        attempts := attempts[found.value := attempts[found.value].(status := Consumed)];
        return Ok(found.value);
      }
      var exhausted := CountMisses(p, places);
      return Err(if exhausted then TooManyAttempts else InvalidCode);
    }

    method ConsumeAuthAttempt(token: string, app: int, kind: Kind, now: int) returns (r: Result<nat, Failure>)
      modifies this`attempts
      ensures Consumption(attempts, r) == ConsumeLink(env, old(attempts), token, app, kind, now)
    {
      hide LinkCandidate;
      ghost var p := (a: Attempt) => LinkCandidate(a, env.hash(token), app, kind, now);
      for i := 0 to |attempts|
        invariant attempts == old(attempts)
        invariant forall j :: 0 <= j < i ==> !LinkCandidate(attempts[j], env.hash(token), app, kind, now)
      {
        if LinkCandidate(attempts[i], env.hash(token), app, kind, now) {
          assert First(attempts, p) == i;
          attempts := attempts[i := attempts[i].(status := Consumed)];
          return Ok(i);
        }
      }
      return Err(InvalidToken);
    }

    method FinishAttempt(i: nat, app: int) returns (r: Result<Session, Failure>)
      requires i < |attempts|
      modifies this`users, this`sessions
      ensures (State(), r) == CompleteAttempt(old(State()), i, app)
    {
      var a := attempts[i];
      if a.user.None? || a.user.value !in users {
        return Err(UserNotFound);
      }
      var u := users[a.user.value];
      if u.app != app {
        return Err(InvalidToken);
      }
      if a.kind.VerifyEmail? || !u.verified {
        users := users[a.user.value := u.(verified := true)];
      }
      assert users == old(users)[a.user.value := u.(verified := true)];
      var session := Session(app, a.user.value, i);
      sessions := sessions + [session];
      return Ok(session);
    }

    method SignInWithCode(app: int, email: string, code: string, now: int) returns (r: Result<Session, Failure>)
      modifies this
      ensures (State(), r) == SignInByCode(env, old(State()), app, email, code, now)
    {
      hide ConsumeCode, CompleteAttempt;
      CodeConsumes(env, attempts, app, email, {VerifyEmail, SignIn}, code, now);
      var c := ConsumeAuthAttemptByCode(app, email, {VerifyEmail, SignIn}, code, now);
      if c.Err? {
        return Err(c.error);
      }
      r := FinishAttempt(c.value, app);
    }

    method ConsumeEmailLinkToken(app: int, token: string, now: int) returns (r: Result<Session, Failure>)
      modifies this
      ensures (State(), r) == SignInByLink(env, old(State()), app, token, now)
    {
      hide ConsumeLink, CompleteAttempt;
      LinkConsumes(env, attempts, token, app, now);
      LinkFailureKeeps(env, attempts, token, app, VerifyEmail, now);
      var c := ConsumeAuthAttempt(token, app, VerifyEmail, now);
      if c.Err? {
        c := ConsumeAuthAttempt(token, app, SignIn, now);
      }
      if c.Err? {
        return Err(c.error);
      }
      r := FinishAttempt(c.value, app);
    }

    /** Consume each selected row that has the code. */
    method ConsumeMatched(ghost p: Attempt -> bool, places: seq<nat>, codeHash: string) returns (apps: seq<int>)
      requires forall m :: 0 <= m < |places| ==> places[m] < |attempts| && p(attempts[places[m]])
      requires forall i :: 0 <= i < |attempts| && p(attempts[i]) ==> i in places
      requires forall m, n :: 0 <= m < n < |places| ==> places[m] < places[n]
      modifies this`attempts
      ensures |attempts| == |old(attempts)|
      ensures attempts == ConsumeAll(old(attempts), p, codeHash)
      ensures apps == AppsAt(old(attempts), places, codeHash)
    {
      apps := [];
      ghost var before := attempts;
      for m := 0 to |places|
        invariant |attempts| == |before|
        invariant apps == AppsAt(before, places[..m], codeHash)
        invariant ConsumedUpTo(before, attempts, places, m, codeHash)
      {
        hide Matches, ConsumedUpTo, AppsAt;
        var i := places[m];
        ConsumedNext(before, attempts, places, m, codeHash);
        AppsNext(before, places, m, codeHash);
        if Matches(attempts[i], codeHash) {
          attempts := attempts[i := attempts[i].(status := Consumed)];
          apps := apps + [attempts[i].app];
        }
      }
      ConsumedEvery(before, attempts, p, places, codeHash);
      assert places[..|places|] == places;
    }

    /** The applications whose attempts were consumed, in the order of the rows. */
    method ConsumeAdminLoginCode(email: string, code: string, now: int) returns (apps: seq<int>, r: Result<(), Failure>)
      modifies this`attempts
      ensures (attempts, r) == ConsumeAdmin(env, old(attempts), email, code, now)
      ensures apps == if r.Ok? then AdminApps(env, old(attempts), email, code, now) else []
    {
      hide FirstWith, MissAll, MissReason, ConsumeAll, AdminCandidate, Matches, RowsWhere, AppsAt;
      var p := (a: Attempt) => AdminCandidate(a, email, now);
      var h := env.hash(code);
      var places := Select(p);
      RowsWhereMeans(attempts, p);
      if places == [] {
        NoCandidates(attempts, p, h, env.maxTries);
        return [], Err(InvalidCode);
      }
      var found := FindCode(p, places, h);
      if found.Some? {
        apps := ConsumeMatched(p, places, h);
        return apps, Ok(());
      }
      var exhausted := CountMisses(p, places);
      return [], Err(if exhausted then TooManyAttempts else InvalidCode);
    }

    // ------------------------------------------------- calls with their transaction

    /** The writes of a call that fails are rolled back, unless the caller keeps
        them. */
    method Rollback(before: seq<Attempt>, users: map<int, User>, sessions: seq<Session>)
      modifies this
      ensures State() == Store(before, users, sessions)
    {
      attempts, this.users, this.sessions := before, users, sessions;
    }

    method RequestCode(app: int, email: string, code: string, now: int, caller: Caller) returns (r: Result<Session, Failure>)
      modifies this
      ensures State() == Apply(env, old(State()), CodeStep(app, email, code, now, caller))
      ensures r == SignInByCode(env, old(State()), app, email, code, now).1
    {
      hide SignInByCode;
      var a, u, s := attempts, users, sessions;
      r := SignInWithCode(app, email, code, now);
      if r.Err? && !env.keeps(caller) {
        Rollback(a, u, s);
      }
    }

    method RequestLink(app: int, token: string, now: int, caller: Caller) returns (r: Result<Session, Failure>)
      modifies this
      ensures State() == Apply(env, old(State()), LinkStep(app, token, now, caller))
      ensures r == SignInByLink(env, old(State()), app, token, now).1
    {
      hide SignInByLink;
      var a, u, s := attempts, users, sessions;
      r := ConsumeEmailLinkToken(app, token, now);
      if r.Err? && !env.keeps(caller) {
        Rollback(a, u, s);
      }
    }

    method RequestAdminCode(email: string, code: string, now: int, caller: Caller) returns (apps: seq<int>, r: Result<(), Failure>)
      modifies this
      ensures State() == Apply(env, old(State()), AdminStep(email, code, now, caller))
      ensures r == ConsumeAdmin(env, old(attempts), email, code, now).1
      ensures apps == if r.Ok? then AdminApps(env, old(attempts), email, code, now) else []
    {
      hide ConsumeAdmin, AdminApps;
      var a, u, s := attempts, users, sessions;
      apps, r := ConsumeAdminLoginCode(email, code, now);
      if r.Err? && !env.keeps(caller) {
        Rollback(a, u, s);
      }
    }
  }

  // ------------------------------------------------------------------- selected rows

  /** The places of the rows that satisfy `p`, in order. */
  function RowsWhere(attempts: seq<Attempt>, p: Attempt -> bool): (places: seq<nat>)
    ensures forall m :: 0 <= m < |places| ==> places[m] < |attempts|
  {
    if attempts == [] then []
    else
      var n := |attempts| - 1;
      RowsWhere(attempts[..n], p) + if p(attempts[n]) then [n] else []
  }

  lemma RowsWhereNext(attempts: seq<Attempt>, p: Attempt -> bool, i: nat)
    requires i < |attempts|
    ensures RowsWhere(attempts[..i + 1], p) == RowsWhere(attempts[..i], p) + if p(attempts[i]) then [i] else []
  {
    assert attempts[..i + 1][..i] == attempts[..i];
  }

  lemma {:induction false} RowsWhereMeans(attempts: seq<Attempt>, p: Attempt -> bool)
    ensures
      var places := RowsWhere(attempts, p);
      && (forall m :: 0 <= m < |places| ==> places[m] < |attempts| && p(attempts[places[m]]))
      && (forall i :: 0 <= i < |attempts| && p(attempts[i]) ==> i in places)
      && (forall m, n :: 0 <= m < n < |places| ==> places[m] < places[n])
  {
    if attempts != [] {
      RowsWhereMeans(attempts[..|attempts| - 1], p);
    }
  }

  /** The applications of those rows, among the given places, that have the code. */
  function AppsAt(attempts: seq<Attempt>, places: seq<nat>, codeHash: string): seq<int>
    requires forall m :: 0 <= m < |places| ==> places[m] < |attempts|
  {
    if places == [] then []
    else
      var n := |places| - 1;
      AppsAt(attempts, places[..n], codeHash)
      + if Matches(attempts[places[n]], codeHash) then [attempts[places[n]].app] else []
  }

  function AdminApps(env: Env, attempts: seq<Attempt>, email: string, code: string, now: int): seq<int> {
    var p := (a: Attempt) => AdminCandidate(a, email, now);
    AppsAt(attempts, RowsWhere(attempts, p), env.hash(code))
  }

  lemma AppsNext(attempts: seq<Attempt>, places: seq<nat>, m: nat, codeHash: string)
    requires m < |places| && forall n :: 0 <= n < |places| ==> places[n] < |attempts|
    ensures AppsAt(attempts, places[..m + 1], codeHash)
         == AppsAt(attempts, places[..m], codeHash)
            + if Matches(attempts[places[m]], codeHash) then [attempts[places[m]].app] else []
  {
    assert places[..m + 1][..m] == places[..m];
  }

  // ---------------------------------------------------------------- rows one by one

  /** The rows before place `m` have been revoked as addressed, and counted. */
  ghost predicate RevokedUpTo(before: seq<Attempt>, after: seq<Attempt>, revoked: nat, app: int, email: string, kind: Option<Kind>, m: nat)
    requires m <= |before|
  {
    && after == RevokePending(before[..m], app, email, kind) + before[m..]
    && revoked == |RowsWhere(before[..m], a => Addressed(a, app, email, kind))|
  }

  lemma RevokedNone(before: seq<Attempt>, app: int, email: string, kind: Option<Kind>)
    ensures RevokedUpTo(before, before, 0, app, email, kind, 0)
  {
    assert RevokePending(before[..0], app, email, kind) + before[0..] == before;
  }

  lemma RevokedNext(before: seq<Attempt>, after: seq<Attempt>, revoked: nat, app: int, email: string, kind: Option<Kind>, m: nat)
    requires m < |before| && RevokedUpTo(before, after, revoked, app, email, kind, m)
    ensures |after| == |before| && after[m] == before[m]
    ensures
      var hit := Addressed(after[m], app, email, kind);
      RevokedUpTo(before, if hit then after[m := Revoke(after[m])] else after, if hit then revoked + 1 else revoked,
                  app, email, kind, m + 1)
  {
    hide Addressed, RowsWhere;
    RowsWhereNext(before, a => Addressed(a, app, email, kind), m);
    var done := RevokePending(before[..m + 1], app, email, kind);
    assert done == RevokePending(before[..m], app, email, kind)
                   + [if Addressed(before[m], app, email, kind) then Revoke(before[m]) else before[m]];
  }

  lemma RevokedEvery(before: seq<Attempt>, after: seq<Attempt>, revoked: nat, app: int, email: string, kind: Option<Kind>)
    requires RevokedUpTo(before, after, revoked, app, email, kind, |before|)
    ensures after == RevokePending(before, app, email, kind)
    ensures revoked == |RowsWhere(before, a => Addressed(a, app, email, kind))|
  {
    hide Addressed, RowsWhere;
    assert before[..|before|] == before && before[|before|..] == [];
  }

  /** The selected rows before place `m` of the selection that have the code have
      been consumed. */
  ghost predicate ConsumedUpTo(before: seq<Attempt>, after: seq<Attempt>, places: seq<nat>, m: nat, codeHash: string)
    requires m <= |places|
  {
    && |after| == |before|
    && forall i :: 0 <= i < |before| ==>
         after[i] == if i in places[..m] && Matches(before[i], codeHash) then before[i].(status := Consumed) else before[i]
  }

  lemma ConsumedNext(before: seq<Attempt>, after: seq<Attempt>, places: seq<nat>, m: nat, codeHash: string)
    requires m < |places| && ConsumedUpTo(before, after, places, m, codeHash)
    requires forall n :: 0 <= n < |places| ==> places[n] < |before|
    requires forall n, o :: 0 <= n < o < |places| ==> places[n] < places[o]
    ensures |after| == |before| && after[places[m]] == before[places[m]]
    ensures
      var i := places[m];
      ConsumedUpTo(before, if Matches(after[i], codeHash) then after[i := after[i].(status := Consumed)] else after,
                   places, m + 1, codeHash)
  {
    hide Matches;
    assert places[..m + 1] == places[..m] + [places[m]];
    assert places[m] !in places[..m];
  }

  lemma ConsumedEvery(before: seq<Attempt>, after: seq<Attempt>, p: Attempt -> bool, places: seq<nat>, codeHash: string)
    requires ConsumedUpTo(before, after, places, |places|, codeHash)
    requires forall m :: 0 <= m < |places| ==> places[m] < |before| && p(before[places[m]])
    requires forall i :: 0 <= i < |before| && p(before[i]) ==> i in places
    ensures after == ConsumeAll(before, p, codeHash)
  {
    hide Matches;
    assert places[..|places|] == places;
  }

  /** The selected rows before place `m` of the selection have been missed. */
  ghost predicate MissedUpTo(before: seq<Attempt>, after: seq<Attempt>, places: seq<nat>, m: nat, maxTries: int)
    requires m <= |places|
  {
    && |after| == |before|
    && forall i :: 0 <= i < |before| ==>
         after[i] == if i in places[..m] && before[i].codeHash.Some? then Miss(before[i], maxTries) else before[i]
  }

  lemma MissedNext(before: seq<Attempt>, after: seq<Attempt>, places: seq<nat>, m: nat, maxTries: int)
    requires m < |places| && MissedUpTo(before, after, places, m, maxTries)
    requires forall n :: 0 <= n < |places| ==> places[n] < |before|
    requires forall n, o :: 0 <= n < o < |places| ==> places[n] < places[o]
    ensures |after| == |before| && after[places[m]] == before[places[m]]
    ensures
      var i := places[m];
      MissedUpTo(before, if after[i].codeHash.Some? then after[i := Miss(after[i], maxTries)] else after, places, m + 1, maxTries)
  {
    hide Miss;
    assert places[..m + 1] == places[..m] + [places[m]];
    assert places[m] !in places[..m];
  }

  lemma MissedEvery(before: seq<Attempt>, after: seq<Attempt>, p: Attempt -> bool, places: seq<nat>, maxTries: int)
    requires MissedUpTo(before, after, places, |places|, maxTries)
    requires forall m :: 0 <= m < |places| ==> places[m] < |before| && p(before[places[m]])
    requires forall i :: 0 <= i < |before| && p(before[i]) ==> i in places
    ensures after == MissAll(before, p, maxTries)
  {
    hide Miss;
    assert places[..|places|] == places;
  }

  predicate Exhausts(a: Attempt, maxTries: int) { a.codeHash.Some? && a.tries + 1 >= maxTries }

  predicate ExhaustedUpTo(attempts: seq<Attempt>, places: seq<nat>, m: nat, maxTries: int)
    requires m <= |places| && forall n :: 0 <= n < |places| ==> places[n] < |attempts|
  {
    m > 0 && (ExhaustedUpTo(attempts, places, m - 1, maxTries) || Exhausts(attempts[places[m - 1]], maxTries))
  }

  lemma {:induction false} ExhaustedAmong(attempts: seq<Attempt>, places: seq<nat>, m: nat, maxTries: int)
    requires m <= |places| && forall n :: 0 <= n < |places| ==> places[n] < |attempts|
    ensures ExhaustedUpTo(attempts, places, m, maxTries) <==> exists n :: 0 <= n < m && Exhausts(attempts[places[n]], maxTries)
    decreases m
  {
    if m > 0 {
      ExhaustedAmong(attempts, places, m - 1, maxTries);
    }
  }

  lemma ExhaustedReason(attempts: seq<Attempt>, p: Attempt -> bool, places: seq<nat>, maxTries: int)
    requires forall m :: 0 <= m < |places| ==> places[m] < |attempts| && p(attempts[places[m]])
    requires forall i :: 0 <= i < |attempts| && p(attempts[i]) ==> i in places
    ensures MissReason(attempts, p, maxTries).TooManyAttempts? <==> ExhaustedUpTo(attempts, places, |places|, maxTries)
    ensures MissReason(attempts, p, maxTries).TooManyAttempts? || MissReason(attempts, p, maxTries).InvalidCode?
  {
    ExhaustedAmong(attempts, places, |places|, maxTries);
    if a :| a in attempts && p(a) && a.codeHash.Some? && a.tries + 1 >= maxTries {
      var i :| 0 <= i < |attempts| && attempts[i] == a;
      var n :| 0 <= n < |places| && places[n] == i;
      assert Exhausts(attempts[places[n]], maxTries);
    }
    if n :| 0 <= n < |places| && Exhausts(attempts[places[n]], maxTries) {
      assert attempts[places[n]] in attempts;
    }
  }

  lemma NoCandidates(attempts: seq<Attempt>, p: Attempt -> bool, codeHash: string, maxTries: int)
    requires forall i :: 0 <= i < |attempts| ==> !p(attempts[i])
    ensures FirstWith(attempts, p, codeHash) == |attempts|
    ensures MissAll(attempts, p, maxTries) == attempts && MissReason(attempts, p, maxTries) == InvalidCode
  {
    hide First, FirstWith;
    var i := FirstWith(attempts, p, codeHash);
    assert forall a :: a in attempts ==> !p(a);
  }

  lemma LinkFailureKeeps(env: Env, attempts: seq<Attempt>, token: string, app: int, kind: Kind, now: int)
    ensures ConsumeLink(env, attempts, token, app, kind, now).result.Err? ==>
      ConsumeLink(env, attempts, token, app, kind, now).attempts == attempts
  {
  }
}
