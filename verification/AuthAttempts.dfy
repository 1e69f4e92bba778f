/** One-time attempts: codes and links that are issued, guessed, revoked, and
    turned into at most one session each. */
module AuthAttempts {
  import opened Outcomes

  datatype Kind = SignUp | SignIn | VerifyEmail | AdminLogin

  datatype Status = Pending | Consumed | Expired | Revoked

  datatype Attempt = Attempt(app: int, kind: Kind, email: string, user: Option<int>, tokenHash: string,
                             codeHash: Option<string>, tries: nat, status: Status, expiresAt: int)

  datatype User = User(app: int, verified: bool)

  datatype Session = Session(app: int, user: int, attempt: nat)

  /** An attempt is known by its place. */
  datatype Store = Store(attempts: seq<Attempt>, users: map<int, User>, sessions: seq<Session>)

  /** Who makes a call: pages that show an error, or API routes that raise it. */
  datatype Caller = HostedPage | Dashboard | FrontendApi | AdminApi

  /** Hashing, how many wrong codes an attempt survives, and for which callers the
      writes of a call that fails are committed. */
  datatype Env = Env(hash: string -> string, maxTries: int, keeps: Caller -> bool)

  /** In the code, a caller that raises has its session rolled back; one that
      returns a page does not. */
  predicate ReturnsPage(c: Caller) { c.HostedPage? || c.Dashboard? }

  datatype Failure = InvalidCode | TooManyAttempts | InvalidToken | UserNotFound

  // -------------------------------------------------------------- single attempts

  function Update(attempts: seq<Attempt>, f: Attempt -> Attempt): (r: seq<Attempt>)
    ensures |r| == |attempts| && forall i :: 0 <= i < |r| ==> r[i] == f(attempts[i])
  {
    seq(|attempts|, i requires 0 <= i < |attempts| => f(attempts[i]))
  }

  predicate Addressed(a: Attempt, app: int, email: string, kind: Option<Kind>) {
    a.app == app && a.email == email && a.status.Pending? && (kind.Some? ==> a.kind == kind.value)
  }

  function Revoke(a: Attempt): Attempt { a.(status := Revoked) }

  function RevokePending(attempts: seq<Attempt>, app: int, email: string, kind: Option<Kind>): seq<Attempt> {
    Update(attempts, a => if Addressed(a, app, email, kind) then Revoke(a) else a)
  }

  /** A code was wrong for this attempt. */
  function Miss(a: Attempt, maxTries: int): Attempt {
    a.(tries := a.tries + 1, status := if a.tries + 1 >= maxTries then Revoked else a.status)
  }

  predicate Matches(a: Attempt, codeHash: string) { a.codeHash == Some(codeHash) }

  predicate CodeCandidate(a: Attempt, app: int, email: string, kinds: set<Kind>, now: int) {
    && a.app == app && a.email == email && a.status.Pending? && a.expiresAt > now
    && (kinds != {} ==> a.kind in kinds)
  }

  predicate AdminCandidate(a: Attempt, email: string, now: int) {
    a.kind.AdminLogin? && a.email == email && a.status.Pending? && a.expiresAt > now
  }

  predicate LinkCandidate(a: Attempt, tokenHash: string, app: int, kind: Kind, now: int) {
    a.tokenHash == tokenHash && a.app == app && a.status.Pending? && a.expiresAt > now && a.kind == kind
  }

  /** The place of the first attempt of which `p` holds, or how many there are. */
  function First(attempts: seq<Attempt>, p: Attempt -> bool): (i: nat)
    ensures i <= |attempts|
    ensures i < |attempts| ==> p(attempts[i])
    ensures forall j :: 0 <= j < i ==> !p(attempts[j])
  {
    if attempts == [] || p(attempts[0]) then 0 else 1 + First(attempts[1..], p)
  }

  /** The first candidate that was issued the code. */
  function FirstWith(attempts: seq<Attempt>, candidate: Attempt -> bool, codeHash: string): (i: nat)
    ensures i <= |attempts|
    ensures i < |attempts| ==> candidate(attempts[i]) && Matches(attempts[i], codeHash)
    ensures forall j :: 0 <= j < i ==> !(candidate(attempts[j]) && Matches(attempts[j], codeHash))
  {
    First(attempts, a => candidate(a) && Matches(a, codeHash))
  }

  function ConsumeAll(attempts: seq<Attempt>, candidate: Attempt -> bool, codeHash: string): seq<Attempt> {
    Update(attempts, a => if candidate(a) && Matches(a, codeHash) then a.(status := Consumed) else a)
  }

  function Consume(attempts: seq<Attempt>, i: nat): seq<Attempt>
    requires i < |attempts|
  {
    attempts[i := attempts[i].(status := Consumed)]
  }

  /** Every candidate with a code has been missed. */
  function MissAll(attempts: seq<Attempt>, candidate: Attempt -> bool, maxTries: int): seq<Attempt> {
    Update(attempts, a => if candidate(a) && a.codeHash.Some? then Miss(a, maxTries) else a)
  }

  function MissReason(attempts: seq<Attempt>, candidate: Attempt -> bool, maxTries: int): Failure {
    if exists a :: a in attempts && candidate(a) && a.codeHash.Some? && a.tries + 1 >= maxTries then TooManyAttempts
    else InvalidCode
  }

  datatype Consumption = Consumption(attempts: seq<Attempt>, result: Result<nat, Failure>)

  function ConsumeCode(env: Env, attempts: seq<Attempt>, app: int, email: string, kinds: set<Kind>, code: string, now: int): Consumption {
    var candidate := (a: Attempt) => CodeCandidate(a, app, email, kinds, now);
    var i := FirstWith(attempts, candidate, env.hash(code));
    if i < |attempts| then Consumption(Consume(attempts, i), Ok(i))
    else Consumption(MissAll(attempts, candidate, env.maxTries), Err(MissReason(attempts, candidate, env.maxTries)))
  }

  function ConsumeLink(env: Env, attempts: seq<Attempt>, token: string, app: int, kind: Kind, now: int): Consumption {
    var i := First(attempts, a => LinkCandidate(a, env.hash(token), app, kind, now));
    if i < |attempts| then Consumption(Consume(attempts, i), Ok(i)) else Consumption(attempts, Err(InvalidToken))
  }

  /** A link verifies an address or signs in. */
  function ConsumeEmailLink(env: Env, attempts: seq<Attempt>, token: string, app: int, now: int): Consumption {
    var verify := ConsumeLink(env, attempts, token, app, VerifyEmail, now);
    if verify.result.Ok? then verify else ConsumeLink(env, attempts, token, app, SignIn, now)
  }

  /** A login code of an administrator is shared by all the attempts it was issued
      for, and consumes them together. */
  function ConsumeAdmin(env: Env, attempts: seq<Attempt>, email: string, code: string, now: int): (seq<Attempt>, Result<(), Failure>) {
    var candidate := (a: Attempt) => AdminCandidate(a, email, now);
    if FirstWith(attempts, candidate, env.hash(code)) < |attempts| then (ConsumeAll(attempts, candidate, env.hash(code)), Ok(()))
    else (MissAll(attempts, candidate, env.maxTries), Err(MissReason(attempts, candidate, env.maxTries)))
  }

  // ------------------------------------------------------------------------ steps

  function Issue(env: Env, s: Store, app: int, email: string, kind: Kind, user: Option<int>, token: string,
                 code: Option<string>, expiresAt: int): Store {
    var codeHash := if code.Some? then Some(env.hash(code.value)) else None;
    s.(attempts := RevokePending(s.attempts, app, email, Some(kind))
                   + [Attempt(app, kind, email, user, env.hash(token), codeHash, 0, Pending, expiresAt)])
  }

  /** Turn a consumed attempt into a session of its own application. */
  function CompleteAttempt(s: Store, i: nat, app: int): (Store, Result<Session, Failure>)
    requires i < |s.attempts|
  {
    var a := s.attempts[i];
    if a.user.None? || a.user.value !in s.users then (s, Err(UserNotFound))
    else
      var u := s.users[a.user.value];
      if u.app != app then (s, Err(InvalidToken))
      else
        var session := Session(app, a.user.value, i);
        (Store(s.attempts, s.users[a.user.value := u.(verified := true)], s.sessions + [session]), Ok(session))
  }

  function SignInWith(s: Store, c: Consumption, app: int): (Store, Result<Session, Failure>)
    requires c.result.Ok? ==> c.result.value < |c.attempts|
  {
    var s' := s.(attempts := c.attempts);
    if c.result.Ok? then CompleteAttempt(s', c.result.value, app) else (s', Err(c.result.error))
  }

  datatype Step =
    | IssueStep(app: int, email: string, kind: Kind, user: Option<int>, token: string, code: Option<string>, expiresAt: int)
    | RevokeStep(app: int, email: string)
    | CodeStep(app: int, email: string, guess: string, now: int, caller: Caller)
    | LinkStep(app: int, token: string, now: int, caller: Caller)
    | AdminStep(email: string, guess: string, now: int, caller: Caller)

  /** The session that a code or a link opens, with the store as the call leaves it. */
  function SignInByCode(env: Env, s: Store, app: int, email: string, code: string, now: int): (Store, Result<Session, Failure>) {
    SignInWith(s, ConsumeCode(env, s.attempts, app, email, {VerifyEmail, SignIn}, code, now), app)
  }

  function SignInByLink(env: Env, s: Store, app: int, token: string, now: int): (Store, Result<Session, Failure>) {
    SignInWith(s, ConsumeEmailLink(env, s.attempts, token, app, now), app)
  }

  /** What a call itself writes. */
  function Call(env: Env, s: Store, step: Step): Store {
    match step
    case IssueStep(app, email, kind, user, token, code, expiresAt) => Issue(env, s, app, email, kind, user, token, code, expiresAt)
    case RevokeStep(app, email) => s.(attempts := RevokePending(s.attempts, app, email, None))
    case CodeStep(app, email, code, now, _) => SignInByCode(env, s, app, email, code, now).0
    case LinkStep(app, token, now, _) => SignInByLink(env, s, app, token, now).0
    case AdminStep(email, code, now, _) => s.(attempts := ConsumeAdmin(env, s.attempts, email, code, now).0)
  }

  /** The call ends in an error. */
  predicate Fails(env: Env, s: Store, step: Step) {
    match step
    case CodeStep(app, email, code, now, _) => SignInByCode(env, s, app, email, code, now).1.Err?
    case LinkStep(app, token, now, _) => SignInByLink(env, s, app, token, now).1.Err?
    case AdminStep(email, code, now, _) => ConsumeAdmin(env, s.attempts, email, code, now).1.Err?
    case _ => false
  }

  /** The writes of the call are rolled back. */
  predicate Undone(env: Env, s: Store, step: Step) {
    Fails(env, s, step) && (step.CodeStep? || step.LinkStep? || step.AdminStep?) && !env.keeps(step.caller)
  }

  /** The store after the caller's transaction has ended. */
  function Apply(env: Env, s: Store, step: Step): Store {
    if Undone(env, s, step) then s else Call(env, s, step)
  }

  // ------------------------------------------------------- what one step may change

  function Survives(maxTries: int): nat { if maxTries >= 1 then maxTries else 1 }

  /** An attempt keeps what it is; only a pending one changes at all, and then to
      consumed, to revoked, or by one more miss. */
  predicate Evolves(a: Attempt, b: Attempt, missed: bool) {
    && b == a.(status := b.status, tries := b.tries)
    && b.tries == (if missed then a.tries + 1 else a.tries)
    && (missed ==> a.status.Pending? && a.codeHash.Some?)
    && (b.status == a.status || (a.status.Pending? && (b.status.Consumed? || b.status.Revoked?)))
  }

  /** The step tests a wrong code on the attempt. */
  predicate Misses(env: Env, attempts: seq<Attempt>, step: Step, i: nat)
    requires i < |attempts|
  {
    match step
    case CodeStep(app, email, code, now, _) =>
      && ConsumeCode(env, attempts, app, email, {VerifyEmail, SignIn}, code, now).result.Err?
      && CodeCandidate(attempts[i], app, email, {VerifyEmail, SignIn}, now) && attempts[i].codeHash.Some?
    case AdminStep(email, code, now, _) =>
      && ConsumeAdmin(env, attempts, email, code, now).1.Err?
      && AdminCandidate(attempts[i], email, now) && attempts[i].codeHash.Some?
    case _ => false
  }

  lemma CodeEvolves(env: Env, s: Store, step: Step, i: nat)
    requires i < |s.attempts| && step.CodeStep?
    ensures i < |Call(env, s, step).attempts|
    ensures Evolves(s.attempts[i], Call(env, s, step).attempts[i], Misses(env, s.attempts, step, i))
  {
    hide First, FirstWith;
  }

  lemma AdminEvolves(env: Env, s: Store, step: Step, i: nat)
    requires i < |s.attempts| && step.AdminStep?
    ensures i < |Call(env, s, step).attempts|
    ensures Evolves(s.attempts[i], Call(env, s, step).attempts[i], Misses(env, s.attempts, step, i))
  {
    hide First, FirstWith;
  }

  lemma LinkEvolves(env: Env, s: Store, step: Step, i: nat)
    requires i < |s.attempts| && step.LinkStep?
    ensures i < |Call(env, s, step).attempts|
    ensures Evolves(s.attempts[i], Call(env, s, step).attempts[i], false)
  {
    hide First, FirstWith;
  }

  /** In every call an attempt evolves, and counts a miss exactly when a wrong code
      was tested on it. */
  lemma CallEvolves(env: Env, s: Store, step: Step, i: nat)
    requires i < |s.attempts|
    ensures i < |Call(env, s, step).attempts|
    ensures Evolves(s.attempts[i], Call(env, s, step).attempts[i], Misses(env, s.attempts, step, i))
  {
    match step
    case CodeStep(_, _, _, _, _) =>
      hide Call, Misses;
      CodeEvolves(env, s, step, i);
    case AdminStep(_, _, _, _) =>
      hide Call, Misses;
      AdminEvolves(env, s, step, i);
    case LinkStep(_, _, _, _) =>
      hide Call;
      LinkEvolves(env, s, step, i);
    case _ =>
  }

  // ----------------------------------------------------------------- what always holds

  ghost predicate TriesBounded(env: Env, attempts: seq<Attempt>) {
    forall i :: 0 <= i < |attempts| ==>
      && attempts[i].tries <= Survives(env.maxTries)
      && (attempts[i].status.Pending? ==> attempts[i].tries < Survives(env.maxTries))
  }

  ghost predicate OnePending(attempts: seq<Attempt>) {
    forall i, j :: 0 <= i < j < |attempts| && attempts[i].status.Pending? && attempts[j].status.Pending? ==>
      !(attempts[i].app == attempts[j].app && attempts[i].email == attempts[j].email && attempts[i].kind == attempts[j].kind)
  }

  ghost predicate TokensDistinct(attempts: seq<Attempt>) {
    forall i, j :: 0 <= i < j < |attempts| ==> attempts[i].tokenHash != attempts[j].tokenHash
  }

  predicate SessionOf(s: Store, session: Session) {
    && session.attempt < |s.attempts|
    && var a := s.attempts[session.attempt];
       && a.status.Consumed? && a.app == session.app && a.user == Some(session.user)
       && session.user in s.users && s.users[session.user].app == session.app
  }

  /** Each session comes from its own consumed attempt, in that attempt's
      application, which is also the user's. */
  ghost predicate SessionsEarned(s: Store) {
    && (forall k :: 0 <= k < |s.sessions| ==> SessionOf(s, s.sessions[k]))
    && (forall k, m :: 0 <= k < m < |s.sessions| ==> s.sessions[k].attempt != s.sessions[m].attempt)
  }

  ghost predicate Sound(env: Env, s: Store) {
    TriesBounded(env, s.attempts) && OnePending(s.attempts) && TokensDistinct(s.attempts) && SessionsEarned(s)
  }

  /** A new token differs from all before. */
  ghost predicate Fresh(env: Env, s: Store, step: Step) {
    step.IssueStep? ==> forall a :: a in s.attempts ==> a.tokenHash != env.hash(step.token)
  }

  lemma IssueKeeps(env: Env, s: Store, step: Step)
    requires Sound(env, s) && step.IssueStep? && Fresh(env, s, step)
    ensures Sound(env, Call(env, s, step))
  {
  }

  /** Attempts before and after a step that issues nothing. */
  ghost predicate AllEvolve(env: Env, before: seq<Attempt>, after: seq<Attempt>) {
    |before| == |after|
    && forall i :: 0 <= i < |before| ==> Evolved(env, before[i], after[i])
  }

  predicate Evolved(env: Env, a: Attempt, b: Attempt) {
    Evolves(a, b, false) || (Evolves(a, b, true) && b == Miss(a, env.maxTries))
  }

  lemma MissesMiss(env: Env, s: Store, step: Step, i: nat)
    requires i < |s.attempts| && Misses(env, s.attempts, step, i)
    ensures |Call(env, s, step).attempts| == |s.attempts|
    ensures Call(env, s, step).attempts[i] == Miss(s.attempts[i], env.maxTries)
  {
    hide First, FirstWith, MissReason, Miss;
  }

  lemma CallSameLength(env: Env, s: Store, step: Step)
    ensures !step.IssueStep? ==> |Call(env, s, step).attempts| == |s.attempts|
    ensures step.IssueStep? ==> |Call(env, s, step).attempts| == |s.attempts| + 1
  {
    hide First, FirstWith, MissReason, Miss;
  }

  lemma CallAllEvolve(env: Env, s: Store, step: Step)
    requires !step.IssueStep?
    ensures AllEvolve(env, s.attempts, Call(env, s, step).attempts)
  {
    hide Call, Misses, Miss, Evolves;
    CallSameLength(env, s, step);
    forall i | 0 <= i < |s.attempts|
      ensures Evolved(env, s.attempts[i], Call(env, s, step).attempts[i])
    {
      CallEvolves(env, s, step, i);
      if Misses(env, s.attempts, step, i) {
        MissesMiss(env, s, step, i);
      }
    }
  }

  lemma EvolvedBounded(env: Env, before: seq<Attempt>, after: seq<Attempt>)
    requires AllEvolve(env, before, after) && TriesBounded(env, before)
    ensures TriesBounded(env, after)
  {
  }

  lemma EvolvedDistinct(env: Env, before: seq<Attempt>, after: seq<Attempt>)
    requires AllEvolve(env, before, after) && OnePending(before) && TokensDistinct(before)
    ensures OnePending(after) && TokensDistinct(after)
  {
    assert forall i :: 0 <= i < |before| ==>
      after[i] == before[i].(status := after[i].status, tries := after[i].tries) && (after[i].status.Pending? ==> before[i].status.Pending?);
  }

  /** Consumed attempts stay as they are, and with them the sessions. */
  lemma EvolvedSessions(env: Env, s: Store, after: seq<Attempt>)
    requires AllEvolve(env, s.attempts, after) && SessionsEarned(s)
    ensures SessionsEarned(s.(attempts := after))
  {
    forall k | 0 <= k < |s.sessions|
      ensures SessionOf(s.(attempts := after), s.sessions[k])
    {
      var i := s.sessions[k].attempt;
      assert SessionOf(s, s.sessions[k]);
      assert after[i] == s.attempts[i];
    }
  }

  /** The attempt a session is made from was pending just before. */
  ghost predicate JustConsumed(before: seq<Attempt>, c: Consumption, app: int) {
    && |c.attempts| == |before|
    && (c.result.Ok? ==>
          var i := c.result.value;
          i < |before| && before[i].status.Pending? && c.attempts[i].status.Consumed? && c.attempts[i].app == app)
  }

  lemma CodeConsumes(env: Env, attempts: seq<Attempt>, app: int, email: string, kinds: set<Kind>, code: string, now: int)
    ensures JustConsumed(attempts, ConsumeCode(env, attempts, app, email, kinds, code, now), app)
  {
    hide First, FirstWith, MissReason;
  }

  lemma LinkConsumes(env: Env, attempts: seq<Attempt>, token: string, app: int, now: int)
    ensures JustConsumed(attempts, ConsumeEmailLink(env, attempts, token, app, now), app)
  {
    hide First, FirstWith;
  }

  lemma SignInEarns(env: Env, s: Store, c: Consumption, app: int)
    requires SessionsEarned(s) && JustConsumed(s.attempts, c, app) && AllEvolve(env, s.attempts, c.attempts)
    ensures SessionsEarned(SignInWith(s, c, app).0)
    ensures SignInWith(s, c, app).0.attempts == c.attempts
  {
    EvolvedSessions(env, s, c.attempts);
    hide AllEvolve;
    if c.result.Ok? {
      forall k | 0 <= k < |s.sessions|
        ensures s.sessions[k].attempt != c.result.value
      {
        assert SessionOf(s, s.sessions[k]);
      }
    }
  }

  lemma SessionsKept(env: Env, s: Store, step: Step)
    requires SessionsEarned(s) && !step.IssueStep?
    ensures SessionsEarned(Call(env, s, step))
  {
    CallAllEvolve(env, s, step);
    hide SessionsEarned, AllEvolve, ConsumeCode, ConsumeEmailLink, JustConsumed;
    match step
    case CodeStep(app, email, code, now, _) =>
      var c := ConsumeCode(env, s.attempts, app, email, {VerifyEmail, SignIn}, code, now);
      CodeConsumes(env, s.attempts, app, email, {VerifyEmail, SignIn}, code, now);
      SignInAttempts(s, c, app);
      SignInEarns(env, s, c, app);
    case LinkStep(app, token, now, _) =>
      var c := ConsumeEmailLink(env, s.attempts, token, app, now);
      LinkConsumes(env, s.attempts, token, app, now);
      SignInAttempts(s, c, app);
      SignInEarns(env, s, c, app);
    case _ => EvolvedSessions(env, s, Call(env, s, step).attempts);
  }

  lemma SignInAttempts(s: Store, c: Consumption, app: int)
    requires JustConsumed(s.attempts, c, app)
    ensures c.result.Ok? ==> c.result.value < |c.attempts|
    ensures SignInWith(s, c, app).0.attempts == c.attempts
  {
  }

  lemma CallKeeps(env: Env, s: Store, step: Step)
    requires Sound(env, s) && Fresh(env, s, step)
    ensures Sound(env, Call(env, s, step))
  {
    if step.IssueStep? {
      IssueKeeps(env, s, step);
    } else {
      hide TriesBounded, OnePending, TokensDistinct, SessionsEarned, Call, AllEvolve;
      CallAllEvolve(env, s, step);
      EvolvedBounded(env, s.attempts, Call(env, s, step).attempts);
      EvolvedDistinct(env, s.attempts, Call(env, s, step).attempts);
      SessionsKept(env, s, step);
    }
  }

  /** A wrong code makes the call fail. */
  lemma MissFails(env: Env, s: Store, step: Step, i: nat)
    requires i < |s.attempts| && Misses(env, s.attempts, step, i)
    ensures Fails(env, s, step) && (step.CodeStep? || step.AdminStep?)
  {
    hide ConsumeCode, ConsumeAdmin, CodeCandidate, AdminCandidate;
  }

  /** The wrong code is counted: it was tested, and the caller's transaction stands. */
  predicate Counts(env: Env, s: Store, step: Step, i: nat)
    requires i < |s.attempts|
  {
    Misses(env, s.attempts, step, i) && (step.CodeStep? || step.AdminStep?) && env.keeps(step.caller)
  }

  /** In every step an attempt evolves, and counts a miss exactly when a wrong code
      was tested on it by a caller whose writes are kept. */
  lemma StepEvolves(env: Env, s: Store, step: Step, i: nat)
    requires i < |s.attempts|
    ensures i < |Apply(env, s, step).attempts|
    ensures Evolves(s.attempts[i], Apply(env, s, step).attempts[i], Counts(env, s, step, i))
  {
    hide Call, Misses, Fails;
    CallEvolves(env, s, step, i);
    if Misses(env, s.attempts, step, i) {
      MissFails(env, s, step, i);
    }
  }

  lemma StepKeeps(env: Env, s: Store, step: Step)
    requires Sound(env, s) && Fresh(env, s, step)
    ensures Sound(env, Apply(env, s, step))
  {
    hide Sound, Fresh, Call, Fails;
    CallKeeps(env, s, step);
  }

  // ------------------------------------------------------------------------ every run

  ghost function Run(env: Env, s: Store, steps: seq<Step>): Store {
    if steps == [] then s else Apply(env, Run(env, s, steps[..|steps| - 1]), steps[|steps| - 1])
  }

  ghost predicate FreshRun(env: Env, s: Store, steps: seq<Step>) {
    steps == []
    || (FreshRun(env, s, steps[..|steps| - 1]) && Fresh(env, Run(env, s, steps[..|steps| - 1]), steps[|steps| - 1]))
  }

  lemma {:induction false} RunKeeps(env: Env, s: Store, steps: seq<Step>)
    requires Sound(env, s) && FreshRun(env, s, steps)
    ensures Sound(env, Run(env, s, steps))
  {
    hide Sound, Fresh, Apply;
    if steps != [] {
      RunKeeps(env, s, steps[..|steps| - 1]);
      StepKeeps(env, Run(env, s, steps[..|steps| - 1]), steps[|steps| - 1]);
    }
  }

  /** In every run each attempt yields one session at most, in its own application,
      and at most one attempt for an application, an address and a kind is pending. */
  lemma EveryRunIsSound(env: Env, users: map<int, User>, steps: seq<Step>)
    requires FreshRun(env, Store([], users, []), steps)
    ensures Sound(env, Run(env, Store([], users, []), steps))
  {
    hide Run, FreshRun;
    RunKeeps(env, Store([], users, []), steps);
  }

  // ------------------------------------------------------------- wrong codes of a run

  /** How many wrong codes of a run were tested on the attempt at place `i`. */
  ghost function Tested(env: Env, s: Store, steps: seq<Step>, i: nat): nat {
    if steps == [] then 0
    else
      var before, last := Run(env, s, steps[..|steps| - 1]), steps[|steps| - 1];
      Tested(env, s, steps[..|steps| - 1], i)
      + if i < |before.attempts| && Misses(env, before.attempts, last, i) then 1 else 0
  }

  /** Those among them whose call was rolled back. */
  ghost function Forgotten(env: Env, s: Store, steps: seq<Step>, i: nat): nat {
    if steps == [] then 0
    else
      var before, last := Run(env, s, steps[..|steps| - 1]), steps[|steps| - 1];
      Forgotten(env, s, steps[..|steps| - 1], i)
      + if i < |before.attempts| && Misses(env, before.attempts, last, i) && !Counts(env, before, last, i) then 1 else 0
  }

  /** The stored counter is the number of wrong codes tested, less those whose call
      was rolled back. */
  lemma {:induction false} TriesCountTested(env: Env, users: map<int, User>, steps: seq<Step>, i: nat)
    ensures
      var start := Store([], users, []);
      var s := Run(env, start, steps);
      Tested(env, start, steps, i) - Forgotten(env, start, steps, i) == StoredTries(s, i)
  {
    if steps != [] {
      var start, rest, last := Store([], users, []), steps[..|steps| - 1], steps[|steps| - 1];
      TriesCountTested(env, users, rest, i);
      TestedOnce(env, Run(env, start, rest), last, i);
      hide Misses, Counts, Apply, StoredTries;
    }
  }

  /** The counter stored for an attempt, once there is one. */
  function StoredTries(s: Store, i: nat): nat {
    if i < |s.attempts| then s.attempts[i].tries else 0
  }

  lemma TestedOnce(env: Env, s: Store, step: Step, i: nat)
    ensures
      var tested := i < |s.attempts| && Misses(env, s.attempts, step, i);
      StoredTries(Apply(env, s, step), i)
      == StoredTries(s, i) + (if tested then 1 else 0) - if tested && !Counts(env, s, step, i) then 1 else 0
  {
    NewAttemptIsUntried(env, s, step, i);
    hide Misses, Apply;
    if i < |s.attempts| {
      StepEvolves(env, s, step, i);
    }
  }

  lemma NewAttemptIsUntried(env: Env, s: Store, step: Step, i: nat)
    ensures i >= |s.attempts| && i < |Apply(env, s, step).attempts| ==> Apply(env, s, step).attempts[i].tries == 0
    ensures |Apply(env, s, step).attempts| >= |s.attempts|
  {
    CallSameLength(env, s, step);
    hide First, FirstWith, MissReason, Miss, Fails;
  }

  /** In every run no more wrong codes are tested on an attempt than are allowed and
      forgotten together, and fewer while it is pending. */
  lemma WrongCodesBounded(env: Env, users: map<int, User>, steps: seq<Step>, i: nat)
    requires FreshRun(env, Store([], users, []), steps)
    ensures
      var start := Store([], users, []);
      var s, tested, forgotten := Run(env, start, steps), Tested(env, start, steps, i), Forgotten(env, start, steps, i);
      && tested <= Survives(env.maxTries) + forgotten
      && (i < |s.attempts| && s.attempts[i].status.Pending? ==> tested < Survives(env.maxTries) + forgotten)
  {
    hide Run, Tested, Forgotten, FreshRun;
    EveryRunIsSound(env, users, steps);
    TriesCountTested(env, users, steps, i);
  }

  /** Nothing is forgotten when the writes of every caller are kept. */
  lemma {:induction false} NothingForgotten(env: Env, s: Store, steps: seq<Step>, i: nat)
    requires forall c: Caller :: env.keeps(c)
    ensures Forgotten(env, s, steps, i) == 0
  {
    if steps != [] {
      var before, last := Run(env, s, steps[..|steps| - 1]), steps[|steps| - 1];
      NothingForgotten(env, s, steps[..|steps| - 1], i);
      if i < |before.attempts| && Misses(env, before.attempts, last, i) {
        hide Misses;
        MissFails(env, before, last, i);
      }
    }
  }

  // ----------------------------------------------------- when the bound is kept exactly

  /** The calls that each caller makes. */
  predicate MadeBy(step: Step) {
    && (step.CodeStep? || step.LinkStep? ==> step.caller.HostedPage? || step.caller.FrontendApi?)
    && (step.AdminStep? ==> step.caller.Dashboard? || step.caller.AdminApi?)
  }

  /** In every run no attempt is tested with more wrong codes than it survives. */
  ghost predicate GuessesBounded(env: Env, users: map<int, User>) {
    forall steps: seq<Step>, i: nat ::
      FreshRun(env, Store([], users, []), steps) && (forall step :: step in steps ==> MadeBy(step)) ==>
        Tested(env, Store([], users, []), steps, i) <= Survives(env.maxTries)
  }

  /** Asking for a code, and then guessing wrongly `n` times. */
  function Guessing(caller: Caller, code: string, guess: string, n: nat): (steps: seq<Step>)
    ensures |steps| == n + 1
  {
    if n == 0 then
      [IssueStep(0, "a", if caller.HostedPage? || caller.FrontendApi? then SignIn else AdminLogin, None, "t", Some(code), 1)]
    else
      Guessing(caller, code, guess, n - 1)
      + [if caller.HostedPage? || caller.FrontendApi? then CodeStep(0, "a", guess, 0, caller) else AdminStep("a", guess, 0, caller)]
  }

  function Issued(env: Env, caller: Caller, code: string): Attempt {
    Attempt(0, if caller.HostedPage? || caller.FrontendApi? then SignIn else AdminLogin, "a", None, env.hash("t"),
            Some(env.hash(code)), 0, Pending, 1)
  }

  lemma GuessMisses(env: Env, users: map<int, User>, caller: Caller, code: string, guess: string, n: nat)
    requires n >= 1 && env.hash(guess) != env.hash(code)
    ensures
      var s, step := Store([Issued(env, caller, code)], users, []), Guessing(caller, code, guess, n)[n];
      Misses(env, s.attempts, step, 0) && Fresh(env, s, step) && MadeBy(step)
      && (step.CodeStep? || step.AdminStep?) && step.caller == caller
  {
    hide First, FirstWith, MissReason;
  }

  /** A caller whose writes are rolled back tests any number of wrong codes on an
      attempt, which stays pending and untried. */
  lemma {:induction false} RolledBackGuesses(env: Env, users: map<int, User>, caller: Caller, code: string, guess: string, n: nat)
    requires !env.keeps(caller) && env.hash(guess) != env.hash(code)
    ensures
      var start, steps := Store([], users, []), Guessing(caller, code, guess, n);
      && FreshRun(env, start, steps) && (forall step :: step in steps ==> MadeBy(step))
      && Run(env, start, steps) == Store([Issued(env, caller, code)], users, [])
      && Tested(env, start, steps, 0) == n
  {
    var start, steps := Store([], users, []), Guessing(caller, code, guess, n);
    if n == 0 {
      IssueFirst(env, users, caller, code, guess);
    } else {
      hide Misses, Fails, Call, Fresh, MadeBy;
      RolledBackGuesses(env, users, caller, code, guess, n - 1);
      var rest := steps[..|steps| - 1];
      assert rest == Guessing(caller, code, guess, n - 1);
      GuessMisses(env, users, caller, code, guess, n);
      MissFails(env, Run(env, start, rest), steps[n], 0);
    }
  }

  lemma IssueFirst(env: Env, users: map<int, User>, caller: Caller, code: string, guess: string)
    ensures
      var start, steps := Store([], users, []), Guessing(caller, code, guess, 0);
      && FreshRun(env, start, steps) && (forall step :: step in steps ==> MadeBy(step))
      && Run(env, start, steps) == Store([Issued(env, caller, code)], users, [])
      && Tested(env, start, steps, 0) == 0
  {
    var start, steps := Store([], users, []), Guessing(caller, code, guess, 0);
    assert steps[..0] == [];
    assert Run(env, start, []) == start && FreshRun(env, start, []);
    assert Fresh(env, start, steps[0]);
    assert RevokePending([], 0, "a", Some(steps[0].kind)) == [];
    assert Apply(env, start, steps[0]).attempts == [Issued(env, caller, code)];
  }

  /** Guesses are bounded in every run exactly when no caller's failing call is
      rolled back. */
  lemma GuessesBoundedExactly(env: Env, users: map<int, User>, code: string, guess: string)
    requires env.hash(guess) != env.hash(code)
    ensures GuessesBounded(env, users) <==> forall c: Caller :: env.keeps(c)
  {
    hide Run, FreshRun, Tested, MadeBy, Guessing;
    if forall c: Caller :: env.keeps(c) {
      forall steps: seq<Step>, i: nat | FreshRun(env, Store([], users, []), steps)
        ensures Tested(env, Store([], users, []), steps, i) <= Survives(env.maxTries)
      {
        WrongCodesBounded(env, users, steps, i);
        NothingForgotten(env, Store([], users, []), steps, i);
      }
    } else {
      var c: Caller :| !env.keeps(c);
      RolledBackGuesses(env, users, c, code, guess, Survives(env.maxTries) + 1);
      assert Tested(env, Store([], users, []), Guessing(c, code, guess, Survives(env.maxTries) + 1), 0) > Survives(env.maxTries);
    }
  }

  /** So they are not with the callers there are, of which two raise. */
  lemma RaisingCallersUnbounded(env: Env, users: map<int, User>, code: string, guess: string)
    requires env.hash(guess) != env.hash(code) && forall c: Caller :: env.keeps(c) <==> ReturnsPage(c)
    ensures !GuessesBounded(env, users)
  {
    hide GuessesBounded;
    GuessesBoundedExactly(env, users, code, guess);
    assert !env.keeps(FrontendApi);
  }

  /** Right after an issue exactly one attempt is pending for that application,
      address and kind: the new one. */
  lemma IssueLeavesOnePending(env: Env, s: Store, step: Step, i: nat)
    requires step.IssueStep? && i < |Apply(env, s, step).attempts|
    ensures
      var a := Apply(env, s, step).attempts[i];
      (a.status.Pending? && a.app == step.app && a.email == step.email && a.kind == step.kind)
      <==> i == |Apply(env, s, step).attempts| - 1
  {
  }

  // ------------------------------------------------------------- what opens a session

  /** A code signs in exactly when some candidate of that application and address
      was issued that code. */
  lemma CodeAccepted(env: Env, attempts: seq<Attempt>, app: int, email: string, kinds: set<Kind>, code: string, now: int)
    ensures ConsumeCode(env, attempts, app, email, kinds, code, now).result.Ok?
       <==> exists a :: a in attempts && CodeCandidate(a, app, email, kinds, now) && Matches(a, env.hash(code))
  {
    hide First, FirstWith, MissReason;
    var candidate := (a: Attempt) => CodeCandidate(a, app, email, kinds, now);
    var i := FirstWith(attempts, candidate, env.hash(code));
    if i < |attempts| {
      assert attempts[i] in attempts;
    }
  }

  /** A consumed attempt stays consumed. */
  lemma {:induction false} ConsumedStays(env: Env, s: Store, steps: seq<Step>, i: nat)
    requires i < |s.attempts| && s.attempts[i].status.Consumed?
    ensures i < |Run(env, s, steps).attempts|
    ensures Run(env, s, steps).attempts[i] == s.attempts[i]
  {
    if steps != [] {
      hide Apply, Counts;
      var rest := steps[..|steps| - 1];
      ConsumedStays(env, s, rest, i);
      StepEvolves(env, Run(env, s, rest), steps[|steps| - 1], i);
    }
  }

  /** The token of a consumed attempt opens nothing, in no application. */
  lemma SpentTokenRefused(env: Env, attempts: seq<Attempt>, i: nat, token: string, app: int, now: int)
    requires TokensDistinct(attempts) && i < |attempts| && attempts[i].status.Consumed? && attempts[i].tokenHash == env.hash(token)
    ensures ConsumeEmailLink(env, attempts, token, app, now).result.Err?
  {
    hide First, FirstWith;
    assert forall j :: 0 <= j < |attempts| && j != i ==> attempts[j].tokenHash != env.hash(token);
  }

  lemma LinkConsumesOwn(env: Env, attempts: seq<Attempt>, token: string, app: int, now: int)
    requires ConsumeEmailLink(env, attempts, token, app, now).result.Ok?
    ensures
      var c := ConsumeEmailLink(env, attempts, token, app, now);
      var i := c.result.value;
      && i < |attempts| == |c.attempts| && attempts[i].tokenHash == env.hash(token) && attempts[i].app == app
      && attempts[i].status.Pending? && c.attempts[i].status.Consumed? && c.attempts[i].tokenHash == env.hash(token)
  {
    hide First, FirstWith;
  }

  /** A link is consumed in its own application alone, and once its call stands, no
      call in any later run accepts it again. */
  lemma LinkOpensOnce(env: Env, s: Store, step: Step, steps: seq<Step>, app: int, now: int)
    requires Sound(env, s) && step.LinkStep? && !Undone(env, s, step)
    requires ConsumeEmailLink(env, s.attempts, step.token, step.app, step.now).result.Ok?
    requires FreshRun(env, Apply(env, s, step), steps)
    ensures
      var i := ConsumeEmailLink(env, s.attempts, step.token, step.app, step.now).result.value;
      i < |s.attempts| && s.attempts[i].app == step.app && s.attempts[i].status.Pending?
    ensures ConsumeEmailLink(env, Run(env, Apply(env, s, step), steps).attempts, step.token, app, now).result.Err?
  {
    hide Run, FreshRun, Sound, Fails, ConsumeEmailLink;
    var i := ConsumeEmailLink(env, s.attempts, step.token, step.app, step.now).result.value;
    LinkConsumesOwn(env, s.attempts, step.token, step.app, step.now);
    LinkConsumes(env, s.attempts, step.token, step.app, step.now);
    SignInAttempts(s, ConsumeEmailLink(env, s.attempts, step.token, step.app, step.now), step.app);
    var after := Apply(env, s, step);
    FreshLink(env, s, step);
    StepKeeps(env, s, step);
    RunKeeps(env, after, steps);
    ConsumedStays(env, after, steps, i);
    SoundTokens(env, Run(env, after, steps));
    SpentTokenRefused(env, Run(env, after, steps).attempts, i, step.token, app, now);
  }

  lemma FreshLink(env: Env, s: Store, step: Step)
    requires step.LinkStep?
    ensures Fresh(env, s, step)
  {
  }

  lemma SoundTokens(env: Env, s: Store)
    requires Sound(env, s)
    ensures TokensDistinct(s.attempts)
  {
    hide TriesBounded, OnePending, TokensDistinct, SessionsEarned;
  }
}
