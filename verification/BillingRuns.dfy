/** Every run of billing: what the mails, the metered hours and the charged cents
    add up to. */
module BillingRuns {
  import opened Outcomes
  import opened Billing

  // ------------------------------------------------------------------- steps

  datatype Step =
    | Open(t: Tenant)
    | Pay(t: Tenant, amount: int, ref: Option<string>)
    | Adjust(t: Tenant, amount: int)
    | MeterPass(t: Tenant, now: int, users: nat, bytes: nat, reply: Reply)
    | Form(t: Tenant, settings: Settings)
    | SaveCard(t: Tenant, customer: Option<string>, card: string)
    | RemoveCard(t: Tenant)

  function Kept(b: Books, r: Result<Books, BillingError>): Books {
    if r.Ok? then r.value else b
  }

  /** One call; all but `Open` find no account, and do nothing, before it. */
  ghost function Apply(c: Config, b: Books, step: Step): Books
    requires Balanced(b)
  {
    if step.Open? then GetOrCreate(c, b, step.t)
    else if step.t !in b.accounts then b
    else
      match step
      case Pay(t, amount, ref) => Kept(b, Credit(b, t, amount, TopUp, ref))
      case Adjust(t, amount) =>
        if amount > 0 then Kept(b, Credit(b, t, amount, Adjustment, None))
        else Kept(b, Charge(b, t, -amount, Adjustment))
      case MeterPass(t, now, users, bytes, reply) => Meter(c, b, t, now, users, bytes, reply)
      case Form(t, settings) => Configure(b, t, settings)
      case SaveCard(t, customer, card) => AttachCard(b, t, customer, card)
      case RemoveCard(t) => DetachCard(b, t)
  }

  lemma OpenBalances(c: Config, b: Books, t: Tenant)
    requires Balanced(b)
    ensures Balanced(GetOrCreate(c, b, t))
  {
    hide Sum, Chained, RefsDistinct;
    if t !in b.accounts {
      CreditBalances(b.(accounts := b.accounts[t := NewAccount()]), t, c.welcome, Grant, None);
    }
  }

  lemma StepBalances(c: Config, b: Books, step: Step)
    requires Balanced(b)
    ensures Balanced(Apply(c, b, step))
  {
    if step.t in b.accounts {
      SaneAt(b, step.t);
    }
    hide Balanced, Sum, Credit, Charge, Meter;
    if step.Open? {
      OpenBalances(c, b, step.t);
    } else if step.t in b.accounts {
      var a := b.accounts[step.t];
      match step
      case Pay(t, amount, ref) =>
        if Credit(b, t, amount, TopUp, ref).Ok? { CreditBalances(b, t, amount, TopUp, ref); }
      case Adjust(t, amount) =>
        if amount > 0 {
          if Credit(b, t, amount, Adjustment, None).Ok? { CreditBalances(b, t, amount, Adjustment, None); }
        } else if Charge(b, t, -amount, Adjustment).Ok? {
          ChargeBalances(b, t, -amount, Adjustment);
        }
      case MeterPass(t, now, users, bytes, reply) => MeterBalances(c, b, t, now, users, bytes, reply);
      case Form(t, settings) => SetBalances(b, t, Configure(b, t, settings).accounts[t], b.log);
      case SaveCard(t, customer, card) =>
        SetBalances(b, t, a.(customer := customer, card := Some(card), reloadFailedAt := None), b.log + [CardChanged(t)]);
      case RemoveCard(t) =>
        SetBalances(b, t, a.(customer := None, card := None, reloadFailedAt := None), b.log + [CardChanged(t)]);
    }
  }

  const NOTHING := Books(map[], [], [])

  lemma NothingBalances()
    ensures Balanced(NOTHING)
  {
  }

  /** The books after some calls. */
  ghost function Run(c: Config, steps: seq<Step>): (b: Books)
    ensures Balanced(b)
  {
    hide Balanced, Apply;
    if steps == [] then
      NothingBalances();
      NOTHING
    else
      var before, last := Run(c, steps[..|steps| - 1]), steps[|steps| - 1];
      StepBalances(c, before, last);
      Apply(c, before, last)
  }

  // --------------------------------------------------------- what a log tells

  /** What the events of one tenant add up to. */
  datatype View = View(warned: bool, failedAt: Option<int>, start: Option<int>, hours: real, due: real, passes: nat, apart: bool)

  const BLANK := View(false, None, None, 0.0, 0.0, 0, true)

  function See(v: View, e: Event): View {
    match e
    case Credited(_) => v.(warned := false, failedAt := None)
    case CardChanged(_) => v.(failedAt := None)
    case Started(_, at) => v.(start := Some(at))
    case Passed(_, hours, cost) => v.(hours := v.hours + hours, due := v.due + Due(hours, cost), passes := v.passes + 1)
    case ReloadFailed(_, at) =>
      v.(failedAt := Some(at), apart := v.apart && (v.failedAt.Some? ==> at >= v.failedAt.value + 86400000000))
    case PauseMailed(_) => v
    case Warned(_) => v.(warned := true, apart := v.apart && !v.warned)
  }

  function ViewOf(log: seq<Event>, t: Tenant): View {
    if log == [] then BLANK
    else
      var v, e := ViewOf(log[..|log| - 1], t), log[|log| - 1];
      if e.tenant == t then See(v, e) else v
  }

  lemma ViewAppend(log: seq<Event>, e: Event, t: Tenant)
    ensures ViewOf(log + [e], t) == if e.tenant == t then See(ViewOf(log, t), e) else ViewOf(log, t)
  {
    assert (log + [e])[..|log|] == log;
  }

  /** The cents charged for usage. */
  function MeteredCents(ledger: seq<Entry>, t: Tenant): int {
    if ledger == [] then 0
    else
      var e := ledger[|ledger| - 1];
      MeteredCents(ledger[..|ledger| - 1], t) - if e.tenant == t && e.kind.Metered? then e.amount else 0
  }

  lemma MeteredAppend(ledger: seq<Entry>, e: Entry, t: Tenant)
    ensures MeteredCents(ledger + [e], t) == MeteredCents(ledger, t) - if e.tenant == t && e.kind.Metered? then e.amount else 0
  {
    assert (ledger + [e])[..|ledger|] == ledger;
  }

  /** Charged and carried cents against the cents due: off by half a millionth of
      a cent for each pass at most. */
  predicate NearlyExact(accrued: real, metered: int, due: real, passes: nat) {
    var off := accrued + metered as real - due;
    -(passes as real) * 0.0000005 <= off <= passes as real * 0.0000005
  }

  /** What an account says of its passes and mails agrees with its tenant's events
      and entries. */
  predicate AgreesOn(accrued: real, last: Option<int>, warnedAt: Option<int>, failedAt: Option<int>, v: View, metered: int) {
    && v.apart
    && (v.warned ==> warnedAt.Some?)
    && (v.failedAt.Some? ==> failedAt == v.failedAt)
    && (v.start.None? <==> last.None?)
    && (v.start.None? ==> v.passes == 0 && v.hours == 0.0)
    && (v.start.Some? && last.Some? ==>
          v.start.value <= last.value && v.hours * 3600000000.0 <= (last.value - v.start.value) as real)
    && NearlyExact(accrued, metered, v.due, v.passes)
  }

  /** The rest of the account plays no part. */
  predicate Agrees(a: Account, v: View, metered: int) {
    AgreesOn(a.accrued, a.lastMetered, a.warnedAt, a.reloadFailedAt, v, metered)
  }

  ghost predicate Tracked(b: Books) {
    && (forall t :: t in b.accounts ==> Agrees(b.accounts[t], ViewOf(b.log, t), MeteredCents(b.ledger, t)))
    && (forall t :: t !in b.accounts ==> ViewOf(b.log, t) == BLANK && MeteredCents(b.ledger, t) == 0)
  }

  /** The account, with at most one entry and one event of its tenant, written
      together. */
  function Post(b: Books, t: Tenant, a: Account, entry: Option<Entry>, event: Option<Event>): Books {
    Books(b.accounts[t := a],
          if entry.Some? then b.ledger + [entry.value] else b.ledger,
          if event.Some? then b.log + [event.value] else b.log)
  }

  function PostedView(v: View, event: Option<Event>): View {
    if event.Some? then See(v, event.value) else v
  }

  function PostedCents(metered: int, entry: Option<Entry>): int {
    if entry.Some? && entry.value.kind.Metered? then metered - entry.value.amount else metered
  }

  lemma PostTracked(b: Books, t: Tenant, a: Account, entry: Option<Entry>, event: Option<Event>)
    requires Tracked(b)
    requires entry.Some? ==> entry.value.tenant == t
    requires event.Some? ==> event.value.tenant == t
    requires Agrees(a, PostedView(ViewOf(b.log, t), event), PostedCents(MeteredCents(b.ledger, t), entry))
    ensures Tracked(Post(b, t, a, entry, event))
  {
    hide Agrees, ViewOf, MeteredCents, See;
    forall u
      ensures entry.Some? ==>
        MeteredCents(b.ledger + [entry.value], u)
        == if u == t then PostedCents(MeteredCents(b.ledger, u), entry) else MeteredCents(b.ledger, u)
      ensures event.Some? ==>
        ViewOf(b.log + [event.value], u) == if u == t then PostedView(ViewOf(b.log, u), event) else ViewOf(b.log, u)
    {
      if entry.Some? {
        MeteredAppend(b.ledger, entry.value, u);
      }
      if event.Some? {
        ViewAppend(b.log, event.value, u);
      }
    }
  }

  lemma CreditTracked(b: Books, t: Tenant, amount: int, kind: Kind, ref: Option<string>)
    requires Tracked(b) && t in b.accounts && Credit(b, t, amount, kind, ref).Ok? && !kind.Metered?
    ensures Tracked(Credit(b, t, amount, kind, ref).value)
  {
    hide Tracked, ViewOf, MeteredCents, RefUsed, NearlyExact;
    AgreesAt(b, t);
    if !(ref.Some? && RefUsed(b.ledger, ref.value)) {
      var b' := Credit(b, t, amount, kind, ref).value;
      PostTracked(b, t, b'.accounts[t], Some(Entry(t, kind, amount, b.accounts[t].balance + amount, ref)), Some(Credited(t)));
    }
  }

  lemma AgreesAt(b: Books, t: Tenant)
    requires Tracked(b) && t in b.accounts
    ensures Agrees(b.accounts[t], ViewOf(b.log, t), MeteredCents(b.ledger, t))
  {
  }

  lemma OpenTracked(c: Config, b: Books, t: Tenant)
    requires Tracked(b)
    ensures Tracked(GetOrCreate(c, b, t))
  {
    hide ViewOf, MeteredCents;
    if t !in b.accounts {
      var b0 := b.(accounts := b.accounts[t := NewAccount()]);
      CreditTracked(b0, t, c.welcome, Grant, None);
    }
  }

  /** The cents a pass charges, the event it leaves, and the account after it. */
  function PassCents(a: Account, now: int, cost: real): (cents: int)
    requires a.lastMetered.Some? && a.accrued >= 0.0 && cost >= 0.0
    ensures cents >= 0
  {
    Whole(a.accrued, Due(Hours(a.lastMetered.value, now), cost))
  }

  function PassEvent(a: Account, t: Tenant, now: int, cost: real): (e: Event)
    requires a.lastMetered.Some?
    ensures e.tenant == t
  {
    Passed(t, Hours(a.lastMetered.value, now), cost)
  }

  function AfterPass(a: Account, now: int, cost: real): Account
    requires a.lastMetered.Some? && a.accrued >= 0.0 && cost >= 0.0
  {
    Metering(a, now, cost).(lastMetered := Some(Later(now, a.lastMetered.value)), balance := a.balance - PassCents(a, now, cost))
  }

  function PassEntry(a: Account, t: Tenant, cents: int): Option<Entry> {
    if cents >= 1 then Some(Entry(t, Metered, 0 - cents, a.balance - cents, None)) else None
  }

  lemma PassAgrees(a: Account, v: View, metered: int, t: Tenant, now: int, cost: real)
    requires Agrees(a, v, metered) && a.lastMetered.Some? && a.accrued >= 0.0 && cost >= 0.0
    ensures Agrees(AfterPass(a, now, cost), See(v, PassEvent(a, t, now, cost)), metered + PassCents(a, now, cost))
  {
    hide Due, Hours, Stored;
  }

  /** A pass writes its entry, its event and the account together. */
  lemma AccrueIsPost(b: Books, t: Tenant, now: int, cost: real)
    requires t in b.accounts && b.accounts[t].lastMetered.Some? && b.accounts[t].accrued >= 0.0 && cost >= 0.0
    ensures
      var a := b.accounts[t];
      Accrue(b, t, now, cost)
      == Post(b, t, AfterPass(a, now, cost), PassEntry(a, t, PassCents(a, now, cost)), Some(PassEvent(a, t, now, cost)))
  {
    hide Hours, Due, Whole, Carried;
  }

  lemma AccrueTracked(b: Books, t: Tenant, now: int, cost: real)
    requires Tracked(b) && t in b.accounts && b.accounts[t].lastMetered.Some? && b.accounts[t].accrued >= 0.0 && cost >= 0.0
    ensures Tracked(Accrue(b, t, now, cost))
  {
    AgreesAt(b, t);
    AccrueIsPost(b, t, now, cost);
    hide Tracked, ViewOf, MeteredCents, Agrees, Accrue, Post, See, AfterPass, PassEvent, PassCents, PassEntry;
    var a := b.accounts[t];
    PassAgrees(a, ViewOf(b.log, t), MeteredCents(b.ledger, t), t, now, cost);
    PassTracked(b, t, a, AfterPass(a, now, cost), PassCents(a, now, cost), PassEvent(a, t, now, cost));
  }

  lemma PassTracked(b: Books, t: Tenant, a: Account, after: Account, cents: int, event: Event)
    requires Tracked(b) && event.tenant == t && cents >= 0
    requires Agrees(after, See(ViewOf(b.log, t), event), MeteredCents(b.ledger, t) + cents)
    ensures Tracked(Post(b, t, after, PassEntry(a, t, cents), Some(event)))
  {
    hide Tracked, ViewOf, MeteredCents, Agrees, See, Post;
    PostTracked(b, t, after, PassEntry(a, t, cents), Some(event));
  }

  lemma ReloadTracked(c: Config, b: Books, t: Tenant, now: int, reply: Reply)
    requires Tracked(b) && t in b.accounts
    ensures Tracked(Reload(c, b, t, now, reply))
  {
    AgreesAt(b, t);
    hide Tracked, ViewOf, MeteredCents, RefUsed, NearlyExact, Credit;
    var a := b.accounts[t];
    if ReloadDue(a, now) {
      if reply.Intent? && reply.id != "" && c.minTopUp <= a.reloadAmount <= c.maxTopUp {
        CreditWorks(b, t, a.reloadAmount, TopUp, reply.id);
        CreditTracked(b, t, a.reloadAmount, TopUp, Some(reply.id));
      } else {
        PostTracked(b, t, a.(reloadFailedAt := Some(now)), None, Some(ReloadFailed(t, now)));
      }
    }
  }

  lemma CreditWorks(b: Books, t: Tenant, amount: nat, kind: Kind, ref: string)
    requires t in b.accounts && ref != ""
    ensures Credit(b, t, amount, kind, Some(ref)).Ok?
  {
    hide RefUsed;
  }

  lemma PauseTracked(b: Books, t: Tenant, now: int)
    requires Tracked(b) && t in b.accounts
    ensures Tracked(Pause(b, t, now))
  {
    AgreesAt(b, t);
    hide Tracked, ViewOf, MeteredCents, AgreesOn;
    PostTracked(b, t, b.accounts[t].(paused := true, pausedAt := Some(now)), None, Some(PauseMailed(t)));
  }

  lemma WarnTracked(b: Books, t: Tenant, now: int)
    requires Tracked(b) && t in b.accounts
    ensures Tracked(Warn(b, t, now))
  {
    AgreesAt(b, t);
    hide Tracked, ViewOf, MeteredCents, NearlyExact;
    if b.accounts[t].warnedAt.None? {
      PostTracked(b, t, b.accounts[t].(warnedAt := Some(now)), None, Some(Warned(t)));
    }
  }

  lemma MeterTracked(c: Config, b: Books, t: Tenant, now: int, users: nat, bytes: nat, reply: Reply)
    requires Tracked(b) && t in b.accounts && b.accounts[t].accrued >= 0.0
    ensures Tracked(Meter(c, b, t, now, users, bytes, reply))
  {
    AgreesAt(b, t);
    hide Tracked, ViewOf, MeteredCents, NearlyExact, Accrue, Reload, Pause, Warn, MonthlyCost;
    if c.enabled {
      var a := b.accounts[t];
      if a.lastMetered.None? {
        PostTracked(b, t, a.(lastMetered := Some(now)), None, Some(Started(t, now)));
      } else {
        hide Agrees;
        var cost := MonthlyCost(c, users, bytes);
        AccrueTracked(b, t, now, cost);
        var b1 := Accrue(b, t, now, cost);
        ReloadTracked(c, b1, t, now, reply);
        PauseTracked(Reload(c, b1, t, now, reply), t, now);
        WarnTracked(Pause(Reload(c, b1, t, now, reply), t, now), t, now);
      }
    }
  }

  lemma SetTracked(b: Books, t: Tenant, a: Account, event: Option<Event>)
    requires Tracked(b) && t in b.accounts
    requires a.accrued == b.accounts[t].accrued && a.lastMetered == b.accounts[t].lastMetered && a.warnedAt == b.accounts[t].warnedAt
    requires if event.Some? then event == Some(CardChanged(t)) else a.reloadFailedAt == b.accounts[t].reloadFailedAt
    ensures Tracked(Post(b, t, a, None, event))
  {
    AgreesAt(b, t);
    hide Tracked, ViewOf, MeteredCents, NearlyExact;
    PostTracked(b, t, a, None, event);
  }

  lemma StepTracked(c: Config, b: Books, step: Step)
    requires Balanced(b) && Tracked(b)
    ensures Tracked(Apply(c, b, step))
  {
    if step.t in b.accounts {
      SaneAt(b, step.t);
    }
    hide Balanced, Tracked, ViewOf, MeteredCents, RefUsed, Meter, Credit;
    if step.Open? {
      OpenTracked(c, b, step.t);
    } else if step.t in b.accounts {
      var a := b.accounts[step.t];
      match step
      case Pay(t, amount, ref) =>
        if Credit(b, t, amount, TopUp, ref).Ok? { CreditTracked(b, t, amount, TopUp, ref); }
      case Adjust(t, amount) =>
        if amount > 0 {
          if Credit(b, t, amount, Adjustment, None).Ok? { CreditTracked(b, t, amount, Adjustment, None); }
        } else {
          AdjustTracked(b, t, -amount);
        }
      case MeterPass(t, now, users, bytes, reply) => MeterTracked(c, b, t, now, users, bytes, reply);
      case Form(t, settings) => SetTracked(b, t, Configure(b, t, settings).accounts[t], None);
      case SaveCard(t, customer, card) =>
        SetTracked(b, t, a.(customer := customer, card := Some(card), reloadFailedAt := None), Some(CardChanged(t)));
      case RemoveCard(t) =>
        SetTracked(b, t, a.(customer := None, card := None, reloadFailedAt := None), Some(CardChanged(t)));
    }
  }

  lemma AdjustTracked(b: Books, t: Tenant, amount: int)
    requires amount >= 0 && Tracked(b) && t in b.accounts
    ensures Tracked(Charge(b, t, amount, Adjustment).value)
  {
    AgreesAt(b, t);
    hide Tracked, ViewOf, MeteredCents, AgreesOn, See;
    var a := b.accounts[t];
    var a' := a.(balance := a.balance - amount);
    PostTracked(b, t, a', Some(Entry(t, Adjustment, 0 - amount, a'.balance, None)), None);
  }

  /** After every run the accounts agree with what was mailed and metered. */
  lemma {:induction false} RunTracked(c: Config, steps: seq<Step>)
    ensures Tracked(Run(c, steps))
  {
    hide Balanced, Tracked, Apply;
    if steps == [] {
      NothingTracked();
    } else {
      RunTracked(c, steps[..|steps| - 1]);
      StepTracked(c, Run(c, steps[..|steps| - 1]), steps[|steps| - 1]);
    }
  }

  lemma NothingTracked()
    ensures Tracked(NOTHING)
  {
  }

  // ------------------------------------------------------- what follows for a log

  /** Between two low-balance warnings of a tenant lies a credit. */
  lemma WarningsSeparated(c: Config, steps: seq<Step>, i: nat, j: nat, t: Tenant)
    requires i < j < |Run(c, steps).log|
    requires Run(c, steps).log[i] == Warned(t) && Run(c, steps).log[j] == Warned(t)
    ensures exists m :: i < m < j && Run(c, steps).log[m] == Credited(t)
  {
    hide Run, ViewOf, Tracked;
    var log := Run(c, steps).log;
    RunTracked(c, steps);
    ApartThroughout(Run(c, steps), t);
    ApartBefore(log, j + 1, t);
    ViewAt(log, j, t);
    if forall m :: i < m < j ==> log[m] != Credited(t) {
      ViewAt(log, i, t);
      StaysWarned(log, i + 1, j, t);
      assert false;
    }
  }

  lemma ApartThroughout(b: Books, t: Tenant)
    requires Tracked(b)
    ensures ViewOf(b.log, t).apart
  {
    hide ViewOf, MeteredCents, NearlyExact;
  }

  lemma ViewAt(log: seq<Event>, k: nat, t: Tenant)
    requires k < |log|
    ensures ViewOf(log[..k + 1], t) == if log[k].tenant == t then See(ViewOf(log[..k], t), log[k]) else ViewOf(log[..k], t)
  {
    hide ViewOf, See;
    assert log[..k + 1] == log[..k] + [log[k]];
    ViewAppend(log[..k], log[k], t);
  }

  lemma {:induction false} ApartBefore(log: seq<Event>, k: nat, t: Tenant)
    requires k <= |log| && ViewOf(log, t).apart
    ensures ViewOf(log[..k], t).apart
    decreases |log| - k
  {
    hide ViewOf;
    if k == |log| {
      assert log[..k] == log;
    } else {
      ApartBefore(log, k + 1, t);
      ViewAt(log, k, t);
    }
  }

  lemma {:induction false} StaysWarned(log: seq<Event>, lo: nat, hi: nat, t: Tenant)
    requires lo <= hi <= |log| && ViewOf(log[..lo], t).warned
    requires forall m :: lo <= m < hi ==> log[m] != Credited(t)
    ensures ViewOf(log[..hi], t).warned
    decreases hi
  {
    hide ViewOf;
    if lo < hi {
      StaysWarned(log, lo, hi - 1, t);
      ViewAt(log, hi - 1, t);
    }
  }

  /** Two failed reloads of a tenant with no credit and no change of card between
      them are at least 24 hours apart. */
  lemma FailedReloadsApart(c: Config, steps: seq<Step>, i: nat, j: nat, t: Tenant)
    requires i < j < |Run(c, steps).log|
    requires Run(c, steps).log[i].ReloadFailed? && Run(c, steps).log[i].tenant == t
    requires Run(c, steps).log[j].ReloadFailed? && Run(c, steps).log[j].tenant == t
    requires forall m :: i < m < j ==> Run(c, steps).log[m] != Credited(t) && Run(c, steps).log[m] != CardChanged(t)
    ensures Run(c, steps).log[j].at >= Run(c, steps).log[i].at + 86400000000
  {
    hide Run, ViewOf, Tracked;
    var log := Run(c, steps).log;
    RunTracked(c, steps);
    ApartThroughout(Run(c, steps), t);
    ViewAt(log, i, t);
    StaysFailed(log, i + 1, j, t, log[i].at);
    ApartBefore(log, j + 1, t);
    ViewAt(log, j, t);
  }

  lemma {:induction false} StaysFailed(log: seq<Event>, lo: nat, hi: nat, t: Tenant, at: int)
    requires lo <= hi <= |log| && ViewOf(log, t).apart
    requires ViewOf(log[..lo], t).failedAt.Some? && ViewOf(log[..lo], t).failedAt.value >= at
    requires forall m :: lo <= m < hi ==> log[m] != Credited(t) && log[m] != CardChanged(t)
    ensures ViewOf(log[..hi], t).failedAt.Some? && ViewOf(log[..hi], t).failedAt.value >= at
    decreases hi
  {
    hide ViewOf;
    if lo < hi {
      StaysFailed(log, lo, hi - 1, t, at);
      ViewAt(log, hi - 1, t);
      ApartBefore(log, hi, t);
    }
  }

  /** Metered charges and the carried fraction add up to the cents due for all
      metered hours, within half a millionth of a cent for each pass; the carried
      fraction lies between 0 and 1, both included; and the metered hours are no
      more than the time they span. */
  lemma MeteringAddsUp(c: Config, steps: seq<Step>, t: Tenant)
    requires t in Run(c, steps).accounts
    ensures
      var b := Run(c, steps);
      var a, v := b.accounts[t], ViewOf(b.log, t);
      && 0.0 <= a.accrued <= 1.0
      && NearlyExact(a.accrued, MeteredCents(b.ledger, t), v.due, v.passes)
      && (v.start.Some? && a.lastMetered.Some? ==>
            v.hours * 3600000000.0 <= (a.lastMetered.value - v.start.value) as real)
  {
    RunTracked(c, steps);
    SaneAt(Run(c, steps), t);
    hide Run, ViewOf, MeteredCents, NearlyExact;
  }

  /** After every run the balance is the sum of the ledger, and a paused account
      is in debt. */
  lemma BalanceIsLedger(c: Config, steps: seq<Step>, t: Tenant)
    requires t in Run(c, steps).accounts
    ensures
      var b := Run(c, steps);
      && b.accounts[t].balance == Sum(b.ledger, t)
      && (b.accounts[t].paused ==> b.accounts[t].balance < 0)
      && Chained(b.ledger) && RefsDistinct(b.ledger)
  {
    var b := Run(c, steps);
    hide Run, Sum, Chained, RefsDistinct;
    SaneAt(b, t);
  }

  ghost predicate LastKept(b: Books, b': Books, t: Tenant)
    requires t in b.accounts
  {
    && t in b'.accounts
    && (b.accounts[t].lastMetered.Some? ==>
          b'.accounts[t].lastMetered.Some? && b'.accounts[t].lastMetered.value >= b.accounts[t].lastMetered.value)
  }

  lemma LedgerKeepsLast(b: Books, t: Tenant, amount: int, kind: Kind, ref: Option<string>, u: Tenant)
    requires t in b.accounts && u in b.accounts
    ensures LastKept(b, Kept(b, Credit(b, t, amount, kind, ref)), u)
    ensures LastKept(b, Kept(b, Charge(b, t, amount, kind)), u)
  {
    hide RefUsed;
  }

  lemma MeterKeepsLast(c: Config, b: Books, t: Tenant, now: int, users: nat, bytes: nat, reply: Reply, u: Tenant)
    requires t in b.accounts && u in b.accounts && b.accounts[t].accrued >= 0.0
    ensures LastKept(b, Meter(c, b, t, now, users, bytes, reply), u)
  {
    hide RefUsed, Hours, Due, Whole, Carried, MonthlyCost, Reload, Pause, Warn, Accrue;
    if c.enabled && b.accounts[t].lastMetered.Some? {
      var cost := MonthlyCost(c, users, bytes);
      AccrueIsPost(b, t, now, cost);
      var b1 := Accrue(b, t, now, cost);
      ReloadKeepsLast(c, b1, t, now, reply, u);
      var b2 := Reload(c, b1, t, now, reply);
      PauseWarnKeepsLast(b2, t, now, u);
    }
  }

  lemma ReloadKeepsLast(c: Config, b: Books, t: Tenant, now: int, reply: Reply, u: Tenant)
    requires t in b.accounts && u in b.accounts
    ensures LastKept(b, Reload(c, b, t, now, reply), u)
  {
    hide RefUsed;
  }

  lemma PauseWarnKeepsLast(b: Books, t: Tenant, now: int, u: Tenant)
    requires t in b.accounts && u in b.accounts
    ensures LastKept(b, Warn(Pause(b, t, now), t, now), u)
  {
  }

  /** No call moves the time of the last pass back, whatever the clock says. */
  lemma LastPassNeverMovesBack(c: Config, b: Books, step: Step, t: Tenant)
    requires Balanced(b) && t in b.accounts
    ensures LastKept(b, Apply(c, b, step), t)
  {
    if step.t in b.accounts {
      SaneAt(b, step.t);
    }
    hide Balanced, Sum, Credit, Charge, Meter, GetOrCreate;
    if step.Open? {
      OpenKeepsLast(c, b, step.t, t);
    } else if step.t in b.accounts {
      match step
      case Pay(u, amount, ref) => LedgerKeepsLast(b, u, amount, TopUp, ref, t);
      case Adjust(u, amount) =>
        LedgerKeepsLast(b, u, amount, Adjustment, None, t);
        LedgerKeepsLast(b, u, -amount, Adjustment, None, t);
      case MeterPass(u, now, users, bytes, reply) => MeterKeepsLast(c, b, u, now, users, bytes, reply, t);
      case Form(_, _) =>
      case SaveCard(_, _, _) =>
      case RemoveCard(_) =>
    }
  }

  lemma OpenKeepsLast(c: Config, b: Books, t: Tenant, u: Tenant)
    requires u in b.accounts
    ensures LastKept(b, GetOrCreate(c, b, t), u)
  {
  }
}
