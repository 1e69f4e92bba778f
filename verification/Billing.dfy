/** Prepaid billing: one account per tenant, an append-only ledger, hourly metering
    of fractional usage, automatic reload, pausing and warnings. */
module Billing {
  import opened Outcomes

  type Tenant = int

  /** Prices in cents; amounts allowed for a top-up. */
  datatype Config = Config(enabled: bool, welcome: nat, minTopUp: nat, maxTopUp: nat,
                           perThousandUsers: nat, perGigabyte: nat, includedBytes: nat)

  /** Times are in microseconds. */
  datatype Account = Account(
    balance: int, accrued: real, paused: bool, pausedAt: Option<int>, lastMetered: Option<int>,
    warnings: bool, lowThreshold: int, warnedAt: Option<int>,
    reload: bool, reloadThreshold: int, reloadAmount: int, reloadFailedAt: Option<int>,
    customer: Option<string>, card: Option<string>)

  datatype Kind = Grant | TopUp | Adjustment | Metered

  datatype Entry = Entry(tenant: Tenant, kind: Kind, amount: int, balanceAfter: int, ref: Option<string>)

  /** What happened, in order: the mails sent and the passes made. */
  datatype Event =
    | Credited(tenant: Tenant)
    | CardChanged(tenant: Tenant)
    | Started(tenant: Tenant, at: int)
    | Passed(tenant: Tenant, hours: real, cost: real)
    | ReloadFailed(tenant: Tenant, at: int)
    | PauseMailed(tenant: Tenant)
    | Warned(tenant: Tenant)

  datatype Books = Books(accounts: map<Tenant, Account>, ledger: seq<Entry>, log: seq<Event>)

  datatype BillingError = NegativeAmount | DuplicateReference

  // ------------------------------------------------------------------- amounts

  function MonthlyCost(c: Config, users: nat, bytes: nat): (cost: real)
    ensures cost >= 0.0
  {
    var extra := if bytes > c.includedBytes then bytes - c.includedBytes else 0;
    (users * c.perThousandUsers) as real / 1000.0 + (extra * c.perGigabyte) as real / 1073741824.0
  }

  /** A thousand users more, and a gigabyte more beyond the included storage, cost
      their price; included storage is free. */
  lemma MonthlyCostIsMarginal(c: Config, users: nat, bytes: nat)
    ensures MonthlyCost(c, users + 1000, bytes) == MonthlyCost(c, users, bytes) + c.perThousandUsers as real
    ensures bytes >= c.includedBytes ==>
      MonthlyCost(c, users, bytes + 1073741824) == MonthlyCost(c, users, bytes) + c.perGigabyte as real
    ensures bytes <= c.includedBytes ==> MonthlyCost(c, users, bytes) == MonthlyCost(c, users, 0)
    ensures MonthlyCost(c, 0, 0) == 0.0
  {
    assert (users + 1000) * c.perThousandUsers == users * c.perThousandUsers + 1000 * c.perThousandUsers;
    if bytes >= c.includedBytes {
      var extra := bytes - c.includedBytes;
      assert (extra + 1073741824) * c.perGigabyte == extra * c.perGigabyte + 1073741824 * c.perGigabyte;
    }
  }

  /** Hours to bill between two times: none when the clock went back, and 31 days
      at most. */
  function Hours(from: int, to: int): (h: real)
    ensures 0.0 <= h <= 744.0
    ensures from <= to ==> h * 3600000000.0 <= (to - from) as real
    ensures to <= from ==> h == 0.0
    ensures to - from >= 2678400000000 ==> h == 744.0
    ensures from <= to && to - from <= 2678400000000 ==> h * 3600000000.0 == (to - from) as real
  {
    var h := (to - from) as real / 3600000000.0;
    if h < 0.0 then 0.0 else if h > 744.0 then 744.0 else h
  }

  /** A stored accrual has six decimal places, rounded half up. */
  function Stored(x: real): (r: real)
    requires x >= 0.0
    ensures x - 0.0000005 <= r <= x + 0.0000005
    ensures r >= 0.0 && (x <= 1.0 ==> r <= 1.0)
  {
    (x * 1000000.0 + 0.5).Floor as real / 1000000.0
  }

  function Later(a: int, b: int): int { if a >= b then a else b }

  // ---------------------------------------------------------------- the ledger

  function Sum(ledger: seq<Entry>, t: Tenant): int {
    if ledger == [] then 0
    else
      var last := ledger[|ledger| - 1];
      Sum(ledger[..|ledger| - 1], t) + if last.tenant == t then last.amount else 0
  }

  lemma SumAppend(ledger: seq<Entry>, e: Entry, t: Tenant)
    ensures Sum(ledger + [e], t) == Sum(ledger, t) + if e.tenant == t then e.amount else 0
  {
    assert (ledger + [e])[..|ledger|] == ledger;
  }

  predicate RefUsed(ledger: seq<Entry>, ref: string) {
    exists e :: e in ledger && e.ref == Some(ref)
  }

  // ----------------------------------------------------------------- operations

  /** Add to the balance and end what a credit ends. */
  function Funded(a: Account, amount: int): Account {
    var balance := a.balance + amount;
    var unpause := a.paused && balance >= 0;
    a.(balance := balance, warnedAt := None, reloadFailedAt := None,
       paused := a.paused && !unpause, pausedAt := if unpause then None else a.pausedAt)
  }

  function Fund(b: Books, t: Tenant, amount: int, kind: Kind, ref: Option<string>): Books
    requires t in b.accounts
  {
    var a := Funded(b.accounts[t], amount);
    Books(b.accounts[t := a], b.ledger + [Entry(t, kind, amount, a.balance, ref)], b.log + [Credited(t)])
  }

  /** A positive entry; a provider reference that is already in the ledger changes
      nothing. */
  function Credit(b: Books, t: Tenant, amount: int, kind: Kind, ref: Option<string>): Result<Books, BillingError>
    requires t in b.accounts
  {
    if amount < 0 then Err(NegativeAmount)
    else if ref.Some? && RefUsed(b.ledger, ref.value) then
      if ref.value == "" then Err(DuplicateReference) else Ok(b)
    else Ok(Fund(b, t, amount, kind, ref))
  }

  function Charge(b: Books, t: Tenant, amount: int, kind: Kind): Result<Books, BillingError>
    requires t in b.accounts
  {
    if amount < 0 then Err(NegativeAmount)
    else
      var a := b.accounts[t];
      var a' := a.(balance := a.balance - amount);
      Ok(Books(b.accounts[t := a'], b.ledger + [Entry(t, kind, -amount, a'.balance, None)], b.log))
  }

  function NewAccount(): Account {
    Account(0, 0.0, false, None, None, true, 500, None, false, 500, 2000, None, None, None)
  }

  /** The account of a tenant, made on first use with the welcome credit. */
  function GetOrCreate(c: Config, b: Books, t: Tenant): (r: Books)
    ensures t in r.accounts
  {
    if t in b.accounts then b
    else Credit(b.(accounts := b.accounts[t := NewAccount()]), t, c.welcome, Grant, None).value
  }

  function SetAccount(b: Books, t: Tenant, a: Account): Books {
    b.(accounts := b.accounts[t := a])
  }

  function Note(b: Books, e: Event): Books { b.(log := b.log + [e]) }

  /** The cents that some hours cost, at a price for 720 hours. */
  function Due(hours: real, cost: real): (cents: real)
    ensures hours >= 0.0 && cost >= 0.0 ==> cents >= 0.0
  {
    cost * hours / 720.0
  }

  /** The whole cents due with what was carried over. */
  function Whole(accrued: real, due: real): (cents: int)
    requires accrued >= 0.0 && due >= 0.0
    ensures cents >= 0
  {
    (accrued + due).Floor
  }

  /** What is carried over to the next pass. */
  function Carried(accrued: real, due: real): (fraction: real)
    requires accrued >= 0.0 && due >= 0.0
    ensures 0.0 <= fraction <= 1.0
  {
    Stored(accrued + due - Whole(accrued, due) as real)
  }

  function Metering(a: Account, now: int, cost: real): Account
    requires a.lastMetered.Some? && a.accrued >= 0.0 && cost >= 0.0
  {
    var due := Due(Hours(a.lastMetered.value, now), cost);
    a.(accrued := Carried(a.accrued, due))
  }

  /** Add the usage since the last pass and charge its whole cents. */
  function Accrue(b: Books, t: Tenant, now: int, cost: real): (r: Books)
    requires t in b.accounts && b.accounts[t].lastMetered.Some? && b.accounts[t].accrued >= 0.0 && cost >= 0.0
    ensures t in r.accounts
  {
    var a := b.accounts[t];
    var last := a.lastMetered.value;
    var hours := Hours(last, now);
    var whole := Whole(a.accrued, Due(hours, cost));
    var b1 := Note(SetAccount(b, t, Metering(a, now, cost)), Passed(t, hours, cost));
    var b2 := if whole >= 1 then Charge(b1, t, whole, Metered).value else b1;
    SetAccount(b2, t, b2.accounts[t].(lastMetered := Some(Later(now, last))))
  }

  /** The card processor's answer. */
  datatype Reply = Intent(id: string) | Declined

  predicate ReloadDue(a: Account, now: int) {
    && a.reload && a.balance < a.reloadThreshold && a.card.Some? && a.card.value != ""
    && (a.reloadFailedAt.None? || a.reloadFailedAt.value <= now - 86400000000)
  }

  function Reload(c: Config, b: Books, t: Tenant, now: int, reply: Reply): (r: Books)
    requires t in b.accounts
    ensures t in r.accounts
  {
    var a := b.accounts[t];
    if !ReloadDue(a, now) then b
    else if reply.Intent? && reply.id != "" && c.minTopUp <= a.reloadAmount <= c.maxTopUp then
      Credit(b, t, a.reloadAmount, TopUp, Some(reply.id)).value
    else
      Note(SetAccount(b, t, a.(reloadFailedAt := Some(now))), ReloadFailed(t, now))
  }

  function Pause(b: Books, t: Tenant, now: int): (r: Books)
    requires t in b.accounts
    ensures t in r.accounts
  {
    var a := b.accounts[t];
    if a.balance < 0 && !a.paused then
      Note(SetAccount(b, t, a.(paused := true, pausedAt := Some(now))), PauseMailed(t))
    else b
  }

  function Warn(b: Books, t: Tenant, now: int): (r: Books)
    requires t in b.accounts
    ensures t in r.accounts
  {
    var a := b.accounts[t];
    if !a.paused && a.balance < a.lowThreshold && a.warnedAt.None? && a.warnings then
      Note(SetAccount(b, t, a.(warnedAt := Some(now))), Warned(t))
    else b
  }

  function Meter(c: Config, b: Books, t: Tenant, now: int, users: nat, bytes: nat, reply: Reply): Books
    requires t in b.accounts && b.accounts[t].accrued >= 0.0
  {
    var a := b.accounts[t];
    if !c.enabled then b
    else if a.lastMetered.None? then
      Note(SetAccount(b, t, a.(lastMetered := Some(now))), Started(t, now))
    else
      var b1 := Accrue(b, t, now, MonthlyCost(c, users, bytes));
      Warn(Pause(Reload(c, b1, t, now, reply), t, now), t, now)
  }

  /** What a form may change. */
  datatype Settings = Settings(warnings: bool, lowThreshold: int, reload: bool, reloadThreshold: int, reloadAmount: int)

  function Configure(b: Books, t: Tenant, s: Settings): Books
    requires t in b.accounts
  {
    SetAccount(b, t, b.accounts[t].(warnings := s.warnings, lowThreshold := s.lowThreshold, reload := s.reload,
                                    reloadThreshold := s.reloadThreshold, reloadAmount := s.reloadAmount))
  }

  function AttachCard(b: Books, t: Tenant, customer: Option<string>, card: string): Books
    requires t in b.accounts
  {
    Note(SetAccount(b, t, b.accounts[t].(customer := customer, card := Some(card), reloadFailedAt := None)), CardChanged(t))
  }

  function DetachCard(b: Books, t: Tenant): Books
    requires t in b.accounts
  {
    Note(SetAccount(b, t, b.accounts[t].(customer := None, card := None, reloadFailedAt := None)), CardChanged(t))
  }

  // ------------------------------------------------------------ what always holds

  predicate Sane(a: Account) {
    && (a.paused ==> a.balance < 0) && (a.paused <==> a.pausedAt.Some?)
    && 0.0 <= a.accrued <= 1.0
  }

  /** Each entry records the sum of its tenant's entries up to itself. */
  ghost predicate Chained(ledger: seq<Entry>) {
    forall i :: 0 <= i < |ledger| ==> ledger[i].balanceAfter == Sum(ledger[..i + 1], ledger[i].tenant)
  }

  ghost predicate RefsDistinct(ledger: seq<Entry>) {
    forall i, j :: 0 <= i < j < |ledger| && ledger[i].ref.Some? ==> ledger[i].ref != ledger[j].ref
  }

  ghost predicate Balanced(b: Books) {
    && (forall t :: t in b.accounts ==> Sane(b.accounts[t]) && b.accounts[t].balance == Sum(b.ledger, t))
    && (forall t :: t !in b.accounts ==> Sum(b.ledger, t) == 0)
    && Chained(b.ledger) && RefsDistinct(b.ledger)
  }

  lemma ChainedAppend(ledger: seq<Entry>, e: Entry)
    requires Chained(ledger) && e.balanceAfter == Sum(ledger, e.tenant) + e.amount
    ensures Chained(ledger + [e])
  {
    hide Sum;
    var ledger' := ledger + [e];
    forall i | 0 <= i < |ledger'|
      ensures ledger'[i].balanceAfter == Sum(ledger'[..i + 1], ledger'[i].tenant)
    {
      if i < |ledger| {
        assert ledger'[..i + 1] == ledger[..i + 1];
      } else {
        assert ledger'[..i + 1] == ledger';
        SumAppend(ledger, e, e.tenant);
      }
    }
  }

  /** Two consecutive entries of a tenant differ by the later one's amount. */
  lemma ChainStep(ledger: seq<Entry>, i: nat, j: nat)
    requires Chained(ledger) && i < j < |ledger| && ledger[i].tenant == ledger[j].tenant
    requires forall m :: i < m < j ==> ledger[m].tenant != ledger[i].tenant
    ensures ledger[j].balanceAfter == ledger[i].balanceAfter + ledger[j].amount
  {
    hide Sum;
    var t := ledger[i].tenant;
    SumSkips(ledger, i + 1, j, t);
    assert ledger[..j + 1] == ledger[..j] + [ledger[j]];
    SumAppend(ledger[..j], ledger[j], t);
  }

  lemma {:induction false} SumSkips(ledger: seq<Entry>, i: nat, j: nat, t: Tenant)
    requires i <= j <= |ledger| && forall m :: i <= m < j ==> ledger[m].tenant != t
    ensures Sum(ledger[..j], t) == Sum(ledger[..i], t)
    decreases j
  {
    hide Sum;
    if i < j {
      SumSkips(ledger, i, j - 1, t);
      assert ledger[..j] == ledger[..j - 1] + [ledger[j - 1]];
      SumAppend(ledger[..j - 1], ledger[j - 1], t);
    }
  }

  lemma EntryBalances(b: Books, t: Tenant, a': Account, e: Entry, log: seq<Event>)
    requires Balanced(b) && e.tenant == t && (t in b.accounts || e.balanceAfter == e.amount)
    requires t in b.accounts ==> e.balanceAfter == b.accounts[t].balance + e.amount
    requires a'.balance == e.balanceAfter && Sane(a')
    requires e.ref.Some? ==> !RefUsed(b.ledger, e.ref.value)
    ensures Balanced(Books(b.accounts[t := a'], b.ledger + [e], log))
  {
    hide Sum, Sane;
    ChainedAppend(b.ledger, e);
    forall u
      ensures Sum(b.ledger + [e], u) == Sum(b.ledger, u) + if u == t then e.amount else 0
    {
      SumAppend(b.ledger, e, u);
    }
    assert forall i :: 0 <= i < |b.ledger| ==> b.ledger[i] in b.ledger;
  }

  lemma CreditBalances(b: Books, t: Tenant, amount: int, kind: Kind, ref: Option<string>)
    requires Balanced(b) && t in b.accounts && Credit(b, t, amount, kind, ref).Ok?
    ensures Balanced(Credit(b, t, amount, kind, ref).value)
  {
    hide Sum, Chained, RefsDistinct;
    var a := b.accounts[t];
    if !(ref.Some? && RefUsed(b.ledger, ref.value)) {
      var b' := Credit(b, t, amount, kind, ref).value;
      EntryBalances(b, t, b'.accounts[t], Entry(t, kind, amount, a.balance + amount, ref), b'.log);
    }
  }

  lemma ChargeBalances(b: Books, t: Tenant, amount: int, kind: Kind)
    requires Balanced(b) && t in b.accounts && Charge(b, t, amount, kind).Ok?
    ensures Balanced(Charge(b, t, amount, kind).value)
  {
    hide Sum, Chained, RefsDistinct;
    var a := b.accounts[t];
    EntryBalances(b, t, a.(balance := a.balance - amount), Entry(t, kind, -amount, a.balance - amount, None), b.log);
  }

  /** Steps that leave the ledger and the balance alone. */
  lemma SetBalances(b: Books, t: Tenant, a: Account, log: seq<Event>)
    requires Balanced(b) && t in b.accounts && a.balance == b.accounts[t].balance && Sane(a)
    ensures Balanced(SetAccount(b, t, a).(log := log))
  {
    hide Sum, Chained, RefsDistinct;
  }

  lemma SaneAt(b: Books, t: Tenant)
    requires Balanced(b) && t in b.accounts
    ensures Sane(b.accounts[t])
  {
    hide Sum, Chained, RefsDistinct;
  }

  lemma AccrueBalances(b: Books, t: Tenant, now: int, cost: real)
    requires Balanced(b) && t in b.accounts && b.accounts[t].lastMetered.Some? && cost >= 0.0
    ensures Balanced(Accrue(b, t, now, cost))
  {
    SaneAt(b, t);
    hide Sum, Chained, RefsDistinct, Hours, Whole, Carried, RefUsed, Balanced, Charge, Due;
    var a := b.accounts[t];
    var last := a.lastMetered.value;
    var hours := Hours(last, now);
    var whole := Whole(a.accrued, Due(hours, cost));
    SetBalances(b, t, Metering(a, now, cost), b.log + [Passed(t, hours, cost)]);
    var b1 := Note(SetAccount(b, t, Metering(a, now, cost)), Passed(t, hours, cost));
    if whole >= 1 {
      ChargeWorks(b1, t, whole, Metered);
      ChargeBalances(b1, t, whole, Metered);
    }
    var b2 := if whole >= 1 then Charge(b1, t, whole, Metered).value else b1;
    SaneAt(b2, t);
    SetBalances(b2, t, b2.accounts[t].(lastMetered := Some(Later(now, last))), b2.log);
  }

  lemma ChargeWorks(b: Books, t: Tenant, amount: nat, kind: Kind)
    requires t in b.accounts
    ensures Charge(b, t, amount, kind).Ok? && t in Charge(b, t, amount, kind).value.accounts
  {
  }

  lemma ReloadBalances(c: Config, b: Books, t: Tenant, now: int, reply: Reply)
    requires Balanced(b) && t in b.accounts
    ensures Balanced(Reload(c, b, t, now, reply))
  {
    SaneAt(b, t);
    hide Balanced, Sum, RefUsed;
    var a := b.accounts[t];
    if ReloadDue(a, now) {
      if reply.Intent? && reply.id != "" && c.minTopUp <= a.reloadAmount <= c.maxTopUp {
        CreditBalances(b, t, a.reloadAmount, TopUp, Some(reply.id));
      } else {
        SetBalances(b, t, a.(reloadFailedAt := Some(now)), b.log + [ReloadFailed(t, now)]);
      }
    }
  }

  lemma PauseWarnBalances(b: Books, t: Tenant, now: int)
    requires Balanced(b) && t in b.accounts
    ensures Balanced(Warn(Pause(b, t, now), t, now))
  {
    SaneAt(b, t);
    hide Balanced, Sum;
    var a := b.accounts[t];
    if a.balance < 0 {
      SetBalances(b, t, a.(paused := true, pausedAt := Some(now)), b.log + [PauseMailed(t)]);
    }
    var b1 := Pause(b, t, now);
    SaneAt(b1, t);
    SetBalances(b1, t, b1.accounts[t].(warnedAt := Some(now)), b1.log + [Warned(t)]);
  }

  lemma MeterBalances(c: Config, b: Books, t: Tenant, now: int, users: nat, bytes: nat, reply: Reply)
    requires Balanced(b) && t in b.accounts && b.accounts[t].accrued >= 0.0
    ensures Balanced(Meter(c, b, t, now, users, bytes, reply))
  {
    SaneAt(b, t);
    hide Balanced, Sum, Accrue, Reload, Pause, Warn, MonthlyCost;
    if c.enabled {
      var a := b.accounts[t];
      if a.lastMetered.None? {
        SetBalances(b, t, a.(lastMetered := Some(now)), b.log + [Started(t, now)]);
      } else {
        var cost := MonthlyCost(c, users, bytes);
        AccrueBalances(b, t, now, cost);
        var b1 := Accrue(b, t, now, cost);
        ReloadBalances(c, b1, t, now, reply);
        PauseWarnBalances(Reload(c, b1, t, now, reply), t, now);
      }
    }
  }

  /** After a pass that is not the first, an account is paused exactly when its
      balance is negative. */
  lemma PausedExactlyWhenNegative(c: Config, b: Books, t: Tenant, now: int, users: nat, bytes: nat, reply: Reply)
    requires Balanced(b) && t in b.accounts && b.accounts[t].accrued >= 0.0
    requires c.enabled && b.accounts[t].lastMetered.Some?
    ensures
      var a := Meter(c, b, t, now, users, bytes, reply).accounts[t];
      a.paused <==> a.balance < 0
  {
    MeterBalances(c, b, t, now, users, bytes, reply);
    hide Sum, Accrue, Reload, MonthlyCost, Balanced;
    SaneAt(Meter(c, b, t, now, users, bytes, reply), t);
  }
}
