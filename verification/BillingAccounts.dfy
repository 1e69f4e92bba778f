/** The billing service on account objects: each call writes one account's fields
    and appends to the shared ledger. */
module BillingAccounts {
  import opened Outcomes
  import opened Billing

  class BillingAccount {
    const tenant: Tenant
    var balance: int
    var accrued: real
    var paused: bool
    var pausedAt: Option<int>
    var lastMetered: Option<int>
    var warnings: bool
    var lowThreshold: int
    var warnedAt: Option<int>
    var reload: bool
    var reloadThreshold: int
    var reloadAmount: int
    var reloadFailedAt: Option<int>
    var customer: Option<string>
    var card: Option<string>

    constructor (tenant: Tenant)
      ensures this.tenant == tenant && Value() == NewAccount()
    {
      this.tenant := tenant;
      balance, accrued, paused, pausedAt, lastMetered := 0, 0.0, false, None, None;
      warnings, lowThreshold, warnedAt := true, 500, None;
      reload, reloadThreshold, reloadAmount, reloadFailedAt := false, 500, 2000, None;
      customer, card := None, None;
    }

    ghost function Value(): Account
      reads this
    {
      Account(balance, accrued, paused, pausedAt, lastMetered, warnings, lowThreshold, warnedAt,
              reload, reloadThreshold, reloadAmount, reloadFailedAt, customer, card)
    }

    method Receive(amount: int)
      modifies this
      ensures Value() == Funded(old(Value()), amount)
    {
      balance := balance + amount;
      warnedAt := None;
      reloadFailedAt := None;
      if paused && balance >= 0 {
        paused := false;
        pausedAt := None;
      }
    }
  }

  class Service {
    const config: Config
    var ledger: seq<Entry>
    var log: seq<Event>

    constructor (config: Config)
      ensures this.config == config && ledger == [] && log == []
    {
      this.config, ledger, log := config, [], [];
    }

    /** The books as far as one account is concerned. */
    ghost function Sheet(account: BillingAccount): Books
      reads this, account
    {
      Books(map[account.tenant := account.Value()], ledger, log)
    }

    method FindRef(ref: string) returns (found: bool)
      ensures found <==> RefUsed(ledger, ref)
    {
      for i := 0 to |ledger|
        invariant forall j :: 0 <= j < i ==> ledger[j].ref != Some(ref)
      {
        if ledger[i].ref == Some(ref) {
          assert ledger[i] in ledger;
          return true;
        }
      }
      return false;
    }

    method CreditAccount(account: BillingAccount, amount: int, kind: Kind, ref: Option<string>) returns (r: Result<(), BillingError>)
      modifies this, account
      ensures
        var expected := Credit(old(Sheet(account)), account.tenant, amount, kind, ref);
        && r == (if expected.Ok? then Ok(()) else Err(expected.error))
        && Sheet(account) == if expected.Ok? then expected.value else old(Sheet(account))
    {
      hide RefUsed, Fund;
      if amount < 0 {
        return Err(NegativeAmount);
      }
      if ref.Some? {
        var known := FindRef(ref.value);
        if known {
          return if ref.value == "" then Err(DuplicateReference) else Ok(());
        }
      }
      AddFunds(account, amount, kind, ref);
      return Ok(());
    }

    method AddFunds(account: BillingAccount, amount: int, kind: Kind, ref: Option<string>)
      modifies this, account
      ensures Sheet(account) == Fund(old(Sheet(account)), account.tenant, amount, kind, ref)
    {
      hide Funded;
      account.Receive(amount);
      ledger := ledger + [Entry(account.tenant, kind, amount, account.balance, ref)];
      log := log + [Credited(account.tenant)];
    }

    method ChargeAccount(account: BillingAccount, amount: int, kind: Kind) returns (r: Result<(), BillingError>)
      modifies this, account`balance
      ensures
        var expected := Charge(old(Sheet(account)), account.tenant, amount, kind);
        && r == (if expected.Ok? then Ok(()) else Err(expected.error))
        && Sheet(account) == if expected.Ok? then expected.value else old(Sheet(account))
    {
      if amount < 0 {
        return Err(NegativeAmount);
      }
      account.balance := account.balance - amount;
      ledger := ledger + [Entry(account.tenant, kind, -amount, account.balance, None)];
      return Ok(());
    }

    method OpenAccount(tenant: Tenant) returns (account: BillingAccount)
      modifies this
      ensures fresh(account) && account.tenant == tenant
      ensures Sheet(account) == GetOrCreate(config, Books(map[], old(ledger), old(log)), tenant)
    {
      account := new BillingAccount(tenant);
      var _ := CreditAccount(account, config.welcome, Grant, None);
    }

    method AccrueUsage(account: BillingAccount, now: int, cost: real)
      requires account.lastMetered.Some? && account.accrued >= 0.0 && cost >= 0.0
      modifies this, account
      ensures Sheet(account) == Accrue(old(Sheet(account)), account.tenant, now, cost)
    {
      hide Hours, Due, Whole, Carried;
      var last := account.lastMetered.value;
      var hours := Hours(last, now);
      var due := Due(hours, cost);
      var whole := Whole(account.accrued, due);
      account.accrued := Carried(account.accrued, due);
      log := log + [Passed(account.tenant, hours, cost)];
      if whole >= 1 {
        var _ := ChargeAccount(account, whole, Metered);
      }
      account.lastMetered := Some(Later(now, last));
    }

    method ReloadIfDue(account: BillingAccount, now: int, reply: Reply)
      modifies this, account
      ensures Sheet(account) == Reload(config, old(Sheet(account)), account.tenant, now, reply)
    {
      hide RefUsed, Credit;
      if account.reload && account.balance < account.reloadThreshold && account.card.Some? && account.card.value != ""
         && (account.reloadFailedAt.None? || account.reloadFailedAt.value <= now - 86400000000)
      {
        if reply.Intent? && reply.id != "" && config.minTopUp <= account.reloadAmount <= config.maxTopUp {
          ReloadCredits(old(Sheet(account)), account.tenant, account.reloadAmount, reply.id);
          var _ := CreditAccount(account, account.reloadAmount, TopUp, Some(reply.id));
        } else {
          account.reloadFailedAt := Some(now);
          log := log + [ReloadFailed(account.tenant, now)];
        }
      }
    }

    method PauseAndWarn(account: BillingAccount, now: int)
      modifies this, account
      ensures Sheet(account) == Warn(Pause(old(Sheet(account)), account.tenant, now), account.tenant, now)
    {
      if account.balance < 0 && !account.paused {
        account.paused := true;
        account.pausedAt := Some(now);
        log := log + [PauseMailed(account.tenant)];
      }
      if !account.paused && account.balance < account.lowThreshold && account.warnedAt.None? && account.warnings {
        log := log + [Warned(account.tenant)];
        account.warnedAt := Some(now);
      }
    }

    method MeterAccount(account: BillingAccount, now: int, users: nat, bytes: nat, reply: Reply)
      requires account.accrued >= 0.0
      modifies this, account
      ensures Sheet(account) == Meter(config, old(Sheet(account)), account.tenant, now, users, bytes, reply)
    {
      hide Accrue, Reload, Pause, Warn, MonthlyCost;
      if !config.enabled {
        return;
      }
      if account.lastMetered.None? {
        account.lastMetered := Some(now);
        log := log + [Started(account.tenant, now)];
        return;
      }
      AccrueUsage(account, now, MonthlyCost(config, users, bytes));
      ReloadIfDue(account, now, reply);
      PauseAndWarn(account, now);
    }

    method SaveSettings(account: BillingAccount, s: Settings)
      modifies account
      ensures Sheet(account) == Configure(old(Sheet(account)), account.tenant, s)
    {
      account.warnings, account.lowThreshold := s.warnings, s.lowThreshold;
      account.reload, account.reloadThreshold, account.reloadAmount := s.reload, s.reloadThreshold, s.reloadAmount;
    }

    method SaveCard(account: BillingAccount, customer: Option<string>, card: string)
      modifies this, account
      ensures Sheet(account) == AttachCard(old(Sheet(account)), account.tenant, customer, card)
    {
      account.customer, account.card, account.reloadFailedAt := customer, Some(card), None;
      log := log + [CardChanged(account.tenant)];
    }

    method RemoveCard(account: BillingAccount)
      modifies this, account
      ensures Sheet(account) == DetachCard(old(Sheet(account)), account.tenant)
    {
      account.customer, account.card, account.reloadFailedAt := None, None, None;
      log := log + [CardChanged(account.tenant)];
    }
  }

  lemma ReloadCredits(b: Books, t: Tenant, amount: nat, ref: string)
    requires t in b.accounts && ref != ""
    ensures Credit(b, t, amount, TopUp, Some(ref)).Ok?
  {
    hide RefUsed;
  }

  // ------------------------------------------------- one account among the others

  function Only(b: Books, t: Tenant): Books
    requires t in b.accounts
  {
    b.(accounts := map[t := b.accounts[t]])
  }

  /** `small` is `big` seen from one tenant. */
  ghost predicate Within(big: Books, small: Books, t: Tenant, others: map<Tenant, Account>) {
    && small.accounts.Keys == {t} && big.ledger == small.ledger && big.log == small.log
    && big.accounts == others + small.accounts
  }

  /** What a pass does to one account's sheet is what it does to the whole books. */
  lemma MeterIsLocal(c: Config, b: Books, t: Tenant, now: int, users: nat, bytes: nat, reply: Reply)
    requires t in b.accounts && b.accounts[t].accrued >= 0.0
    ensures Within(Meter(c, b, t, now, users, bytes, reply), Meter(c, Only(b, t), t, now, users, bytes, reply), t, b.accounts)
  {
    hide Accrue, Reload, Pause, Warn, MonthlyCost;
    if c.enabled && b.accounts[t].lastMetered.Some? {
      var cost := MonthlyCost(c, users, bytes);
      AccrueIsLocal(b, t, now, cost);
      var big, small := Accrue(b, t, now, cost), Accrue(Only(b, t), t, now, cost);
      ReloadIsLocal(c, big, small, t, now, reply, b.accounts);
      big, small := Reload(c, big, t, now, reply), Reload(c, small, t, now, reply);
      PauseWarnIsLocal(big, small, t, now, b.accounts);
    }
  }

  lemma AccrueIsLocal(b: Books, t: Tenant, now: int, cost: real)
    requires t in b.accounts && b.accounts[t].lastMetered.Some? && b.accounts[t].accrued >= 0.0 && cost >= 0.0
    ensures Within(Accrue(b, t, now, cost), Accrue(Only(b, t), t, now, cost), t, b.accounts)
  {
    hide Hours, Due, Whole, Carried;
  }

  lemma ReloadIsLocal(c: Config, big: Books, small: Books, t: Tenant, now: int, reply: Reply, others: map<Tenant, Account>)
    requires Within(big, small, t, others)
    ensures Within(Reload(c, big, t, now, reply), Reload(c, small, t, now, reply), t, others)
  {
    hide RefUsed;
  }

  lemma PauseWarnIsLocal(big: Books, small: Books, t: Tenant, now: int, others: map<Tenant, Account>)
    requires Within(big, small, t, others)
    ensures Within(Warn(Pause(big, t, now), t, now), Warn(Pause(small, t, now), t, now), t, others)
  {
  }
}
