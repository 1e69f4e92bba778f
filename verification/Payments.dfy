/** Top-ups paid over three rails. A payment can be reported by a webhook, a
    browser's return, a callback, a poll or a metering pass, in any order and any
    number of times, with any other change of the books between, and is credited
    once. */
module Payments {
  import opened Outcomes
  import opened Billing
  import BillingRuns

  datatype Provider = Crypto | Stripe | PayPal

  datatype Status = Pending | Completed | Expired

  datatype Payment = Payment(id: int, tenant: Tenant, provider: Provider, amount: nat, status: Status,
                             createdAt: int, details: string, saveCard: bool, customer: Option<string>)

  /** The books, and the payments by the reference their provider knows them by. */
  datatype Desk = Desk(books: Books, payments: map<string, Payment>)

  /** An amount in dollars as reported; none when it is no number. */
  type Dollars = Option<real>

  predicate AmountMatches(d: Dollars, cents: int) {
    d.Some? && d.value == cents as real / 100.0
  }

  // -------------------------------------------------------------------- replies

  datatype CryptoStatus = Paid | StillPending | TimedOut | OtherStatus

  datatype CryptoReply = NoReply | Report(status: CryptoStatus, usd: Dollars, paymentId: string, details: string)

  datatype Checkout = Checkout(paid: bool, tenant: Tenant, paymentId: int, total: int, currencyOk: bool,
                               customer: Option<string>, intent: Option<string>, card: Option<string>)

  datatype Capture = Capture(completed: bool, usdCurrency: bool, id: Option<string>, value: Dollars)

  datatype OrderReply = NoOrder | Order(id: string, completed: bool, referenceId: int, capture: Option<Capture>)

  // --------------------------------------------------------------- completion

  /** The payment of a provider, when its account exists too. */
  predicate Known(d: Desk, provider: Provider, key: string) {
    key in d.payments && d.payments[key].provider == provider && d.payments[key].tenant in d.books.accounts
  }

  function Complete(d: Desk, key: string, ref: string): Desk
    requires key in d.payments && d.payments[key].tenant in d.books.accounts
  {
    var p := d.payments[key];
    if p.status.Completed? then d
    else
      var credited := Credit(d.books, p.tenant, p.amount, TopUp, Some(ref));
      if credited.Err? then d else Desk(credited.value, d.payments[key := p.(status := Completed)])
  }

  // -------------------------------------------------------------------- crypto

  predicate CryptoIdentity(key: string, p: Payment, r: CryptoReply) {
    r.Report? && AmountMatches(r.usd, p.amount) && r.paymentId == key && r.details == p.details
  }

  function Confirm(d: Desk, key: string, r: CryptoReply): Desk {
    if !Known(d, Crypto, key) || d.payments[key].status.Completed? then d
    else
      var p := d.payments[key];
      if !CryptoIdentity(key, p, r) then d
      else if r.status.Paid? then Complete(d, key, key)
      else if r.status.TimedOut? then d.(payments := d.payments[key := p.(status := Expired)])
      else d
  }

  /** A poll gives up on a payment after 48 hours without asking. */
  function PollOne(d: Desk, key: string, now: int, r: CryptoReply): Desk {
    if key !in d.payments then d
    else if d.payments[key].createdAt < now - 172800000000 then
      if Known(d, Crypto, key) && d.payments[key].status.Pending? then
        d.(payments := d.payments[key := d.payments[key].(status := Expired)])
      else d
    else Confirm(d, key, r)
  }

  function Poll(d: Desk, keys: seq<string>, now: int, replies: string -> CryptoReply): Desk {
    if keys == [] then d
    else
      var before, last := Poll(d, keys[..|keys| - 1], now, replies), keys[|keys| - 1];
      PollOne(before, last, now, replies(last))
  }

  // -------------------------------------------------------------------- stripe

  predicate CheckoutMatches(p: Payment, account: Account, c: Checkout) {
    && c.tenant == p.tenant && c.paymentId == p.id && c.total == p.amount && c.currencyOk
    && c.customer == (if p.customer.Some? then p.customer else account.customer)
    && c.intent.Some?
  }

  /** The ledger takes an empty reference once; again it is an error, and the whole
      call is rolled back. */
  predicate Rejects(b: Books, ref: string) { ref == "" && RefUsed(b.ledger, ref) }

  /** The card is kept before the credit; without its data nothing is done. */
  function SettleCheckout(d: Desk, key: string, c: Checkout): Desk {
    if !c.paid || !Known(d, Stripe, key) then d
    else
      var p := d.payments[key];
      if !CheckoutMatches(p, d.books.accounts[p.tenant], c) || p.status.Completed? then d
      else if (p.saveCard && c.card.None?) || Rejects(d.books, c.intent.value) then d
      else
        var kept := if p.saveCard then d.(books := AttachCard(d.books, p.tenant, c.customer, c.card.value)) else d;
        Complete(kept, key, c.intent.value)
  }

  /** A succeeded charge of a saved card. */
  function SettleIntent(d: Desk, t: Tenant, amount: int, currencyOk: bool, ref: string): Desk {
    if t !in d.books.accounts || !currencyOk || amount <= 0 then d
    else
      var credited := Credit(d.books, t, amount, TopUp, Some(ref));
      if credited.Ok? then d.(books := credited.value) else d
  }

  // -------------------------------------------------------------------- paypal

  predicate CaptureMatches(p: Payment, c: Capture) {
    c.completed && c.usdCurrency && c.id.Some? && c.id.value != "" && AmountMatches(c.value, p.amount)
  }

  function CompleteCapture(d: Desk, key: string, c: Capture): Desk
    requires key in d.payments && d.payments[key].tenant in d.books.accounts
  {
    if CaptureMatches(d.payments[key], c) then Complete(d, key, c.id.value) else d
  }

  function ReturnFromPayPal(d: Desk, key: string, o: OrderReply): Desk {
    if !Known(d, PayPal, key) || d.payments[key].status.Completed? then d
    else if o.NoOrder? || o.id != key || !o.completed || o.referenceId != d.payments[key].id || o.capture.None? then d
    else CompleteCapture(d, key, o.capture.value)
  }

  /** A webhook names a capture, which is then fetched and names the order. */
  function NoticeFromPayPal(d: Desk, captureId: string, order: Option<string>, fetched: Option<Capture>): Desk {
    if fetched.None? || fetched.value.id != Some(captureId) || order.None? || !Known(d, PayPal, order.value) then d
    else CompleteCapture(d, order.value, fetched.value)
  }

  // ------------------------------------------------------------------ any event

  datatype Event =
    | NewPayment(key: string, payment: Payment)
    | CheckoutPaid(key: string, checkout: Checkout)
    | IntentSucceeded(t: Tenant, amount: int, currencyOk: bool, ref: string)
    | PayPalReturn(key: string, order: OrderReply)
    | PayPalNotice(captureId: string, orderId: Option<string>, fetched: Option<Capture>)
    | CryptoNotice(key: string, reply: CryptoReply)
    | CryptoPoll(key: string, now: int, reply: CryptoReply)
    | BooksChanged(config: Config, step: BillingRuns.Step)

  predicate ReloadAccepted(c: Config, a: Account, now: int, answer: Reply) {
    ReloadDue(a, now) && answer.Intent? && answer.id != "" && c.minTopUp <= a.reloadAmount <= c.maxTopUp
  }

  ghost function Handle(d: Desk, e: Event): Desk
    requires Balanced(d.books)
  {
    match e
    case NewPayment(key, p) => d.(payments := d.payments[key := p])
    case CheckoutPaid(key, c) => SettleCheckout(d, key, c)
    case IntentSucceeded(t, amount, currencyOk, ref) => SettleIntent(d, t, amount, currencyOk, ref)
    case PayPalReturn(key, o) => ReturnFromPayPal(d, key, o)
    case PayPalNotice(captureId, order, fetched) => NoticeFromPayPal(d, captureId, order, fetched)
    case CryptoNotice(key, r) => Confirm(d, key, r)
    case CryptoPoll(key, now, r) => PollOne(d, key, now, r)
    case BooksChanged(c, step) => d.(books := BillingRuns.Apply(c, d.books, step))
  }

  /** The account as a metering pass finds it when it asks whether to reload. */
  function AtReload(c: Config, b: Books, t: Tenant, now: int, users: nat, bytes: nat): Option<Account>
    requires t in b.accounts && b.accounts[t].accrued >= 0.0
  {
    if c.enabled && b.accounts[t].lastMetered.Some? then
      Some(Accrue(b, t, now, MonthlyCost(c, users, bytes)).accounts[t])
    else None
  }

  /** The reference that a call of the billing service credits. */
  function StepProved(c: Config, b: Books, step: BillingRuns.Step): Option<string>
    requires Balanced(b)
  {
    if step.t !in b.accounts then None
    else
      match step
      case Pay(t, amount, ref) => if amount >= 0 then ref else None
      case MeterPass(t, now, users, bytes, reply) =>
        var a := AtReload(c, b, t, now, users, bytes);
        if a.Some? && ReloadAccepted(c, a.value, now, reply) then Some(reply.id) else None
      case _ => None
  }

  /** The reference an event proves to be paid, read off the event and the payment
      it names. Whether it was credited before plays no part. */
  function Proved(d: Desk, e: Event): Option<string>
    requires Balanced(d.books)
  {
    match e
    case NewPayment(_, _) => None
    case CheckoutPaid(key, c) =>
      if c.paid && Known(d, Stripe, key)
         && CheckoutMatches(d.payments[key], d.books.accounts[d.payments[key].tenant], c)
         && (d.payments[key].status.Completed? || !d.payments[key].saveCard || c.card.Some?)
      then c.intent else None
    case IntentSucceeded(t, amount, currencyOk, ref) =>
      if t in d.books.accounts && currencyOk && amount > 0 then Some(ref) else None
    case PayPalReturn(key, o) =>
      if Known(d, PayPal, key) && o.Order? && o.id == key && o.completed && o.referenceId == d.payments[key].id
         && o.capture.Some? && CaptureMatches(d.payments[key], o.capture.value)
      then o.capture.value.id else None
    case PayPalNotice(captureId, order, fetched) =>
      if fetched.Some? && fetched.value.id == Some(captureId) && order.Some? && Known(d, PayPal, order.value)
         && CaptureMatches(d.payments[order.value], fetched.value)
      then Some(captureId) else None
    case CryptoNotice(key, r) =>
      if Known(d, Crypto, key) && CryptoIdentity(key, d.payments[key], r) && r.status.Paid? then Some(key) else None
    case CryptoPoll(key, now, r) =>
      if Known(d, Crypto, key) && d.payments[key].createdAt >= now - 172800000000
         && CryptoIdentity(key, d.payments[key], r) && r.status.Paid?
      then Some(key) else None
    case BooksChanged(c, step) => StepProved(c, d.books, step)
  }

  /** The payment an event is about, if it is about one. */
  function KeyOf(e: Event): Option<string> {
    match e
    case NewPayment(key, _) => Some(key)
    case CheckoutPaid(key, _) => Some(key)
    case IntentSucceeded(_, _, _, _) => None
    case PayPalReturn(key, _) => Some(key)
    case PayPalNotice(_, order, _) => order
    case CryptoNotice(key, _) => Some(key)
    case CryptoPoll(key, _, _) => Some(key)
    case BooksChanged(_, _) => None
  }

  // ------------------------------------------------------- what a reference is worth

  datatype Claim = Claim(tenant: Tenant, amount: int)

  /** What the providers vouch for: each reference stands for one amount of one
      tenant, and each payment is settled under one reference. */
  datatype Rails = Rails(claim: string -> Claim, refOf: string -> string)

  ghost predicate Honest(w: Rails, d: Desk, e: Event)
    requires Balanced(d.books)
  {
    && (e.NewPayment? ==> e.key !in d.payments && e.payment.status.Pending?)
    && (Proved(d, e).Some? ==>
          var ref := Proved(d, e).value;
          && ref != ""
          && if e.IntentSucceeded? then w.claim(ref) == Claim(e.t, e.amount)
             else if e.BooksChanged? then
               e.step.t in d.books.accounts && w.claim(ref) == Claim(e.step.t, Price(d.books, e.step))
             else
               KeyOf(e).Some? && KeyOf(e).value in d.payments
               && var p := d.payments[KeyOf(e).value];
                  w.claim(ref) == Claim(p.tenant, p.amount) && w.refOf(KeyOf(e).value) == ref)
  }

  /** A top-up names its amount, a reload takes the account's. */
  function Price(b: Books, step: BillingRuns.Step): int
    requires step.t in b.accounts
  {
    if step.Pay? then step.amount else b.accounts[step.t].reloadAmount
  }

  /** The cents that a set of references is worth to a tenant. */
  ghost function Worth(w: Rails, refs: set<string>, t: Tenant): int {
    if refs == {} then 0
    else
      var r :| r in refs;
      Worth(w, refs - {r}, t) + if w.claim(r).tenant == t then w.claim(r).amount else 0
  }

  lemma {:induction false} WorthAdd(w: Rails, refs: set<string>, r: string, t: Tenant)
    requires r !in refs
    ensures Worth(w, refs + {r}, t) == Worth(w, refs, t) + if w.claim(r).tenant == t then w.claim(r).amount else 0
    decreases refs
  {
    var all := refs + {r};
    var x :| x in all && Worth(w, all, t) == Worth(w, all - {x}, t) + if w.claim(x).tenant == t then w.claim(x).amount else 0;
    if x == r {
      assert all - {x} == refs;
    } else {
      WorthAdd(w, refs - {x}, r, t);
      assert all - {x} == (refs - {x}) + {r};
      WorthAdd(w, refs - {x}, x, t);
      assert (refs - {x}) + {x} == refs;
    }
  }

  /** The entries of a tenant that a provider's reference stands behind, and the
      others. */
  function Referenced(ledger: seq<Entry>, t: Tenant): int {
    if ledger == [] then 0
    else
      var last := ledger[|ledger| - 1];
      Referenced(ledger[..|ledger| - 1], t) + if last.tenant == t && last.ref.Some? then last.amount else 0
  }

  function Plain(ledger: seq<Entry>, t: Tenant): int {
    if ledger == [] then 0
    else
      var last := ledger[|ledger| - 1];
      Plain(ledger[..|ledger| - 1], t) + if last.tenant == t && last.ref.None? then last.amount else 0
  }

  lemma ReferencedAppend(ledger: seq<Entry>, e: Entry, t: Tenant)
    ensures Referenced(ledger + [e], t) == Referenced(ledger, t) + if e.tenant == t && e.ref.Some? then e.amount else 0
    ensures Plain(ledger + [e], t) == Plain(ledger, t) + if e.tenant == t && e.ref.None? then e.amount else 0
  {
    assert (ledger + [e])[..|ledger|] == ledger;
  }

  lemma {:induction false} SumIsBoth(ledger: seq<Entry>, t: Tenant)
    ensures Sum(ledger, t) == Plain(ledger, t) + Referenced(ledger, t)
  {
    if ledger != [] {
      SumIsBoth(ledger[..|ledger| - 1], t);
    }
  }

  /** The books hold exactly the references `seen`, and what these add to a tenant
      is what they are worth. */
  ghost predicate Settled(w: Rails, d: Desk, seen: set<string>) {
    && Balanced(d.books)
    && (forall r :: RefUsed(d.books.ledger, r) <==> r in seen)
    && (forall key :: key in d.payments && d.payments[key].status.Completed? ==> w.refOf(key) in seen)
    && (forall t :: Referenced(d.books.ledger, t) == Worth(w, seen, t))
  }

  lemma CreditSettles(w: Rails, d: Desk, seen: set<string>, t: Tenant, amount: nat, ref: string)
    requires Settled(w, d, seen) && t in d.books.accounts && ref != "" && w.claim(ref) == Claim(t, amount)
    ensures
      var credited := Credit(d.books, t, amount, TopUp, Some(ref));
      credited.Ok? && Settled(w, d.(books := credited.value), seen + {ref})
  {
    hide Balanced, RefUsed, Referenced, Worth;
    CreditBalances(d.books, t, amount, TopUp, Some(ref));
    if ref in seen {
      assert seen + {ref} == seen;
    } else {
      var e := Entry(t, TopUp, amount, d.books.accounts[t].balance + amount, Some(ref));
      RefUsedAppend(d.books.ledger, e);
      forall u
        ensures Referenced(d.books.ledger + [e], u) == Worth(w, seen + {ref}, u)
      {
        WorthAdd(w, seen, ref, u);
        ReferencedAppend(d.books.ledger, e, u);
      }
    }
  }

  /** One entry more at most, and that without a reference. */
  predicate PlainGrowth(ledger: seq<Entry>, ledger': seq<Entry>) {
    ledger' == ledger
    || (|ledger'| == |ledger| + 1 && ledger'[..|ledger|] == ledger && ledger'[|ledger|].ref.None?)
  }

  lemma PlainSettles(w: Rails, d: Desk, seen: set<string>, b: Books)
    requires Settled(w, d, seen) && Balanced(b) && PlainGrowth(d.books.ledger, b.ledger)
    ensures Settled(w, d.(books := b), seen)
  {
    hide Balanced, RefUsed, Referenced, Worth;
    var ledger := d.books.ledger;
    if b.ledger != ledger {
      var e := b.ledger[|ledger|];
      assert b.ledger == ledger + [e];
      RefUsedAppend(ledger, e);
      forall u
        ensures Referenced(b.ledger, u) == Referenced(ledger, u)
      {
        ReferencedAppend(ledger, e, u);
      }
    }
  }

  lemma RefUsedAppend(ledger: seq<Entry>, e: Entry)
    ensures forall r :: RefUsed(ledger + [e], r) <==> RefUsed(ledger, r) || e.ref == Some(r)
  {
    forall r
      ensures RefUsed(ledger + [e], r) <==> RefUsed(ledger, r) || e.ref == Some(r)
    {
      if e.ref == Some(r) {
        assert e in ledger + [e];
      }
      if RefUsed(ledger, r) {
        var x :| x in ledger && x.ref == Some(r);
        assert x in ledger + [e];
      }
    }
  }

  lemma CompleteSettles(w: Rails, d: Desk, seen: set<string>, key: string, ref: string)
    requires Settled(w, d, seen) && key in d.payments && d.payments[key].tenant in d.books.accounts
    requires ref != "" && w.claim(ref) == Claim(d.payments[key].tenant, d.payments[key].amount) && w.refOf(key) == ref
    ensures Settled(w, Complete(d, key, ref), seen + {ref})
  {
    hide Balanced, RefUsed, Credit, Worth;
    var p := d.payments[key];
    if p.status.Completed? {
      assert seen + {ref} == seen;
    } else {
      CreditSettles(w, d, seen, p.tenant, p.amount, ref);
    }
  }

  function Seen(seen: set<string>, proved: Option<string>): set<string> {
    if proved.Some? then seen + {proved.value} else seen
  }

  lemma KeepCardSettles(w: Rails, d: Desk, seen: set<string>, t: Tenant, customer: Option<string>, card: string)
    requires Settled(w, d, seen) && t in d.books.accounts
    ensures Settled(w, d.(books := AttachCard(d.books, t, customer, card)), seen)
  {
    CardBalances(d.books, t, customer, card);
    hide Balanced, RefUsed, Worth, Sum;
    PlainSettles(w, d, seen, AttachCard(d.books, t, customer, card));
  }

  lemma CardBalances(b: Books, t: Tenant, customer: Option<string>, card: string)
    requires Balanced(b) && t in b.accounts
    ensures Balanced(AttachCard(b, t, customer, card))
  {
    SaneAt(b, t);
    hide Balanced, Sum;
    SetBalances(b, t, b.accounts[t].(customer := customer, card := Some(card), reloadFailedAt := None), b.log + [CardChanged(t)]);
  }

  lemma StatusSettles(w: Rails, d: Desk, seen: set<string>, key: string, p: Payment)
    requires Settled(w, d, seen) && !p.status.Completed?
    ensures Settled(w, d.(payments := d.payments[key := p]), seen)
  {
    hide Balanced, RefUsed, Worth;
  }

  lemma HandleSettles(w: Rails, d: Desk, seen: set<string>, e: Event)
    requires Settled(w, d, seen) && Honest(w, d, e)
    ensures Settled(w, Handle(d, e), Seen(seen, Proved(d, e)))
  {
    assert Balanced(d.books);
    hide Settled, Balanced, Credit, Complete, SettleCheckout, ReturnFromPayPal, Confirm, PollOne, AmountMatches, StepProved;
    match e
    case NewPayment(key, p) => StatusSettles(w, d, seen, key, p);
    case CheckoutPaid(key, c) => CheckoutSettles(w, d, seen, key, c);
    case IntentSucceeded(t, amount, currencyOk, ref) =>
      if Proved(d, e).Some? { CreditSettles(w, d, seen, t, amount, ref); }
    case PayPalReturn(key, o) => ReturnSettles(w, d, seen, key, o);
    case PayPalNotice(captureId, order, fetched) =>
      if Proved(d, e).Some? { CompleteSettles(w, d, seen, order.value, captureId); }
    case CryptoNotice(key, r) => ConfirmSettles(w, d, seen, key, r);
    case CryptoPoll(key, now, r) => PollSettles(w, d, seen, key, now, r);
    case BooksChanged(c, step) => StepSettles(w, d, seen, c, step);
  }

  lemma ReturnSettles(w: Rails, d: Desk, seen: set<string>, key: string, o: OrderReply)
    requires Settled(w, d, seen) && Honest(w, d, PayPalReturn(key, o))
    ensures Settled(w, ReturnFromPayPal(d, key, o), Seen(seen, Proved(d, PayPalReturn(key, o))))
  {
    assert Balanced(d.books);
    hide Settled, Balanced, Complete, AmountMatches;
    if Known(d, PayPal, key) && d.payments[key].status.Completed? {
      AlreadySeen(w, d, seen, key);
    } else if Proved(d, PayPalReturn(key, o)).Some? {
      CompleteSettles(w, d, seen, key, o.capture.value.id.value);
    }
  }

  /** A poll within 48 hours proves what a notice does. */
  lemma PollIsNotice(w: Rails, d: Desk, key: string, now: int, r: CryptoReply)
    requires Balanced(d.books) && key in d.payments && d.payments[key].createdAt >= now - 172800000000
    ensures Proved(d, CryptoPoll(key, now, r)) == Proved(d, CryptoNotice(key, r))
    ensures Honest(w, d, CryptoPoll(key, now, r)) <==> Honest(w, d, CryptoNotice(key, r))
  {
    hide Balanced, CryptoIdentity;
  }

  lemma PollTooLate(d: Desk, key: string, now: int, r: CryptoReply)
    requires Balanced(d.books) && (key in d.payments ==> d.payments[key].createdAt < now - 172800000000)
    ensures Proved(d, CryptoPoll(key, now, r)).None?
  {
    hide Balanced, CryptoIdentity;
  }

  lemma PollSettles(w: Rails, d: Desk, seen: set<string>, key: string, now: int, r: CryptoReply)
    requires Settled(w, d, seen) && Honest(w, d, CryptoPoll(key, now, r))
    ensures Settled(w, PollOne(d, key, now, r), Seen(seen, Proved(d, CryptoPoll(key, now, r))))
  {
    assert Balanced(d.books);
    hide Settled, Balanced, Confirm, Honest, Proved;
    if key in d.payments && d.payments[key].createdAt >= now - 172800000000 {
      PollIsNotice(w, d, key, now, r);
      ConfirmSettles(w, d, seen, key, r);
    } else {
      PollTooLate(d, key, now, r);
      if key in d.payments && d.payments[key].status.Pending? {
        StatusSettles(w, d, seen, key, d.payments[key].(status := Expired));
      }
    }
  }

  /** A call of the billing service credits at most the reference it proves; its
      other entries have none. */
  lemma StepSettles(w: Rails, d: Desk, seen: set<string>, c: Config, step: BillingRuns.Step)
    requires Settled(w, d, seen) && Honest(w, d, BooksChanged(c, step))
    ensures Settled(w, d.(books := BillingRuns.Apply(c, d.books, step)), Seen(seen, StepProved(c, d.books, step)))
  {
    if step.MeterPass? && step.t in d.books.accounts {
      MeterSettles(w, d, seen, c, step);
    } else if StepProved(c, d.books, step).Some? {
      hide Settled, Credit;
      CreditSettles(w, d, seen, step.t, step.amount, step.ref.value);
    } else {
      BillingRuns.StepBalances(c, d.books, step);
      StepPlain(c, d.books, step);
      hide Settled, BillingRuns.Apply;
      PlainSettles(w, d, seen, BillingRuns.Apply(c, d.books, step));
    }
  }

  lemma StepPlain(c: Config, b: Books, step: BillingRuns.Step)
    requires Balanced(b) && StepProved(c, b, step).None? && (step.MeterPass? ==> step.t !in b.accounts)
    ensures PlainGrowth(b.ledger, BillingRuns.Apply(c, b, step).ledger)
  {
    hide Balanced, RefUsed, Meter;
  }

  /** Usage is charged without a reference; then an automatic reload counts its
      intent once, also when a report of it came first. */
  lemma MeterSettles(w: Rails, d: Desk, seen: set<string>, c: Config, step: BillingRuns.Step)
    requires step.MeterPass? && step.t in d.books.accounts
    requires Settled(w, d, seen) && Honest(w, d, BooksChanged(c, step))
    ensures Settled(w, d.(books := BillingRuns.Apply(c, d.books, step)), Seen(seen, StepProved(c, d.books, step)))
  {
    var t, now := step.t, step.now;
    SaneAt(d.books, t);
    if c.enabled && d.books.accounts[t].lastMetered.Some? {
      var cost := MonthlyCost(c, step.users, step.bytes);
      AccrueBalances(d.books, t, now, cost);
      BillingRuns.AccrueIsPost(d.books, t, now, cost);
      hide Settled, Balanced, Accrue, Reload, Pause, Warn, MonthlyCost;
      var b1 := Accrue(d.books, t, now, cost);
      PlainSettles(w, d, seen, b1);
      ReloadSettles(w, d.(books := b1), seen, c, t, now, step.reply);
      var d2 := d.(books := Reload(c, b1, t, now, step.reply));
      PauseWarnPlain(d2.books, t, now);
      PauseWarnBalances(d2.books, t, now);
      PlainSettles(w, d2, Seen(seen, StepProved(c, d.books, step)), Warn(Pause(d2.books, t, now), t, now));
    } else {
      MeterBalances(c, d.books, t, now, step.users, step.bytes, step.reply);
      hide Settled, Balanced;
      PlainSettles(w, d, seen, BillingRuns.Apply(c, d.books, step));
    }
  }

  lemma PauseWarnPlain(b: Books, t: Tenant, now: int)
    requires t in b.accounts
    ensures Warn(Pause(b, t, now), t, now).ledger == b.ledger
  {
  }

  function ReloadProved(c: Config, b: Books, t: Tenant, now: int, reply: Reply): Option<string>
    requires t in b.accounts
  {
    if ReloadAccepted(c, b.accounts[t], now, reply) then Some(reply.id) else None
  }

  lemma ReloadSettles(w: Rails, d: Desk, seen: set<string>, c: Config, t: Tenant, now: int, reply: Reply)
    requires Settled(w, d, seen) && t in d.books.accounts
    requires ReloadAccepted(c, d.books.accounts[t], now, reply) ==> w.claim(reply.id) == Claim(t, d.books.accounts[t].reloadAmount)
    ensures Settled(w, d.(books := Reload(c, d.books, t, now, reply)), Seen(seen, ReloadProved(c, d.books, t, now, reply)))
  {
    var a := d.books.accounts[t];
    if ReloadAccepted(c, a, now, reply) {
      hide Settled, Credit;
      CreditSettles(w, d, seen, t, a.reloadAmount, reply.id);
    } else {
      ReloadBalances(c, d.books, t, now, reply);
      hide Settled, Credit;
      PlainSettles(w, d, seen, Reload(c, d.books, t, now, reply));
    }
  }

  /** A completed payment's reference is in the books. */
  lemma AlreadySeen(w: Rails, d: Desk, seen: set<string>, key: string)
    requires Settled(w, d, seen) && key in d.payments && d.payments[key].status.Completed?
    ensures seen + {w.refOf(key)} == seen
  {
    hide Balanced, RefUsed, Worth;
  }

  lemma CheckoutSettles(w: Rails, d: Desk, seen: set<string>, key: string, c: Checkout)
    requires Settled(w, d, seen) && Honest(w, d, CheckoutPaid(key, c))
    ensures Settled(w, SettleCheckout(d, key, c), Seen(seen, Proved(d, CheckoutPaid(key, c))))
  {
    assert Balanced(d.books);
    hide Settled, Balanced, Complete, AttachCard;
    if Proved(d, CheckoutPaid(key, c)).Some? {
      var p := d.payments[key];
      if p.status.Completed? {
        AlreadySeen(w, d, seen, key);
      } else if p.saveCard {
        KeepCardSettles(w, d, seen, p.tenant, c.customer, c.card.value);
        AttachKeepsAccounts(d.books, p.tenant, c.customer, c.card.value);
        CompleteSettles(w, d.(books := AttachCard(d.books, p.tenant, c.customer, c.card.value)), seen, key, c.intent.value);
      } else {
        CompleteSettles(w, d, seen, key, c.intent.value);
      }
    }
  }

  lemma AttachKeepsAccounts(b: Books, t: Tenant, customer: Option<string>, card: string)
    requires t in b.accounts
    ensures AttachCard(b, t, customer, card).accounts.Keys == b.accounts.Keys
  {
  }

  lemma ConfirmSettles(w: Rails, d: Desk, seen: set<string>, key: string, r: CryptoReply)
    requires Settled(w, d, seen) && Honest(w, d, CryptoNotice(key, r))
    ensures Settled(w, Confirm(d, key, r), Seen(seen, Proved(d, CryptoNotice(key, r))))
  {
    hide Settled, Complete;
    if Known(d, Crypto, key) {
      var p := d.payments[key];
      if p.status.Completed? {
        AlreadySeen(w, d, seen, key);
      } else if CryptoIdentity(key, p, r) {
        if r.status.Paid? {
          CompleteSettles(w, d, seen, key, key);
        } else if r.status.TimedOut? {
          StatusSettles(w, d, seen, key, p.(status := Expired));
        }
      }
    }
  }

  // -------------------------------------------------------------------- any run

  lemma CompleteBalances(d: Desk, key: string, ref: string)
    requires Balanced(d.books) && key in d.payments && d.payments[key].tenant in d.books.accounts
    ensures Balanced(Complete(d, key, ref).books)
  {
    hide Balanced, Credit;
    var p := d.payments[key];
    if Credit(d.books, p.tenant, p.amount, TopUp, Some(ref)).Ok? {
      CreditBalances(d.books, p.tenant, p.amount, TopUp, Some(ref));
    }
  }

  lemma CheckoutBalances(d: Desk, key: string, c: Checkout)
    requires Balanced(d.books)
    ensures Balanced(SettleCheckout(d, key, c).books)
  {
    hide Balanced, Complete, AttachCard, RefUsed;
    if SettleCheckout(d, key, c) != d {
      var p := d.payments[key];
      if p.saveCard {
        CardBalances(d.books, p.tenant, c.customer, c.card.value);
        AttachKeepsAccounts(d.books, p.tenant, c.customer, c.card.value);
        CompleteBalances(d.(books := AttachCard(d.books, p.tenant, c.customer, c.card.value)), key, c.intent.value);
      } else {
        CompleteBalances(d, key, c.intent.value);
      }
    }
  }

  /** Every event keeps the books balanced, also one that the rails do not vouch for. */
  lemma HandleBalances(d: Desk, e: Event)
    requires Balanced(d.books)
    ensures Balanced(Handle(d, e).books)
  {
    hide Balanced, Complete, SettleCheckout, Credit, AmountMatches, BillingRuns.Apply;
    match e
    case NewPayment(key, p) =>
    case CheckoutPaid(key, c) => CheckoutBalances(d, key, c);
    case IntentSucceeded(t, amount, currencyOk, ref) =>
      if t in d.books.accounts && Credit(d.books, t, amount, TopUp, Some(ref)).Ok? {
        CreditBalances(d.books, t, amount, TopUp, Some(ref));
      }
    case PayPalReturn(key, o) =>
      if Known(d, PayPal, key) && o.Order? && o.capture.Some? && o.capture.value.id.Some? {
        CompleteBalances(d, key, o.capture.value.id.value);
      }
    case PayPalNotice(captureId, order, fetched) =>
      if order.Some? && Known(d, PayPal, order.value) { CompleteBalances(d, order.value, captureId); }
    case CryptoNotice(key, r) => if Known(d, Crypto, key) { CompleteBalances(d, key, key); }
    case CryptoPoll(key, now, r) => if Known(d, Crypto, key) { CompleteBalances(d, key, key); }
    case BooksChanged(c, step) => BillingRuns.StepBalances(c, d.books, step);
  }

  ghost function Run(d: Desk, events: seq<Event>): (r: Desk)
    requires Balanced(d.books)
    ensures Balanced(r.books)
  {
    hide Balanced, Handle;
    if events == [] then d
    else
      HandleBalances(Run(d, events[..|events| - 1]), events[|events| - 1]);
      Handle(Run(d, events[..|events| - 1]), events[|events| - 1])
  }

  /** The references proved in a run. */
  ghost function ProvedIn(d: Desk, events: seq<Event>): set<string>
    requires Balanced(d.books)
  {
    hide Balanced, Handle, Proved;
    if events == [] then {}
    else
      Seen(ProvedIn(d, events[..|events| - 1]), Proved(Run(d, events[..|events| - 1]), events[|events| - 1]))
  }

  ghost predicate HonestRun(w: Rails, d: Desk, events: seq<Event>)
    requires Balanced(d.books)
  {
    hide Balanced, Handle, Honest;
    events == []
    || (HonestRun(w, d, events[..|events| - 1])
        && Honest(w, Run(d, events[..|events| - 1]), events[|events| - 1]))
  }

  /** A desk without provider references in its books. */
  ghost predicate Unpaid(d: Desk) {
    && Balanced(d.books) && (forall e :: e in d.books.ledger ==> e.ref.None?)
    && forall key :: key in d.payments ==> !d.payments[key].status.Completed?
  }

  lemma {:induction false} NothingReferenced(ledger: seq<Entry>, t: Tenant)
    requires forall e :: e in ledger ==> e.ref.None?
    ensures Referenced(ledger, t) == 0
  {
    if ledger != [] {
      NothingReferenced(ledger[..|ledger| - 1], t);
    }
  }

  lemma UnpaidIsSettled(w: Rails, d: Desk)
    requires Unpaid(d)
    ensures Settled(w, d, {})
  {
    hide Balanced, Referenced;
    forall t
      ensures Referenced(d.books.ledger, t) == Worth(w, {}, t)
    {
      NothingReferenced(d.books.ledger, t);
    }
  }

  lemma {:induction false} RunSettles(w: Rails, d: Desk, events: seq<Event>)
    requires Unpaid(d) && HonestRun(w, d, events)
    ensures Settled(w, Run(d, events), ProvedIn(d, events))
  {
    hide Settled, Honest, Handle, Proved, Balanced;
    if events == [] {
      UnpaidIsSettled(w, d);
    } else {
      var before, last := events[..|events| - 1], events[|events| - 1];
      RunSettles(w, d, before);
      HandleSettles(w, Run(d, before), ProvedIn(d, before), last);
    }
  }

  /** In whatever order and however often payments are reported, and whatever else
      happens to the books between, the referenced entries of a tenant add up to
      what the distinct references that were proved are worth, and the balance is
      that and its other entries. */
  lemma EachReferencePaysOnce(w: Rails, d: Desk, events: seq<Event>, t: Tenant)
    requires Unpaid(d) && HonestRun(w, d, events)
    ensures Referenced(Run(d, events).books.ledger, t) == Worth(w, ProvedIn(d, events), t)
    ensures t in Run(d, events).books.accounts ==>
      Run(d, events).books.accounts[t].balance
      == Plain(Run(d, events).books.ledger, t) + Worth(w, ProvedIn(d, events), t)
  {
    RunSettles(w, d, events);
    SumIsBoth(Run(d, events).books.ledger, t);
    hide Unpaid, HonestRun, Run, ProvedIn, Sum, Plain, Referenced, Worth, RefUsed, Chained, RefsDistinct;
  }

  predicate ReportsOnly(events: seq<Event>) {
    forall e :: e in events ==> !e.BooksChanged?
  }

  /** A report adds one entry at most, and that with a reference. */
  predicate ReferencedGrowth(ledger: seq<Entry>, ledger': seq<Entry>) {
    ledger' == ledger
    || (|ledger'| == |ledger| + 1 && ledger'[..|ledger|] == ledger && ledger'[|ledger|].ref.Some?)
  }

  lemma CheckoutGrows(d: Desk, key: string, c: Checkout)
    ensures ReferencedGrowth(d.books.ledger, SettleCheckout(d, key, c).books.ledger)
    ensures SettleCheckout(d, key, c).books.accounts.Keys == d.books.accounts.Keys
  {
    hide RefUsed, CheckoutMatches;
  }

  lemma ReportGrows(d: Desk, e: Event)
    requires Balanced(d.books) && !e.BooksChanged?
    ensures ReferencedGrowth(d.books.ledger, Handle(d, e).books.ledger)
    ensures Handle(d, e).books.accounts.Keys == d.books.accounts.Keys
  {
    hide RefUsed, CryptoIdentity, CaptureMatches, Balanced, SettleCheckout;
    if e.CheckoutPaid? {
      CheckoutGrows(d, e.key, e.checkout);
    }
  }

  lemma {:induction false} ReportsKeepPlain(d: Desk, events: seq<Event>, t: Tenant)
    requires Balanced(d.books) && ReportsOnly(events)
    ensures Plain(Run(d, events).books.ledger, t) == Plain(d.books.ledger, t)
    ensures Run(d, events).books.accounts.Keys == d.books.accounts.Keys
  {
    hide Handle, Plain, Balanced;
    if events != [] {
      var before, last := events[..|events| - 1], events[|events| - 1];
      ReportsKeepPlain(d, before, t);
      var ledger, ledger' := Run(d, before).books.ledger, Run(d, events).books.ledger;
      ReportGrows(Run(d, before), last);
      if ledger' != ledger {
        assert ledger' == ledger + [ledger'[|ledger|]];
        ReferencedAppend(ledger, ledger'[|ledger|], t);
      }
    }
  }

  /** When nothing but reports comes in, each balance rises by exactly the worth of
      the references proved. */
  lemma ReportsRaiseByWorth(w: Rails, d: Desk, events: seq<Event>, t: Tenant)
    requires Unpaid(d) && HonestRun(w, d, events) && ReportsOnly(events) && t in d.books.accounts
    ensures t in Run(d, events).books.accounts
    ensures Run(d, events).books.accounts[t].balance == d.books.accounts[t].balance + Worth(w, ProvedIn(d, events), t)
  {
    EachReferencePaysOnce(w, d, events, t);
    ReportsKeepPlain(d, events, t);
    SumIsBoth(d.books.ledger, t);
    NothingReferenced(d.books.ledger, t);
    hide HonestRun, Run, ProvedIn, Sum, Plain, Referenced, Worth, Chained, RefsDistinct, ReportsOnly;
  }

  /** Only what was proved counts: two histories that prove the same references have
      the same referenced sums, and differ in balances by their other entries. */
  lemma OrderIsIrrelevant(w: Rails, d: Desk, events: seq<Event>, events': seq<Event>, t: Tenant)
    requires Unpaid(d) && HonestRun(w, d, events) && HonestRun(w, d, events')
    requires ProvedIn(d, events) == ProvedIn(d, events')
    ensures
      var b, b' := Run(d, events).books, Run(d, events').books;
      && Referenced(b.ledger, t) == Referenced(b'.ledger, t)
      && (t in b.accounts && t in b'.accounts ==>
            b.accounts[t].balance - b'.accounts[t].balance == Plain(b.ledger, t) - Plain(b'.ledger, t))
  {
    hide Unpaid, HonestRun, Run, ProvedIn, Worth, Referenced, Plain;
    EachReferencePaysOnce(w, d, events, t);
    EachReferencePaysOnce(w, d, events', t);
  }

  /** No event changes a completed payment. */
  lemma CompletedStays(d: Desk, e: Event, key: string)
    requires Balanced(d.books) && key in d.payments && d.payments[key].status.Completed?
    requires e.NewPayment? ==> e.key != key
    ensures key in Handle(d, e).payments && Handle(d, e).payments[key] == d.payments[key]
  {
    hide RefUsed, AmountMatches, AttachCard, Credit, Balanced, BillingRuns.Apply;
  }

  /** An expired payment is completed, and credited, when it turns out to be paid. */
  lemma ExpiredMayComplete(w: Rails, d: Desk, seen: set<string>, key: string, r: CryptoReply)
    requires Settled(w, d, seen) && Known(d, Crypto, key) && d.payments[key].status.Expired?
    requires CryptoIdentity(key, d.payments[key], r) && r.status.Paid? && key !in seen
    requires key != "" && w.claim(key) == Claim(d.payments[key].tenant, d.payments[key].amount)
    ensures Completes(d, Handle(d, CryptoNotice(key, r)), key)
  {
    hide Balanced, Worth, AmountMatches, Referenced;
    assert !RefUsed(d.books.ledger, key);
    hide RefUsed;
  }

  /** The payment is completed and its amount added to the balance. */
  predicate Completes(d: Desk, d': Desk, key: string) {
    && Known(d, Crypto, key) && key in d'.payments && d'.payments[key].status.Completed?
    && var p := d.payments[key];
       p.tenant in d'.books.accounts && d'.books.accounts[p.tenant].balance == d.books.accounts[p.tenant].balance + p.amount
  }
}
