/** The payment rails as they write: a payment's status and the account's books. */
module PaymentDesk {
  import opened Outcomes
  import opened Billing
  import opened Payments

  class PaymentRails {
    var books: Books
    var payments: map<string, Payment>

    constructor (books: Books)
      ensures State() == Desk(books, map[])
    {
      this.books, payments := books, map[];
    }

    ghost function State(): Desk
      reads this
    {
      Desk(books, payments)
    }

    method LockedPayment(provider: Provider, key: string) returns (p: Option<Payment>)
      ensures p.Some? <==> Known(State(), provider, key)
      ensures p.Some? ==> p.value == payments[key]
    {
      if key in payments && payments[key].provider == provider && payments[key].tenant in books.accounts {
        return Some(payments[key]);
      }
      return None;
    }

    /** The result says whether the call is to be committed. */
    method CompletePayment(key: string, ref: string) returns (ok: bool)
      requires key in payments && payments[key].tenant in books.accounts
      modifies this
      ensures State() == Complete(old(State()), key, ref)
      ensures ok <==> old(payments)[key].status.Completed? || !Rejects(old(books), ref)
      ensures !ok ==> payments == old(payments)
    {
      hide RefUsed, Fund;
      var p := payments[key];
      if p.status.Completed? {
        return true;
      }
      var credited := Credit(books, p.tenant, p.amount, TopUp, Some(ref));
      if credited.Err? {
        return false;
      }
      books := credited.value;
      payments := payments[key := p.(status := Completed)];
      return true;
    }

    method ConfirmCrypto(key: string, r: CryptoReply)
      modifies this
      ensures State() == Confirm(old(State()), key, r)
    {
      hide AmountMatches, Complete;
      var p := LockedPayment(Crypto, key);
      if p.None? || p.value.status.Completed? || !CryptoIdentity(key, p.value, r) {
        return;
      }
      if r.status.Paid? {
        var _ := CompletePayment(key, key);
      } else if r.status.TimedOut? {
        payments := payments[key := p.value.(status := Expired)];
      }
    }

    method ExpirePending(key: string)
      modifies this
      ensures State()
           == if Known(old(State()), Crypto, key) && old(payments)[key].status.Pending? then
                old(State()).(payments := old(payments)[key := old(payments)[key].(status := Expired)])
              else old(State())
    {
      var p := LockedPayment(Crypto, key);
      if p.Some? && p.value.status.Pending? {
        payments := payments[key := p.value.(status := Expired)];
      }
    }

    /** Poll the payments that were pending when the poll began; the failure of one
        does not stop the others. */
    method PollPending(keys: seq<string>, now: int, replies: string -> CryptoReply)
      modifies this
      ensures State() == Poll(old(State()), keys, now, replies)
    {
      hide Confirm;
      ghost var start := State();
      for i := 0 to |keys|
        invariant State() == Poll(start, keys[..i], now, replies)
      {
        assert keys[..i + 1][..i] == keys[..i];
        if keys[i] in payments {
          if payments[keys[i]].createdAt < now - 172800000000 {
            ExpirePending(keys[i]);
          } else {
            ConfirmCrypto(keys[i], replies(keys[i]));
          }
        }
      }
      assert keys[..|keys|] == keys;
    }

    method HandleCheckout(key: string, c: Checkout)
      modifies this
      ensures State() == SettleCheckout(old(State()), key, c)
    {
      hide Complete, RefUsed;
      if !c.paid {
        return;
      }
      var p := LockedPayment(Stripe, key);
      if p.None? || !CheckoutMatches(p.value, books.accounts[p.value.tenant], c) || p.value.status.Completed? {
        return;
      }
      var before := books;
      if p.value.saveCard {
        if c.card.None? {
          return;
        }
        books := AttachCard(books, p.value.tenant, c.customer, c.card.value);
      }
      var ok := CompletePayment(key, c.intent.value);
      if !ok {
        books := before;
      }
    }

    method HandleIntent(t: Tenant, amount: int, currencyOk: bool, ref: string)
      modifies this
      ensures State() == SettleIntent(old(State()), t, amount, currencyOk, ref)
    {
      hide Credit;
      if t !in books.accounts || !currencyOk || amount <= 0 {
        return;
      }
      var credited := Credit(books, t, amount, TopUp, Some(ref));
      if credited.Ok? {
        books := credited.value;
      }
    }

    method CompleteCaptured(key: string, c: Capture)
      requires key in payments && payments[key].tenant in books.accounts
      modifies this
      ensures State() == CompleteCapture(old(State()), key, c)
    {
      hide Complete, AmountMatches;
      if CaptureMatches(payments[key], c) {
        var _ := CompletePayment(key, c.id.value);
      }
    }

    method CapturePayPal(key: string, o: OrderReply)
      modifies this
      ensures State() == ReturnFromPayPal(old(State()), key, o)
    {
      hide CompleteCapture;
      var p := LockedPayment(PayPal, key);
      if p.None? || p.value.status.Completed? {
        return;
      }
      if o.NoOrder? || o.id != key || !o.completed || o.referenceId != p.value.id || o.capture.None? {
        return;
      }
      CompleteCaptured(key, o.capture.value);
    }

    method HandlePayPalNotice(captureId: string, order: Option<string>, fetched: Option<Capture>)
      modifies this
      ensures State() == NoticeFromPayPal(old(State()), captureId, order, fetched)
    {
      hide CompleteCapture;
      if fetched.None? || fetched.value.id != Some(captureId) || order.None? {
        return;
      }
      var p := LockedPayment(PayPal, order.value);
      if p.Some? {
        CompleteCaptured(order.value, fetched.value);
      }
    }
  }

  /** A poll is a run of single polls. */
  lemma {:induction false} PollIsRun(d: Desk, keys: seq<string>, now: int, replies: string -> CryptoReply)
    requires Balanced(d.books)
    ensures Poll(d, keys, now, replies)
         == Run(d, seq(|keys|, i requires 0 <= i < |keys| => CryptoPoll(keys[i], now, replies(keys[i]))))
  {
    hide PollOne, Balanced;
    if keys != [] {
      var rest := keys[..|keys| - 1];
      PollIsRun(d, rest, now, replies);
      var events := seq(|keys|, i requires 0 <= i < |keys| => CryptoPoll(keys[i], now, replies(keys[i])));
      assert events[..|keys| - 1] == seq(|rest|, i requires 0 <= i < |rest| => CryptoPoll(rest[i], now, replies(rest[i])));
    }
  }
}
