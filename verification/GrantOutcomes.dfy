/**
 What a single request of the paid layer comes to, whatever the payment backend answers: the
 table it leaves and its answer, in the rows and prices themselves.
 */
module GrantOutcomes {
  import opened Wrappers
  import opened Text
  import opened Grants
  import opened GrantRuns
  import Hex

  /** The same step of `ensure_paid` for another caller. */
  function For(caller: Caller, p: Proc): Proc {
    match p
    case EnsureRead(_, key, outside) => EnsureRead(caller, key, outside)
    case Poll(_, key, grant, outside) => Poll(caller, key, grant, outside)
    case Promote(_, key, invoice) => Promote(caller, key, invoice)
    case Create(_, key, outside) => Create(caller, key, outside)
    case Put(_, key, created) => Put(caller, key, created)
    case _ => p
  }

  /** A step of `ensure_paid` made for a quote of `key`. */
  predicate Quoting(p: Proc, key: Key) {
    match p
    case EnsureRead(caller, k, _) => caller == ForQuote && k == key
    case Poll(caller, k, _, _) => caller == ForQuote && k == key
    case Promote(caller, k, _) => caller == ForQuote && k == key
    case Create(caller, k, _) => caller == ForQuote && k == key
    case Put(caller, k, _) => caller == ForQuote && k == key
    case _ => false
  }

  lemma ForStep(cfg: Config, l: Ledger, p: Proc, caller: Caller, key: Key)
    requires Quoting(p, key)
    ensures var (m, q) := Step(cfg, l, p);
            && (q.Done? || Quoting(q, key))
            && Step(cfg, l, For(caller, p)) == (m, if q.Done? then Return(caller, key, q.answer) else For(caller, q))
  {
  }

  /** `ensure_paid` does not depend on its caller; what follows does. */
  lemma {:induction false} CallerTakesOver(cfg: Config, l: Ledger, p: Proc, caller: Caller, key: Key)
    requires Quoting(p, key)
    ensures var (m, outcome) := Solo(cfg, l, p);
            Solo(cfg, l, For(caller, p)) == Solo(cfg, m, Return(caller, key, outcome))
    decreases Rank(p)
  {
    var (m, q) := Step(cfg, l, p);
    ForStep(cfg, l, p, caller, key);
    Unfold(cfg, l, p);
    Unfold(cfg, l, For(caller, p));
    StepDescends(cfg, l, p);
    if !q.Done? {
      CallerTakesOver(cfg, m, q, caller, key);
    }
  }

  /** A webhook promotes exactly the rows of an invoice it found pending and polled paid. */
  lemma HookOutcome(cfg: Config, l: Ledger, invoice: Invoice, pendingFirst: bool, poll: PollAnswer)
    ensures Solo(cfg, l, HookRead(invoice, pendingFirst, poll)) ==
            (if cfg.mode != Off && ReadsPending(l, invoice, pendingFirst) && poll == SaysPaid
             then MarkPaid(Report(l, invoice), invoice) else l, Acknowledged)
  {
    Unfold(cfg, l, HookRead(invoice, pendingFirst, poll));
    Unfold(cfg, l, HookPoll(invoice, poll));
    Unfold(cfg, Report(l, invoice), HookPromote(invoice));
  }

  // ---------------------------------------------------------------------------
  // `ensure_paid`

  /** The two resources have their own prices; anything else is free. */
  ghost predicate CostsAt(cfg: Config, resource: string, price: nat) {
    && (resource == "name" ==> price == cfg.prices.name)
    && (resource == "write" ==> price == cfg.prices.write)
    && (resource != "name" && resource != "write" ==> price == 0)
  }

  /** A new invoice at the resource's price is pending for the key; without one nothing changes. */
  ghost predicate Invoiced(cfg: Config, l: Ledger, key: Key, created: Option<NewInvoice>, m: Ledger, outcome: Answer) {
    if created.None? then m == l && outcome == Unavailable
    else
      var id, url := created.value.id, created.value.payUrl;
      exists price ::
        && CostsAt(cfg, key.resource, price) && outcome == PaymentDue(id, url, price)
        && m == l.(issued := l.issued + {id}, grants := l.grants[key := Grant(id, url, price, Pending)])
  }

  /** Every row with the invoice is paid, the others are as they were; the promotions are counted. */
  ghost predicate Settles(l: Ledger, invoice: Invoice, m: Ledger) {
    && m.issued == l.issued && m.registrations == l.registrations
    && m.reported == l.reported + {invoice} && m.promoted == l.promoted + {invoice}
    && m.grants.Keys == l.grants.Keys
    && (forall k | k in l.grants ::
          m.grants[k] == if l.grants[k].invoice == invoice then l.grants[k].(status := Paid) else l.grants[k])
    && (forall k :: m.promotions[k] == l.promotions[k] +
          if k in l.grants && l.grants[k].invoice == invoice && l.grants[k].status == Pending then 1 else 0)
  }

  /** The row as it is quoted. */
  ghost predicate Quotes(grant: Grant, outcome: Answer) {
    outcome == PaymentDue(grant.invoice, grant.payUrl, grant.amount)
  }

  /**
   What asking for the payment of a key comes to. A paid grant is paid. A pending one is
   polled unless throttled: "paid" settles its invoice, "expired" replaces it, any other
   answer and none at all leave it due.
   */
  ghost predicate Ensures(cfg: Config, l: Ledger, key: Key, outside: Outside, m: Ledger, outcome: Answer) {
    if key !in l.grants then Invoiced(cfg, l, key, outside.created, m, outcome)
    else
      var grant := l.grants[key];
      if grant.status == Paid then m == l && outcome == PaidYes
      else if outside.throttled then m == l && Quotes(grant, outcome)
      else match outside.poll
        case SaysPaid => Settles(l, grant.invoice, m) && outcome == PaidYes
        case SaysExpired => Invoiced(cfg, l, key, outside.created, m, outcome)
        case SaysOpen => m == l && Quotes(grant, outcome)
        case Unreachable => m == l && Quotes(grant, outcome)
  }

  lemma CreateOutcome(cfg: Config, l: Ledger, key: Key, outside: Outside)
    ensures var (m, outcome) := Solo(cfg, l, Create(ForQuote, key, outside));
            Invoiced(cfg, l, key, outside.created, m, outcome)
  {
    Unfold(cfg, l, Create(ForQuote, key, outside));
    if outside.created.Some? {
      var created := outside.created.value;
      Unfold(cfg, Issue(l, created.id), Put(ForQuote, key, created));
      assert CostsAt(cfg, key.resource, Price(cfg, key.resource));
    }
  }

  lemma MarkSettles(l: Ledger, key: Key, invoice: Invoice)
    requires key in l.grants && l.grants[key].invoice == invoice && l.grants[key].status == Pending
    ensures Settles(l, invoice, MarkPaid(Report(l, invoice), invoice))
  {
    var r := Report(l, invoice);
    assert key in Promotable(r, invoice);
    forall k
      ensures MarkPaid(r, invoice).promotions[k] == l.promotions[k] +
        if k in l.grants && l.grants[k].invoice == invoice && l.grants[k].status == Pending then 1 else 0
    {
      assert k in Promotable(r, invoice) <==>
             k in l.grants && l.grants[k].invoice == invoice && l.grants[k].status == Pending;
    }
  }

  lemma EnsureOutcome(cfg: Config, l: Ledger, key: Key, outside: Outside)
    ensures var (m, outcome) := Solo(cfg, l, EnsureRead(ForQuote, key, outside));
            Ensures(cfg, l, key, outside, m, outcome)
  {
    Unfold(cfg, l, EnsureRead(ForQuote, key, outside));
    if key !in l.grants {
      CreateOutcome(cfg, l, key, outside);
    } else if l.grants[key].status == Pending && !outside.throttled {
      var grant := l.grants[key];
      Unfold(cfg, l, Poll(ForQuote, key, grant, outside));
      match outside.poll
      case SaysPaid =>
        Unfold(cfg, Report(l, grant.invoice), Promote(ForQuote, key, grant.invoice));
        MarkSettles(l, key, grant.invoice);
      case SaysExpired => CreateOutcome(cfg, l, key, outside);
      case _ =>
    }
  }

  // ---------------------------------------------------------------------------
  // Whole requests

  /** What is sold, and under which setting. */
  ghost predicate Sold(mode: PayMode, resource: string) {
    (mode.NameMode? && resource == "name") || (mode.WriteMode? && resource == "write")
  }

  /** A quote of what is not sold is refused; any other asks for the payment. */
  lemma QuoteOutcome(cfg: Config, l: Ledger, pubkey: Pubkey, resource: string, outside: Outside)
    ensures var (m, answer) := Handle(cfg, l, Quote(pubkey, resource, outside));
            if Sold(cfg.mode, resource) then Ensures(cfg, l, Key(pubkey, resource), outside, m, answer)
            else m == l && answer == Refused
  {
    EnsureOutcome(cfg, l, Key(pubkey, resource), outside);
  }

  /** The status of a malformed key is not told; without write access for sale every other key is paid. */
  ghost predicate StatusIs(cfg: Config, l: Ledger, pubkey: Pubkey, outside: Outside, m: Ledger, paid: Option<bool>) {
    var key := Key(Lower(pubkey), "write");
    if !Hex.ValidPubkey(Lower(pubkey)) then m == l && paid == None
    else if !cfg.mode.WriteMode? then m == l && paid == Some(true)
    else if key !in l.grants then m == l && paid == Some(false)
    else exists outcome :: Ensures(cfg, l, key, outside, m, outcome) && paid == Some(outcome == PaidYes)
  }

  lemma StatusOutcome(cfg: Config, l: Ledger, pubkey: Pubkey, outside: Outside)
    ensures var (m, answer) := Handle(cfg, l, Status(pubkey, outside));
            StatusIs(cfg, l, pubkey, outside, m, if answer == NotFound then None else Some(answer == PaidYes))
  {
    var key := WriteKey(Lower(pubkey));
    Unfold(cfg, l, StatusRead(key, outside));
    if key in l.grants && l.grants[key].status == Pending {
      EnsureOutcome(cfg, l, key, outside);
      CallerTakesOver(cfg, l, EnsureRead(ForQuote, key, outside), ForStatus, key);
      StatusKinds(cfg, l, key, outside);
    } else if key in l.grants {
      assert Ensures(cfg, l, key, outside, l, PaidYes);
    }
  }

  /** A registration made is counted, and in name mode the grant is gone. */
  ghost predicate Enters(cfg: Config, l: Ledger, pubkey: Pubkey, acquired: bool, m: Ledger, answer: Answer) {
    var key := Key(pubkey, "name");
    if !acquired then m == l && answer == Refused
    else
      && answer == Registered
      && m == l.(registrations := l.registrations + multiset{key},
                 grants := if cfg.mode.NameMode? then l.grants - {key} else l.grants)
  }

  /** A registration asks for the payment in name mode, and goes on exactly when it is paid. */
  ghost predicate RegisterIs(cfg: Config, l: Ledger, pubkey: Pubkey, available: bool, acquired: bool, outside: Outside,
                             m: Ledger, answer: Answer) {
    if !available then m == l && answer == Refused
    else if !cfg.mode.NameMode? then Enters(cfg, l, pubkey, acquired, m, answer)
    else exists paid, outcome ::
      && Ensures(cfg, l, Key(pubkey, "name"), outside, paid, outcome)
      && if outcome == PaidYes then Enters(cfg, paid, pubkey, acquired, m, answer) else m == paid && answer == outcome
  }

  lemma UpsertOutcome(cfg: Config, l: Ledger, pubkey: Pubkey, acquired: bool)
    ensures var (m, answer) := Solo(cfg, l, Upsert(pubkey, acquired)); Enters(cfg, l, pubkey, acquired, m, answer)
  {
    Unfold(cfg, l, Upsert(pubkey, acquired));
    if acquired && cfg.mode == NameMode {
      var key := NameKey(pubkey);
      Unfold(cfg, RecordRegistration(l, pubkey), Consume(pubkey));
      assert (map k | k in l.grants && k != key :: l.grants[k]) == l.grants - {key};
    }
  }

  lemma RegisterOutcome(cfg: Config, l: Ledger, pubkey: Pubkey, available: bool, acquired: bool, outside: Outside)
    ensures var (m, answer) := Handle(cfg, l, Register(pubkey, available, acquired, outside));
            RegisterIs(cfg, l, pubkey, available, acquired, outside, m, answer)
  {
    if available && cfg.mode == NameMode {
      var key := NameKey(pubkey);
      var (paid, outcome) := Solo(cfg, l, EnsureRead(ForQuote, key, outside));
      EnsureOutcome(cfg, l, key, outside);
      CallerTakesOver(cfg, l, EnsureRead(ForQuote, key, outside), ForRegister(acquired), key);
      UpsertOutcome(cfg, paid, pubkey, acquired);
    } else {
      UpsertOutcome(cfg, l, pubkey, acquired);
    }
  }

  /** For a pending grant that is not throttled, the row becomes paid exactly when the backend says paid. */
  lemma PaidIffReported(cfg: Config, l: Ledger, key: Key, outside: Outside, m: Ledger, outcome: Answer)
    requires key in l.grants && l.grants[key].status == Pending && !outside.throttled
    requires Ensures(cfg, l, key, outside, m, outcome)
    ensures key in m.grants
    ensures outside.poll == SaysPaid <==> outcome == PaidYes
    ensures outside.poll == SaysPaid <==> m.grants[key].status == Paid
  {
  }

  /** A pending grant holds the invoice. */
  ghost predicate Awaited(l: Ledger, invoice: Invoice) {
    exists k :: k in l.grants && l.grants[k].invoice == invoice && l.grants[k].status == Pending
  }

  /** A signed webhook settles an awaited invoice that the backend says is paid, and else changes nothing. */
  ghost predicate WebhookIs(cfg: Config, l: Ledger, invoice: Invoice, signed: bool, poll: PollAnswer,
                            m: Ledger, answer: Answer) {
    && answer == (if signed then Acknowledged else Refused)
    && if signed && !cfg.mode.Off? && Awaited(l, invoice) && poll == SaysPaid then Settles(l, invoice, m) else m == l
  }

  lemma WebhookOutcome(cfg: Config, l: Ledger, invoice: Invoice, signed: bool, pendingFirst: bool, poll: PollAnswer)
    requires Distinct(l)
    ensures var (m, answer) := Handle(cfg, l, Webhook(invoice, signed, pendingFirst, poll));
            WebhookIs(cfg, l, invoice, signed, poll, m, answer)
  {
    HookOutcome(cfg, l, invoice, pendingFirst, poll);
    HookReadsIff(l, invoice, pendingFirst);
    if Awaited(l, invoice) {
      var k :| k in l.grants && l.grants[k].invoice == invoice && l.grants[k].status == Pending;
      MarkSettles(l, k, invoice);
    }
  }
}
