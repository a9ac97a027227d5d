/**
 The paid layer as the program has it: a table of grants changed in place, and handlers that
 run statement after statement. Every handler is proved to do what its steps in `Grants` do
 when nothing comes between them. The ghost fields record the history the ledger answers for.
 */
module GrantTable {
  import opened Wrappers
  import opened Text
  import opened Grants
  import opened GrantRuns
  import opened GrantOutcomes
  import Hex

  lemma NothingToMark(l: Ledger, invoice: Invoice)
    requires Promotable(l, invoice) == {}
    ensures MarkPaid(l, invoice) == l
  {
    assert MarkPaid(l, invoice).grants == l.grants;
  }

  class App {
    const cfg: Config
    var grants: map<Key, Grant>
    ghost var issued: set<Invoice>
    ghost var reported: set<Invoice>
    ghost var promotions: multiset<Key>
    ghost var promoted: set<Invoice>
    ghost var registrations: multiset<Key>

    ghost function Entries(): Ledger
      reads this
    {
      Ledger(grants, issued, reported, promotions, promoted, registrations)
    }

    /** Paid grants are backed, and in name mode promotions and registrations are in balance. */
    ghost predicate Valid()
      reads this
    {
      Sound(cfg, Entries())
    }

    constructor (cfg: Config)
      ensures Valid() && Entries() == NOTHING && this.cfg == cfg
    {
      this.cfg := cfg;
      grants := map[];
      issued, reported, promotions, promoted, registrations := {}, {}, multiset{}, {}, multiset{};
    }

    // -------------------------------------------------------------------------
    // Statements

    method FetchGrant(key: Key) returns (r: Option<Grant>)
      ensures r == if key in grants then Some(grants[key]) else None
    {
      r := if key in grants then Some(grants[key]) else None;
    }

    method PutPendingGrant(key: Key, invoice: NewInvoice, amount: nat)
      modifies this
      ensures Entries() == PutPending(old(Entries()), key, invoice, amount)
    {
      grants := grants[key := Grant(invoice.id, invoice.payUrl, amount, Pending)];
    }

    method MarkGrantPaid(invoice: Invoice) returns (changed: bool)
      modifies this
      ensures Entries() == MarkPaid(old(Entries()), invoice)
      ensures changed <==> Entries() != old(Entries())
    {
      var rows := set k | k in grants && grants[k].invoice == invoice && grants[k].status != Paid;
      assert rows == Promotable(Entries(), invoice);
      changed := rows != {};
      if changed {
        grants := map k | k in grants :: if k in rows then grants[k].(status := Paid) else grants[k];
        promotions := promotions + multiset(rows);
        promoted := promoted + {invoice};
        assert exists k :: k in rows && grants[k] != old(grants[k]);
      } else {
        NothingToMark(Entries(), invoice);
      }
    }

    /** `grant_by_invoice`, and whether the row it finds is pending. */
    method FindPending(invoice: Invoice, pendingFirst: bool) returns (pending: bool)
      ensures pending == ReadsPending(Entries(), invoice, pendingFirst)
    {
      var holders := set k | k in grants && grants[k].invoice == invoice;
      var waiting := set k | k in grants && grants[k].invoice == invoice && grants[k].status != Paid;
      assert waiting == Promotable(Entries(), invoice);
      pending := waiting != {} && (pendingFirst || holders == waiting);
    }

    method ConsumeGrantRow(key: Key)
      modifies this
      ensures Entries() == ConsumeGrant(old(Entries()), key)
    {
      grants := map k | k in grants && k != key :: grants[k];
    }

    // -------------------------------------------------------------------------
    // The payment backend

    method CreateInvoice(outside: Outside) returns (r: Option<NewInvoice>)
      modifies this
      ensures r == outside.created
      ensures Entries() == if r.Some? then Issue(old(Entries()), r.value.id) else old(Entries())
    {
      r := outside.created;
      if r.Some? {
        issued := issued + {r.value.id};
      }
    }

    method InvoiceStatus(invoice: Invoice, poll: PollAnswer) returns (r: PollAnswer)
      modifies this
      ensures r == poll
      ensures Entries() == if poll == SaysPaid then Report(old(Entries()), invoice) else old(Entries())
    {
      r := poll;
      if r == SaysPaid {
        reported := reported + {invoice};
      }
    }

    // -------------------------------------------------------------------------
    // Handlers

    method NewGrant(key: Key, outside: Outside) returns (outcome: Answer)
      modifies this
      ensures (Entries(), outcome) == Solo(cfg, old(Entries()), Create(ForQuote, key, outside))
      ensures Invoiced(cfg, old(Entries()), key, outside.created, Entries(), outcome)
    {
      CreateOutcome(cfg, Entries(), key, outside);
      Unfold(cfg, Entries(), Create(ForQuote, key, outside));
      var price := Price(cfg, key.resource);
      var created := CreateInvoice(outside);
      if created.None? {
        return Unavailable;
      }
      Unfold(cfg, Entries(), Put(ForQuote, key, created.value));
      PutPendingGrant(key, created.value, price);
      return PaymentDue(created.value.id, created.value.payUrl, price);
    }

    /** `ensure_paid`. */
    method EnsurePaid(key: Key, outside: Outside) returns (outcome: Answer)
      modifies this
      ensures (Entries(), outcome) ==
              if cfg.mode == Off then (old(Entries()), PaidYes)
              else Solo(cfg, old(Entries()), EnsureRead(ForQuote, key, outside))
      ensures cfg.mode != Off ==> Ensures(cfg, old(Entries()), key, outside, Entries(), outcome)
    {
      EnsureOutcome(cfg, Entries(), key, outside);
      if cfg.mode == Off {
        return PaidYes;
      }
      Unfold(cfg, Entries(), EnsureRead(ForQuote, key, outside));
      var row := FetchGrant(key);
      if row.Some? {
        var grant := row.value;
        if grant.status == Paid {
          return PaidYes;
        }
        if !outside.throttled {
          Unfold(cfg, Entries(), Poll(ForQuote, key, grant, outside));
          var status := InvoiceStatus(grant.invoice, outside.poll);
          if status == SaysPaid {
            Unfold(cfg, Entries(), Promote(ForQuote, key, grant.invoice));
            var _ := MarkGrantPaid(grant.invoice);
            return PaidYes;
          } else if status == SaysExpired {
            outcome := NewGrant(key, outside);
            return;
          }
        }
        return Due(grant);
      }
      outcome := NewGrant(key, outside);
    }

    /** `paid_status`, statement by statement. */
    method HandleStatus(pubkey: Pubkey, outside: Outside) returns (paid: Option<bool>)
      modifies this
      ensures var (l, answer) := Handle(cfg, old(Entries()), Status(pubkey, outside));
              Entries() == l && paid == if answer == NotFound then None else Some(answer == PaidYes)
    {
      if !Hex.ValidPubkey(Lower(pubkey)) {
        return None;
      }
      if cfg.mode != WriteMode {
        return Some(true);
      }
      var key := WriteKey(Lower(pubkey));
      Unfold(cfg, Entries(), StatusRead(key, outside));
      var row := FetchGrant(key);
      if row.Some? {
        if row.value.status == Paid {
          return Some(true);
        }
        CallerTakesOver(cfg, Entries(), EnsureRead(ForQuote, key, outside), ForStatus, key);
        StatusKinds(cfg, Entries(), key, outside);
        var outcome := EnsurePaid(key, outside);
        return Some(outcome == PaidYes);
      }
      return Some(false);
    }

    /** `quote`, statement by statement. */
    method HandleQuote(pubkey: Pubkey, resource: string, outside: Outside) returns (answer: Answer)
      modifies this
      ensures (Entries(), answer) == Handle(cfg, old(Entries()), Quote(pubkey, resource, outside))
    {
      if !ForSale(cfg.mode, resource) {
        return Refused;
      }
      answer := EnsurePaid(Key(pubkey, resource), outside);
    }

    /** The insertion of the name, and what it costs. */
    method Enroll(pubkey: Pubkey, acquired: bool) returns (answer: Answer)
      modifies this
      ensures (Entries(), answer) == Solo(cfg, old(Entries()), Upsert(pubkey, acquired))
    {
      Unfold(cfg, Entries(), Upsert(pubkey, acquired));
      if !acquired {
        return Refused;
      }
      registrations := registrations + multiset{NameKey(pubkey)};
      if cfg.mode == NameMode {
        Unfold(cfg, Entries(), Consume(pubkey));
        ConsumeGrantRow(NameKey(pubkey));
      }
      return Registered;
    }

    /** The payment part of `register`, statement by statement. */
    method HandleRegister(pubkey: Pubkey, available: bool, acquired: bool, outside: Outside) returns (answer: Answer)
      modifies this
      ensures (Entries(), answer) == Handle(cfg, old(Entries()), Register(pubkey, available, acquired, outside))
    {
      if !available {
        return Refused;
      }
      var key := NameKey(pubkey);
      if cfg.mode == NameMode {
        CallerTakesOver(cfg, Entries(), EnsureRead(ForQuote, key, outside), ForRegister(acquired), key);
        answer := EnsurePaid(key, outside);
        if answer != PaidYes {
          return;
        }
      }
      answer := Enroll(pubkey, acquired);
    }

    /** `goblinpay_webhook`, statement by statement. */
    method HandleWebhook(invoice: Invoice, signed: bool, pendingFirst: bool, poll: PollAnswer) returns (answer: Answer)
      modifies this
      ensures (Entries(), answer) == Handle(cfg, old(Entries()), Webhook(invoice, signed, pendingFirst, poll))
    {
      if !signed {
        return Refused;
      }
      HookOutcome(cfg, Entries(), invoice, pendingFirst, poll);
      var pending := FindPending(invoice, pendingFirst);
      if pending && cfg.mode != Off {
        var status := InvoiceStatus(invoice, poll);
        if status == SaysPaid {
          var _ := MarkGrantPaid(invoice);
        }
      }
      return Acknowledged;
    }

    // -------------------------------------------------------------------------
    // What a caller may rely on

    /** `paid_status`: the key is told exactly whether its write grant is paid. */
    method PaidStatus(pubkey: Pubkey, outside: Outside) returns (paid: Option<bool>)
      modifies this
      ensures var (l, answer) := Handle(cfg, old(Entries()), Status(pubkey, outside));
              Entries() == l && paid == if answer == NotFound then None else Some(answer == PaidYes)
      ensures old(Valid()) ==> Valid()
      ensures old(Valid()) && OncePerInvoice(old(Entries())) && FreshRequest(old(Entries()), Status(pubkey, outside)) ==>
              OncePerInvoice(Entries())
      ensures StatusIs(cfg, old(Entries()), pubkey, outside, Entries(), paid)
      ensures paid == None <==> !Hex.ValidPubkey(Lower(pubkey))
      ensures paid.Some? ==> (paid.value <==> cfg.mode != WriteMode || IsPaid(Entries(), WriteKey(Lower(pubkey))))
    {
      ghost var l, r := Entries(), Status(pubkey, outside);
      paid := HandleStatus(pubkey, outside);
      StatusTells(cfg, l, r);
      StatusOutcome(cfg, l, pubkey, outside);
      if Sound(cfg, l) {
        HandleKeeps(cfg, l, r);
      }
    }

    /** `quote`: what is not sold is refused, and the answer is true of the table. */
    method QuoteResource(pubkey: Pubkey, resource: string, outside: Outside) returns (answer: Answer)
      modifies this
      ensures (Entries(), answer) == Handle(cfg, old(Entries()), Quote(pubkey, resource, outside))
      ensures old(Valid()) ==> Valid()
      ensures old(Valid()) && OncePerInvoice(old(Entries())) && FreshRequest(old(Entries()), Quote(pubkey, resource, outside)) ==>
              OncePerInvoice(Entries())
      ensures if Sold(cfg.mode, resource) then Ensures(cfg, old(Entries()), Key(pubkey, resource), outside, Entries(), answer)
              else Entries() == old(Entries()) && answer == Refused
      ensures answer == Refused <==> !ForSale(cfg.mode, resource)
      ensures ForSale(cfg.mode, resource) ==>
              && Truthful(Entries(), Key(pubkey, resource), answer)
              && (answer == PaidYes <==> IsPaid(Entries(), Key(pubkey, resource)))
    {
      ghost var l, r := Entries(), Quote(pubkey, resource, outside);
      answer := HandleQuote(pubkey, resource, outside);
      QuoteTells(cfg, l, r);
      QuoteOutcome(cfg, l, pubkey, resource, outside);
      if Sound(cfg, l) {
        HandleKeeps(cfg, l, r);
      }
    }

    /** The payment part of `register`: a registration is counted once and, in name mode, costs the grant. */
    method RegisterName(pubkey: Pubkey, available: bool, acquired: bool, outside: Outside) returns (answer: Answer)
      modifies this
      ensures (Entries(), answer) == Handle(cfg, old(Entries()), Register(pubkey, available, acquired, outside))
      ensures old(Valid()) ==> Valid()
      ensures old(Valid()) && OncePerInvoice(old(Entries())) && FreshRequest(old(Entries()), Register(pubkey, available, acquired, outside)) ==>
              OncePerInvoice(Entries())
      ensures RegisterIs(cfg, old(Entries()), pubkey, available, acquired, outside, Entries(), answer)
      ensures registrations ==
              old(registrations) + if answer == Registered then multiset{NameKey(pubkey)} else multiset{}
      ensures cfg.mode == NameMode && answer == Registered ==> NameKey(pubkey) !in grants
      ensures cfg.mode == NameMode && IsPaid(old(Entries()), NameKey(pubkey)) ==>
              (IsPaid(Entries(), NameKey(pubkey)) <==> answer != Registered)
    {
      ghost var l, r := Entries(), Register(pubkey, available, acquired, outside);
      answer := HandleRegister(pubkey, available, acquired, outside);
      RegistrationCounted(cfg, l, r);
      RegisterOutcome(cfg, l, pubkey, available, acquired, outside);
      if cfg.mode == NameMode && IsPaid(l, NameKey(pubkey)) {
        PaidGrantSpentIff(cfg, l, r, pubkey);
      }
      if Sound(cfg, l) {
        HandleKeeps(cfg, l, r);
      }
    }

    /** `goblinpay_webhook`: it changes nothing but rows of the invoice, and only when the backend says paid. */
    method GoblinpayWebhook(invoice: Invoice, signed: bool, pendingFirst: bool, poll: PollAnswer) returns (answer: Answer)
      modifies this
      ensures (Entries(), answer) == Handle(cfg, old(Entries()), Webhook(invoice, signed, pendingFirst, poll))
      ensures old(Valid()) ==> Valid()
      ensures old(Valid()) && OncePerInvoice(old(Entries())) && FreshRequest(old(Entries()), Webhook(invoice, signed, pendingFirst, poll)) ==>
              OncePerInvoice(Entries())
      ensures Distinct(old(Entries())) ==> WebhookIs(cfg, old(Entries()), invoice, signed, poll, Entries(), answer)
      ensures !signed || poll != SaysPaid ==> Entries() == old(Entries())
      ensures grants.Keys == old(grants).Keys
      ensures forall k | k in grants && grants[k] != old(grants)[k] :: old(grants)[k].invoice == invoice && poll == SaysPaid
    {
      ghost var l, r := Entries(), Webhook(invoice, signed, pendingFirst, poll);
      answer := HandleWebhook(invoice, signed, pendingFirst, poll);
      if signed {
        HookOutcome(cfg, l, invoice, pendingFirst, poll);
      }
      if Distinct(l) {
        WebhookOutcome(cfg, l, invoice, signed, pendingFirst, poll);
      }
      if Sound(cfg, l) {
        HandleKeeps(cfg, l, r);
      }
    }
  }
}
