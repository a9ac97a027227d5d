/**
 Paid grants as programs of atomic steps (name-authority/src/paid.rs, paidapi.rs and the
 payment part of registry.rs). The answers of the payment backend, the throttle and the
 name registry belong to the request and may be anything.
 */
module Grants {
  import opened Wrappers
  import opened Text
  import Hex

  type Pubkey = string
  type Invoice = string

  /** What is sold: one grant for each key and resource. */
  datatype Key = Key(pubkey: Pubkey, resource: string)

  datatype GrantStatus = Pending | Paid

  datatype Grant = Grant(invoice: Invoice, payUrl: string, amount: nat, status: GrantStatus)

  datatype PayMode = Off | NameMode | WriteMode

  /**
   The grants table, with the history it answers for: invoices issued and reported paid by
   the backend, promotions from pending to paid, and newly created registrations.
   */
  datatype Ledger = Ledger(
    grants: map<Key, Grant>,
    issued: set<Invoice>,
    reported: set<Invoice>,
    promotions: multiset<Key>,
    promoted: set<Invoice>,
    registrations: multiset<Key>)

  const NOTHING: Ledger := Ledger(map[], {}, {}, multiset{}, {}, multiset{})

  datatype NewInvoice = NewInvoice(id: Invoice, payUrl: string)

  datatype PollAnswer = SaysPaid | SaysExpired | SaysOpen | Unreachable

  /** The outside answers of one `ensure_paid`: throttle, status poll, invoice creation. */
  datatype Outside = Outside(throttled: bool, poll: PollAnswer, created: Option<NewInvoice>)

  datatype Caller = ForStatus | ForQuote | ForRegister(acquired: bool)

  /**
   `available` and `acquired` are what the name registry says before and at the upsert;
   `pendingFirst` is whether a pending row comes first when paid rows share its invoice.
   */
  datatype Request =
    | Status(pubkey: Pubkey, outside: Outside)
    | Quote(pubkey: Pubkey, resource: string, outside: Outside)
    | Register(pubkey: Pubkey, available: bool, acquired: bool, outside: Outside)
    | Webhook(invoice: Invoice, signed: bool, pendingFirst: bool, poll: PollAnswer)

  datatype Answer =
    | PaidYes | NotPaid | NotFound | Unavailable | Registered | Refused | Acknowledged
    | PaymentDue(invoice: Invoice, payUrl: string, price: nat)

  datatype Proc =
    | Done(answer: Answer)
    | StatusRead(key: Key, outside: Outside)
    | EnsureRead(caller: Caller, key: Key, outside: Outside)
    | Poll(caller: Caller, key: Key, grant: Grant, outside: Outside)
    | Promote(caller: Caller, key: Key, invoice: Invoice)
    | Create(caller: Caller, key: Key, outside: Outside)
    | Put(caller: Caller, key: Key, created: NewInvoice)
    | Upsert(pubkey: Pubkey, acquired: bool)
    | Consume(pubkey: Pubkey)
    | HookRead(invoice: Invoice, pendingFirst: bool, poll: PollAnswer)
    | HookPoll(invoice: Invoice, poll: PollAnswer)
    | HookPromote(invoice: Invoice)

  datatype Prices = Prices(name: nat, write: nat)

  datatype Config = Config(mode: PayMode, prices: Prices)

  /** `price_nanogrin`. */
  function Price(cfg: Config, resource: string): nat {
    if resource == "name" then cfg.prices.name else if resource == "write" then cfg.prices.write else 0
  }

  function NameKey(pubkey: Pubkey): Key {
    Key(pubkey, "name")
  }

  function WriteKey(pubkey: Pubkey): Key {
    Key(pubkey, "write")
  }

  predicate IsPaid(l: Ledger, key: Key) {
    key in l.grants && l.grants[key].status == Paid
  }

  // ---------------------------------------------------------------------------
  // Statements

  /** `put_pending_grant`: insert or replace. */
  function PutPending(l: Ledger, key: Key, invoice: NewInvoice, amount: nat): Ledger {
    l.(grants := l.grants[key := Grant(invoice.id, invoice.payUrl, amount, Pending)])
  }

  /** The rows that `mark_grant_paid(invoice)` changes. */
  function Promotable(l: Ledger, invoice: Invoice): set<Key> {
    set k | k in l.grants && l.grants[k].invoice == invoice && l.grants[k].status == Pending
  }

  /** `grant_by_invoice` finds a row, and it is pending. */
  predicate ReadsPending(l: Ledger, invoice: Invoice, pendingFirst: bool) {
    var holders := set k | k in l.grants && l.grants[k].invoice == invoice;
    Promotable(l, invoice) != {} && (pendingFirst || holders == Promotable(l, invoice))
  }

  /** `mark_grant_paid`. */
  function MarkPaid(l: Ledger, invoice: Invoice): Ledger {
    var rows := Promotable(l, invoice);
    l.(grants := map k | k in l.grants :: if k in rows then l.grants[k].(status := Paid) else l.grants[k],
       promotions := l.promotions + multiset(rows),
       promoted := if rows == {} then l.promoted else l.promoted + {invoice})
  }

  /** `consume_grant`. */
  function ConsumeGrant(l: Ledger, key: Key): Ledger {
    l.(grants := map k | k in l.grants && k != key :: l.grants[k])
  }

  function Report(l: Ledger, invoice: Invoice): Ledger {
    l.(reported := l.reported + {invoice})
  }

  function Issue(l: Ledger, invoice: Invoice): Ledger {
    l.(issued := l.issued + {invoice})
  }

  function RecordRegistration(l: Ledger, pubkey: Pubkey): Ledger {
    l.(registrations := l.registrations + multiset{NameKey(pubkey)})
  }

  // ---------------------------------------------------------------------------
  // Steps

  predicate ForSale(mode: PayMode, resource: string) {
    (mode == NameMode && resource == "name") || (mode == WriteMode && resource == "write")
  }

  function Start(cfg: Config, r: Request): Proc {
    match r
    case Status(pubkey, outside) =>
      if !Hex.ValidPubkey(Lower(pubkey)) then Done(NotFound)
      else if cfg.mode != WriteMode then Done(PaidYes) else StatusRead(WriteKey(Lower(pubkey)), outside)
    case Quote(pubkey, resource, outside) =>
      if ForSale(cfg.mode, resource) then EnsureRead(ForQuote, Key(pubkey, resource), outside) else Done(Refused)
    case Register(pubkey, available, acquired, outside) =>
      if !available then Done(Refused)
      else if cfg.mode == NameMode then EnsureRead(ForRegister(acquired), NameKey(pubkey), outside)
      else Upsert(pubkey, acquired)
    case Webhook(invoice, signed, pendingFirst, poll) =>
      if signed then HookRead(invoice, pendingFirst, poll) else Done(Refused)
  }

  /** The price and pay page of a grant still to be paid. */
  function Due(grant: Grant): Answer {
    PaymentDue(grant.invoice, grant.payUrl, grant.amount)
  }

  /** What the caller of `ensure_paid` does with its outcome. */
  function Return(caller: Caller, key: Key, outcome: Answer): Proc {
    if caller.ForRegister? && outcome == PaidYes then Upsert(key.pubkey, caller.acquired) else Done(outcome)
  }

  function Step(cfg: Config, l: Ledger, p: Proc): (Ledger, Proc) {
    match p
    case Done(_) => (l, p)
    case StatusRead(key, outside) =>
      (l, if key !in l.grants then Done(NotPaid)
          else if l.grants[key].status == Paid then Done(PaidYes)
          else EnsureRead(ForStatus, key, outside))
    case EnsureRead(caller, key, outside) =>
      (l, if key !in l.grants then Create(caller, key, outside)
          else if l.grants[key].status == Paid then Return(caller, key, PaidYes)
          else if outside.throttled then Return(caller, key, Due(l.grants[key]))
          else Poll(caller, key, l.grants[key], outside))
    case Poll(caller, key, grant, outside) =>
      (match outside.poll
       case SaysPaid => (Report(l, grant.invoice), Promote(caller, key, grant.invoice))
       case SaysExpired => (l, Create(caller, key, outside))
       case _ => (l, Return(caller, key, Due(grant))))
    case Promote(caller, key, invoice) => (MarkPaid(l, invoice), Return(caller, key, PaidYes))
    case Create(caller, key, outside) =>
      if outside.created.None? then (l, Return(caller, key, Unavailable))
      else (Issue(l, outside.created.value.id), Put(caller, key, outside.created.value))
    case Put(caller, key, created) =>
      var price := Price(cfg, key.resource);
      (PutPending(l, key, created, price), Return(caller, key, PaymentDue(created.id, created.payUrl, price)))
    case Upsert(pubkey, acquired) =>
      if !acquired then (l, Done(Refused))
      else (RecordRegistration(l, pubkey), if cfg.mode == NameMode then Consume(pubkey) else Done(Registered))
    case Consume(pubkey) => (ConsumeGrant(l, NameKey(pubkey)), Done(Registered))
    case HookRead(invoice, pendingFirst, poll) =>
      (l, if cfg.mode != Off && ReadsPending(l, invoice, pendingFirst) then HookPoll(invoice, poll)
          else Done(Acknowledged))
    case HookPoll(invoice, poll) =>
      if poll == SaysPaid then (Report(l, invoice), HookPromote(invoice)) else (l, Done(Acknowledged))
    case HookPromote(invoice) => (MarkPaid(l, invoice), Done(Acknowledged))
  }

  function Rank(p: Proc): nat {
    match p
    case Done(_) => 0
    case Consume(_) => 1 case Upsert(_, _) => 2
    case Promote(_, _, _) => 3 case Put(_, _, _) => 3 case Create(_, _, _) => 4
    case Poll(_, _, _, _) => 5 case EnsureRead(_, _, _) => 6 case StatusRead(_, _) => 7
    case HookPromote(_) => 1 case HookPoll(_, _) => 2 case HookRead(_, _, _) => 3
  }

  lemma StepDescends(cfg: Config, l: Ledger, p: Proc)
    ensures !p.Done? ==> Rank(Step(cfg, l, p).1) < Rank(p)
  {
  }

  /** A request run to completion. */
  function Solo(cfg: Config, l: Ledger, p: Proc): (Ledger, Answer)
    decreases Rank(p)
  {
    if p.Done? then (l, p.answer)
    else
      StepDescends(cfg, l, p);
      var (l', p') := Step(cfg, l, p);
      Solo(cfg, l', p')
  }

  function Handle(cfg: Config, l: Ledger, r: Request): (Ledger, Answer) {
    Solo(cfg, l, Start(cfg, r))
  }

  lemma Unfold(cfg: Config, l: Ledger, p: Proc)
    requires !p.Done?
    ensures Solo(cfg, l, p) == Solo(cfg, Step(cfg, l, p).0, Step(cfg, l, p).1)
  {
  }

  // ---------------------------------------------------------------------------
  // Interleaved requests

  datatype Sys = Sys(ledger: Ledger, flights: map<nat, Proc>)

  datatype Event = Arrive(id: nat, request: Request) | Tick(id: nat)

  function Apply(cfg: Config, sys: Sys, e: Event): Sys {
    match e
    case Arrive(id, request) =>
      if id in sys.flights then sys else sys.(flights := sys.flights[id := Start(cfg, request)])
    case Tick(id) =>
      if id !in sys.flights then sys
      else
        var (l, p) := Step(cfg, sys.ledger, sys.flights[id]);
        Sys(l, sys.flights[id := p])
  }

  function Run(cfg: Config, sys: Sys, es: seq<Event>): Sys {
    if es == [] then sys else Apply(cfg, Run(cfg, sys, es[..|es| - 1]), es[|es| - 1])
  }

  /** Every paid grant, and every promotion, stands on an invoice the backend reported paid. */
  ghost predicate PaidWasReported(l: Ledger) {
    && (forall k | k in l.grants && l.grants[k].status == Paid :: l.grants[k].invoice in l.reported)
    && l.promoted <= l.reported
  }

  /** An invoice on its way to promotion has been reported paid. */
  ghost predicate Backed(l: Ledger, p: Proc) {
    && (p.Promote? ==> p.invoice in l.reported)
    && (p.HookPromote? ==> p.invoice in l.reported)
  }

  ghost predicate Inv(sys: Sys) {
    PaidWasReported(sys.ledger) && forall id | id in sys.flights :: Backed(sys.ledger, sys.flights[id])
  }

  lemma MarkKeepsReported(l: Ledger, invoice: Invoice)
    requires PaidWasReported(l) && invoice in l.reported
    ensures PaidWasReported(MarkPaid(l, invoice))
  {
  }

  lemma StepKeepsReported(cfg: Config, l: Ledger, p: Proc)
    requires PaidWasReported(l) && Backed(l, p)
    ensures var (m, p') := Step(cfg, l, p);
            PaidWasReported(m) && Backed(m, p') && l.reported <= m.reported
  {
    match p
    case Promote(_, _, invoice) => MarkKeepsReported(l, invoice);
    case HookPromote(invoice) => MarkKeepsReported(l, invoice);
    case _ =>
  }

  /**
   Under every interleaving of polls, webhooks, quotes, registrations and invoice rolls, a
   paid grant holds an invoice that the backend itself has reported paid.
   */
  lemma {:induction false} PaidIsBacked(cfg: Config, es: seq<Event>)
    ensures Inv(Run(cfg, Sys(NOTHING, map[]), es))
  {
    if es != [] {
      var before, e := Run(cfg, Sys(NOTHING, map[]), es[..|es| - 1]), es[|es| - 1];
      PaidIsBacked(cfg, es[..|es| - 1]);
      if e.Tick? && e.id in before.flights {
        StepKeepsReported(cfg, before.ledger, before.flights[e.id]);
      }
    }
  }

  /** A promotion on its way, and the invoice it is for. */
  predicate Promotes(p: Proc, invoice: Invoice) {
    (p.Promote? && p.invoice == invoice) || (p.HookPromote? && p.invoice == invoice)
  }

  lemma PaidOnlyByPromotion(cfg: Config, l: Ledger, p: Proc, key: Key)
    requires Backed(l, p) && !IsPaid(l, key) && IsPaid(Step(cfg, l, p).0, key)
    ensures key in l.grants && l.grants[key].status == Pending
    ensures Promotes(p, l.grants[key].invoice) && l.grants[key].invoice in l.reported
    ensures Step(cfg, l, p).0.grants[key] == l.grants[key].(status := Paid)
  {
  }

  /**
   In every interleaving a row becomes paid only by a promotion of the very invoice it holds,
   reported paid before; its price and pay page stay. So the promotion of a replaced invoice
   never pays for the fresh one.
   */
  lemma PaidGained(cfg: Config, es: seq<Event>, e: Event, key: Key)
    requires !IsPaid(Run(cfg, Sys(NOTHING, map[]), es).ledger, key)
    requires IsPaid(Run(cfg, Sys(NOTHING, map[]), es + [e]).ledger, key)
    ensures var (before, after) := (Run(cfg, Sys(NOTHING, map[]), es), Run(cfg, Sys(NOTHING, map[]), es + [e]).ledger);
            && e.Tick? && e.id in before.flights && key in before.ledger.grants
            && Promotes(before.flights[e.id], before.ledger.grants[key].invoice)
            && before.ledger.grants[key].invoice in before.ledger.reported
            && after.grants[key] == before.ledger.grants[key].(status := Paid)
  {
    var before := Run(cfg, Sys(NOTHING, map[]), es);
    RunLast(cfg, Sys(NOTHING, map[]), es, e);
    PaidIsBacked(cfg, es);
    PaidOnlyByPromotion(cfg, before.ledger, before.flights[e.id], key);
  }

  /** A late promotion changes only rows that still hold its invoice; a replaced one, nothing. */
  lemma PromotionTouchesOnly(l: Ledger, invoice: Invoice)
    ensures forall k | k in l.grants && l.grants[k].invoice != invoice ::
              k in MarkPaid(l, invoice).grants && MarkPaid(l, invoice).grants[k] == l.grants[k]
    ensures (forall k | k in l.grants :: l.grants[k].invoice != invoice) ==> MarkPaid(l, invoice) == l
  {
    if forall k | k in l.grants :: l.grants[k].invoice != invoice {
      assert Promotable(l, invoice) == {};
      assert MarkPaid(l, invoice).grants == l.grants;
    }
  }

  /**
   Exactly two steps can take a paid grant away: the pending grant written for a rolled
   invoice, and the consumption of a `name` grant after a registration.
   */
  lemma PaidLostIff(cfg: Config, l: Ledger, p: Proc, key: Key)
    requires IsPaid(l, key)
    ensures !IsPaid(Step(cfg, l, p).0, key) <==>
            (p.Put? && p.key == key) || (p.Consume? && NameKey(p.pubkey) == key)
  {
    match p
    case Promote(_, _, invoice) => assert key in MarkPaid(l, invoice).grants;
    case HookPromote(invoice) => assert key in MarkPaid(l, invoice).grants;
    case _ =>
  }

  lemma RunLast(cfg: Config, sys: Sys, es: seq<Event>, e: Event)
    ensures Run(cfg, sys, es + [e]) == Apply(cfg, Run(cfg, sys, es), e)
  {
    assert (es + [e])[..|es|] == es;
  }

  /** Two quotes for one key that both found no grant, each with its invoice created. */
  lemma BothQuoted(cfg: Config, l: Ledger, key: Key, first: Outside, second: Outside) returns (es: seq<Event>)
    requires ForSale(cfg.mode, key.resource) && key !in l.grants && first.created.Some? && second.created.Some?
    ensures var a, b := first.created.value, second.created.value;
            Run(cfg, Sys(l, map[]), es) ==
            Sys(Issue(Issue(l, a.id), b.id), map[0 := Put(ForQuote, key, a), 1 := Put(ForQuote, key, b)])
  {
    var start, l1 := Sys(l, map[]), Issue(l, first.created.value.id);
    var put := Put(ForQuote, key, first.created.value);
    var e0, e3 := Arrive(0, Quote(key.pubkey, key.resource, first)), Arrive(1, Quote(key.pubkey, key.resource, second));
    RunLast(cfg, start, [], e0);
    RunLast(cfg, start, [e0], Tick(0));
    assert [] + [e0] == [e0] && Run(cfg, start, [e0]) == Sys(l, map[0 := EnsureRead(ForQuote, key, first)]);
    es := [e0] + [Tick(0)];
    assert Run(cfg, start, es) == Sys(l, map[0 := Create(ForQuote, key, first)]);
    RunLast(cfg, start, es, Tick(0));
    es := es + [Tick(0)];
    assert Run(cfg, start, es) == Sys(l1, map[0 := put]);
    RunLast(cfg, start, es, e3);
    es := es + [e3];
    assert Run(cfg, start, es) == Sys(l1, map[0 := put, 1 := EnsureRead(ForQuote, key, second)]);
    RunLast(cfg, start, es, Tick(1));
    es := es + [Tick(1)];
    assert Run(cfg, start, es) == Sys(l1, map[0 := put, 1 := Create(ForQuote, key, second)]);
    RunLast(cfg, start, es, Tick(1));
    es := es + [Tick(1)];
  }

  /** A confirmed webhook for an invoice that a pending row holds. */
  lemma HookDelivered(cfg: Config, start: Sys, es: seq<Event>, id: nat, invoice: Invoice) returns (fs: seq<Event>)
    requires cfg.mode != Off && id !in Run(cfg, start, es).flights
    requires Promotable(Run(cfg, start, es).ledger, invoice) != {}
    ensures var sys := Run(cfg, start, es);
            Run(cfg, start, fs) ==
            Sys(MarkPaid(Report(sys.ledger, invoice), invoice), sys.flights[id := Done(Acknowledged)])
  {
    var sys, hook := Run(cfg, start, es), Arrive(id, Webhook(invoice, true, true, SaysPaid));
    RunLast(cfg, start, es, hook);
    RunLast(cfg, start, es + [hook], Tick(id));
    RunLast(cfg, start, es + [hook] + [Tick(id)], Tick(id));
    RunLast(cfg, start, es + [hook] + [Tick(id)] + [Tick(id)], Tick(id));
    fs := es + [hook] + [Tick(id)] + [Tick(id)] + [Tick(id)];
    assert Run(cfg, start, es + [hook] + [Tick(id)]) ==
           Sys(sys.ledger, sys.flights[id := HookPoll(invoice, SaysPaid)]);
  }

  /**
   Why conservation needs requests run to completion. Of two quotes for one key that both
   found no grant, the second is stored, paid and promoted; then the first is stored over it,
   and the paid grant is gone with nothing registered for it.
   */
  lemma QuoteRace(cfg: Config, l: Ledger, key: Key, first: Outside, second: Outside) returns (es: seq<Event>)
    requires ForSale(cfg.mode, key.resource) && key !in l.grants && first.created.Some? && second.created.Some?
    requires forall k | k in l.grants :: l.grants[k].invoice != second.created.value.id
    ensures var t := Run(cfg, Sys(l, map[]), es).ledger;
            && second.created.value.id in t.promoted && !IsPaid(t, key)
            && t.registrations == l.registrations && t.promotions == l.promotions + multiset{key}
  {
    var start, a, b := Sys(l, map[]), first.created.value, second.created.value;
    es := BothQuoted(cfg, l, key, first, second);
    RunLast(cfg, start, es, Tick(1));
    es := es + [Tick(1)];
    var l3 := Run(cfg, start, es).ledger;
    assert l3 == PutPending(Issue(Issue(l, a.id), b.id), key, b, Price(cfg, key.resource));
    assert Promotable(l3, b.id) == {key} && Promotable(Report(l3, b.id), b.id) == {key};
    es := HookDelivered(cfg, start, es, 2, b.id);
    RunLast(cfg, start, es, Tick(0));
    es := es + [Tick(0)];
  }
}
