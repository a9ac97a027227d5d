/**
 Paid grants with requests run to completion, one after another: what was promoted is either
 still held or spent on a registration, and nothing is promoted twice.
 */
module GrantRuns {
  import opened Text
  import opened Grants
  import Hex

  function Serve(cfg: Config, l: Ledger, rs: seq<Request>): Ledger {
    if rs == [] then l else Handle(cfg, Serve(cfg, l, rs[..|rs| - 1]), rs[|rs| - 1]).0
  }

  // ---------------------------------------------------------------------------
  // What a handler knows between its own steps

  /** Only registration in name mode spends a grant, and it is the caller's `name` grant. */
  ghost predicate Fits(cfg: Config, caller: Caller, key: Key) {
    caller.ForRegister? ==> cfg.mode == NameMode && key == NameKey(key.pubkey)
  }

  ghost predicate Knows(cfg: Config, l: Ledger, p: Proc) {
    match p
    case EnsureRead(caller, key, _) => Fits(cfg, caller, key)
    case Poll(caller, key, grant, _) =>
      Fits(cfg, caller, key) && key in l.grants && l.grants[key] == grant && grant.status == Pending
    case Promote(caller, key, invoice) =>
      Fits(cfg, caller, key) && key in l.grants && l.grants[key].invoice == invoice
    case Create(caller, key, _) => Fits(cfg, caller, key) && !IsPaid(l, key)
    case Put(caller, key, _) => Fits(cfg, caller, key) && !IsPaid(l, key)
    case Upsert(pubkey, _) => cfg.mode == NameMode ==> IsPaid(l, NameKey(pubkey))
    case Consume(pubkey) => cfg.mode == NameMode && IsPaid(l, NameKey(pubkey))
    case _ => true
  }

  lemma StartKnows(cfg: Config, l: Ledger, r: Request)
    ensures Knows(cfg, l, Start(cfg, r))
  {
  }

  lemma StepKnows(cfg: Config, l: Ledger, p: Proc)
    requires Knows(cfg, l, p)
    ensures Knows(cfg, Step(cfg, l, p).0, Step(cfg, l, p).1)
  {
    match p
    case Promote(_, key, invoice) => assert IsPaid(MarkPaid(l, invoice), key);
    case _ =>
  }

  // ---------------------------------------------------------------------------
  // Conservation

  function Held(l: Ledger, key: Key): nat {
    if IsPaid(l, key) then 1 else 0
  }

  /** A registration already made whose grant is still to be deleted. */
  function Unspent(p: Proc, key: Key): nat {
    if p.Consume? && NameKey(p.pubkey) == key then 1 else 0
  }

  ghost predicate Balanced(l: Ledger, p: Proc) {
    forall key :: l.registrations[key] + Held(l, key) == l.promotions[key] + Unspent(p, key)
  }

  ghost predicate Settled(l: Ledger) {
    forall key :: l.registrations[key] + Held(l, key) == l.promotions[key]
  }

  lemma MarkBalances(l: Ledger, invoice: Invoice, p: Proc)
    requires Balanced(l, p)
    ensures Balanced(MarkPaid(l, invoice), p)
  {
    var m, rows := MarkPaid(l, invoice), Promotable(l, invoice);
    forall key
      ensures m.registrations[key] + Held(m, key) == m.promotions[key] + Unspent(p, key)
    {
      assert m.promotions[key] == l.promotions[key] + multiset(rows)[key];
    }
  }

  lemma SamePending(l: Ledger, p: Proc, q: Proc)
    requires Balanced(l, p) && !p.Consume? && !q.Consume?
    ensures Balanced(l, q)
  {
    forall key
      ensures l.registrations[key] + Held(l, key) == l.promotions[key] + Unspent(q, key)
    {
      assert Unspent(p, key) == 0;
    }
  }

  lemma PutBalances(l: Ledger, p: Proc, q: Proc, key: Key, created: NewInvoice, price: nat)
    requires Balanced(l, p) && !p.Consume? && !q.Consume? && !IsPaid(l, key)
    ensures Balanced(PutPending(l, key, created, price), q)
  {
    var m := PutPending(l, key, created, price);
    forall k
      ensures m.registrations[k] + Held(m, k) == m.promotions[k] + Unspent(q, k)
    {
      assert Unspent(p, k) == 0 && Held(m, k) == Held(l, k);
    }
  }

  lemma SpendBalances(l: Ledger, p: Proc, pubkey: Pubkey)
    requires Balanced(l, p) && !p.Consume?
    ensures Balanced(RecordRegistration(l, pubkey), Consume(pubkey))
  {
    var m := RecordRegistration(l, pubkey);
    forall key
      ensures m.registrations[key] + Held(m, key) == m.promotions[key] + Unspent(Consume(pubkey), key)
    {
      assert Unspent(p, key) == 0 && Held(m, key) == Held(l, key);
    }
  }

  lemma ConsumeBalances(l: Ledger, p: Proc, q: Proc)
    requires p.Consume? && Balanced(l, p) && IsPaid(l, NameKey(p.pubkey)) && !q.Consume?
    ensures Balanced(ConsumeGrant(l, NameKey(p.pubkey)), q)
  {
    var m := ConsumeGrant(l, NameKey(p.pubkey));
    forall key
      ensures m.registrations[key] + Held(m, key) == m.promotions[key] + Unspent(q, key)
    {
      assert Held(m, key) == if key == NameKey(p.pubkey) then 0 else Held(l, key);
    }
  }

  lemma LedgerFactsBalance(l: Ledger, m: Ledger, p: Proc)
    requires Balanced(l, p) && m.grants == l.grants && m.registrations == l.registrations && m.promotions == l.promotions
    ensures Balanced(m, p)
  {
    forall key
      ensures m.registrations[key] + Held(m, key) == m.promotions[key] + Unspent(p, key)
    {
      assert Held(m, key) == Held(l, key);
    }
  }

  lemma StepBalances(cfg: Config, l: Ledger, p: Proc)
    requires cfg.mode == NameMode && Knows(cfg, l, p) && Balanced(l, p) && !p.Done?
    ensures Balanced(Step(cfg, l, p).0, Step(cfg, l, p).1)
  {
    var (m, q) := Step(cfg, l, p);
    match p
    case Promote(_, _, invoice) => MarkBalances(l, invoice, p); SamePending(m, p, q);
    case HookPromote(invoice) => MarkBalances(l, invoice, p); SamePending(m, p, q);
    case Put(_, key, created) => PutBalances(l, p, q, key, created, Price(cfg, key.resource));
    case Upsert(pubkey, acquired) => if acquired { SpendBalances(l, p, pubkey); } else { SamePending(l, p, q); }
    case Consume(_) => ConsumeBalances(l, p, q);
    case _ => LedgerFactsBalance(l, m, p); SamePending(m, p, q);
  }

  lemma {:induction false} SoloBalances(cfg: Config, l: Ledger, p: Proc)
    requires cfg.mode == NameMode && Knows(cfg, l, p) && Balanced(l, p)
    ensures Settled(Solo(cfg, l, p).0)
    decreases Rank(p)
  {
    if p.Done? {
      assert forall key :: Unspent(p, key) == 0;
    } else {
      Unfold(cfg, l, p);
      StepDescends(cfg, l, p);
      StepKnows(cfg, l, p);
      StepBalances(cfg, l, p);
      SoloBalances(cfg, Step(cfg, l, p).0, Step(cfg, l, p).1);
    }
  }

  /**
   In name mode, for every key: registrations made, plus one while a paid grant is held, are
   exactly the promotions from pending to paid. Whatever the backend answers.
   */
  lemma {:induction false} RegistrationsMatchPromotions(cfg: Config, rs: seq<Request>)
    requires cfg.mode == NameMode
    ensures Settled(Serve(cfg, NOTHING, rs))
  {
    if rs != [] {
      var l, r := Serve(cfg, NOTHING, rs[..|rs| - 1]), rs[|rs| - 1];
      RegistrationsMatchPromotions(cfg, rs[..|rs| - 1]);
      var p := Start(cfg, r);
      assert Balanced(l, p) by {
        assert forall key :: Unspent(p, key) == 0;
      }
      StartKnows(cfg, l, r);
      SoloBalances(cfg, l, p);
    }
  }

  // ---------------------------------------------------------------------------
  // Each invoice is promoted at most once

  /** Rows hold distinct issued invoices, and a pending row's invoice was never promoted. */
  ghost predicate Distinct(l: Ledger) {
    && (forall k | k in l.grants :: l.grants[k].invoice in l.issued)
    && (forall j, k | j in l.grants && k in l.grants && l.grants[j].invoice == l.grants[k].invoice :: j == k)
    && (forall k | k in l.grants && l.grants[k].status == Pending :: l.grants[k].invoice !in l.promoted)
    && l.promoted <= l.issued
  }

  ghost predicate OncePerInvoice(l: Ledger) {
    Distinct(l) && |l.promotions| == |l.promoted|
  }

  ghost predicate FreshCreation(l: Ledger, outside: Outside) {
    outside.created.Some? ==> outside.created.value.id !in l.issued
  }

  ghost predicate FreshRequest(l: Ledger, r: Request) {
    r.Webhook? || FreshCreation(l, r.outside)
  }

  ghost predicate FreshProc(l: Ledger, p: Proc) {
    match p
    case StatusRead(_, outside) => FreshCreation(l, outside)
    case EnsureRead(_, _, outside) => FreshCreation(l, outside)
    case Poll(_, _, _, outside) => FreshCreation(l, outside)
    case Create(_, _, outside) => FreshCreation(l, outside)
    case Put(_, _, created) =>
      && created.id in l.issued && created.id !in l.promoted
      && forall k | k in l.grants :: l.grants[k].invoice != created.id
    case _ => true
  }

  /** The backend never gives out an invoice id twice. */
  ghost predicate FreshIds(cfg: Config, rs: seq<Request>) {
    forall i | 0 <= i < |rs| :: FreshRequest(Serve(cfg, NOTHING, rs[..i]), rs[i])
  }

  lemma AtMostOneRow(l: Ledger, invoice: Invoice)
    requires Distinct(l)
    ensures Promotable(l, invoice) == {} || exists k :: k in l.grants && Promotable(l, invoice) == {k}
  {
    var rows := Promotable(l, invoice);
    if rows != {} {
      var k :| k in rows;
      assert rows == {k};
    }
  }

  lemma MarkOnce(l: Ledger, invoice: Invoice)
    requires OncePerInvoice(l)
    ensures OncePerInvoice(MarkPaid(l, invoice))
  {
    var rows, m := Promotable(l, invoice), MarkPaid(l, invoice);
    AtMostOneRow(l, invoice);
    if rows != {} {
      var k :| k in rows;
      assert l.grants[k].invoice == invoice && invoice !in l.promoted;
      assert multiset(rows) == multiset{k};
      assert |m.promotions| == |l.promotions| + 1;
    } else {
      assert m.promotions == l.promotions;
    }
    assert forall j | j in m.grants :: j in l.grants && m.grants[j].invoice == l.grants[j].invoice;
    assert Distinct(m);
  }

  lemma PutDistinct(l: Ledger, key: Key, created: NewInvoice, price: nat)
    requires OncePerInvoice(l) && created.id in l.issued && created.id !in l.promoted
    requires forall k | k in l.grants :: l.grants[k].invoice != created.id
    ensures OncePerInvoice(PutPending(l, key, created, price))
  {
  }

  lemma StepOnce(cfg: Config, l: Ledger, p: Proc)
    requires OncePerInvoice(l) && FreshProc(l, p)
    ensures OncePerInvoice(Step(cfg, l, p).0) && FreshProc(Step(cfg, l, p).0, Step(cfg, l, p).1)
  {
    match p
    case Promote(_, _, invoice) => MarkOnce(l, invoice);
    case HookPromote(invoice) => MarkOnce(l, invoice);
    case Put(_, key, created) => PutDistinct(l, key, created, Price(cfg, key.resource));
    case _ =>
  }

  lemma {:induction false} SoloOnce(cfg: Config, l: Ledger, p: Proc)
    requires OncePerInvoice(l) && FreshProc(l, p) && PaidWasReported(l) && Backed(l, p)
    ensures OncePerInvoice(Solo(cfg, l, p).0) && PaidWasReported(Solo(cfg, l, p).0)
    decreases Rank(p)
  {
    if !p.Done? {
      Unfold(cfg, l, p);
      StepDescends(cfg, l, p);
      StepOnce(cfg, l, p);
      StepKeepsReported(cfg, l, p);
      SoloOnce(cfg, Step(cfg, l, p).0, Step(cfg, l, p).1);
    }
  }

  lemma {:induction false} ServeOnce(cfg: Config, rs: seq<Request>)
    requires FreshIds(cfg, rs)
    ensures OncePerInvoice(Serve(cfg, NOTHING, rs)) && PaidWasReported(Serve(cfg, NOTHING, rs))
  {
    if rs != [] {
      var n := |rs| - 1;
      assert FreshIds(cfg, rs[..n]) by {
        assert forall i | 0 <= i < n :: rs[..n][..i] == rs[..i];
      }
      ServeOnce(cfg, rs[..n]);
      SoloOnce(cfg, Serve(cfg, NOTHING, rs[..n]), Start(cfg, rs[n]));
    }
  }

  lemma SubMultiset<T>(a: multiset<T>, b: multiset<T>)
    requires forall x :: a[x] <= b[x]
    ensures |a| <= |b|
  {
    assert b == a + (b - a);
  }

  /**
   With fresh invoice ids in name mode, there are never more registrations than distinct
   invoices the backend reported paid.
   */
  lemma RegistrationsArePaidFor(cfg: Config, rs: seq<Request>)
    requires cfg.mode == NameMode && FreshIds(cfg, rs)
    ensures var l := Serve(cfg, NOTHING, rs);
            |l.registrations| <= |l.promoted| <= |l.reported| && l.promoted <= l.reported
  {
    var l := Serve(cfg, NOTHING, rs);
    RegistrationsMatchPromotions(cfg, rs);
    ServeOnce(cfg, rs);
    forall key
      ensures l.registrations[key] <= l.promotions[key]
    {
      assert l.registrations[key] + Held(l, key) == l.promotions[key];
    }
    SubMultiset(l.registrations, l.promotions);
    Subset(l.promoted, l.reported);
  }

  lemma Subset<T>(a: set<T>, b: set<T>)
    requires a <= b
    ensures |a| <= |b|
  {
    assert b == a + (b - a);
  }

  // ---------------------------------------------------------------------------
  // Single requests

  lemma {:induction false} SoloKeepsPaid(cfg: Config, l: Ledger, p: Proc, key: Key)
    requires Knows(cfg, l, p) && IsPaid(l, key)
    ensures !IsPaid(Solo(cfg, l, p).0, key) ==>
              Solo(cfg, l, p).1 == Registered && cfg.mode == NameMode && key.resource == "name"
    decreases Rank(p)
  {
    if !p.Done? {
      Unfold(cfg, l, p);
      StepDescends(cfg, l, p);
      StepKnows(cfg, l, p);
      PaidLostIff(cfg, l, p, key);
      var (m, q) := Step(cfg, l, p);
      if p.Consume? {
        assert q == Done(Registered);
      } else {
        SoloKeepsPaid(cfg, m, q, key);
      }
    }
  }

  /** In write mode a paid grant is for ever. */
  lemma WriteGrantStays(cfg: Config, l: Ledger, r: Request, key: Key)
    requires cfg.mode == WriteMode && IsPaid(l, key)
    ensures IsPaid(Handle(cfg, l, r).0, key)
  {
    StartKnows(cfg, l, r);
    SoloKeepsPaid(cfg, l, Start(cfg, r), key);
  }

  /** The owner's registration with a grant already paid. */
  lemma PaidRegistration(cfg: Config, l: Ledger, r: Request)
    requires cfg.mode == NameMode && r.Register? && r.available && IsPaid(l, NameKey(r.pubkey))
    ensures Handle(cfg, l, r) ==
            if r.acquired then (ConsumeGrant(RecordRegistration(l, r.pubkey), NameKey(r.pubkey)), Registered)
            else (l, Refused)
  {
    var key, caller := NameKey(r.pubkey), ForRegister(r.acquired);
    Unfold(cfg, l, EnsureRead(caller, key, r.outside));
    Unfold(cfg, l, Upsert(r.pubkey, r.acquired));
    if r.acquired {
      Unfold(cfg, RecordRegistration(l, r.pubkey), Consume(r.pubkey));
    }
  }

  /** Only `Consume` deletes, and it deletes the caller's own grant. */
  lemma {:induction false} OthersKeepPaid(cfg: Config, l: Ledger, p: Proc, key: Key)
    requires Knows(cfg, l, p) && IsPaid(l, key)
    requires forall pubkey :: NameKey(pubkey) == key ==> !Spends(p, pubkey)
    ensures IsPaid(Solo(cfg, l, p).0, key)
    decreases Rank(p)
  {
    if !p.Done? {
      Unfold(cfg, l, p);
      StepDescends(cfg, l, p);
      StepKnows(cfg, l, p);
      PaidLostIff(cfg, l, p, key);
      var (m, q) := Step(cfg, l, p);
      assert p.Consume? ==> Spends(p, p.pubkey);
      assert forall pubkey :: Spends(q, pubkey) ==> Spends(p, pubkey);
      OthersKeepPaid(cfg, m, q, key);
    }
  }

  /** The request may go on to spend the `name` grant of this key. */
  ghost predicate Spends(p: Proc, pubkey: Pubkey) {
    match p
    case Consume(k) => k == pubkey
    case Upsert(k, _) => k == pubkey
    case EnsureRead(caller, key, _) => caller.ForRegister? && key.pubkey == pubkey
    case Poll(caller, key, _, _) => caller.ForRegister? && key.pubkey == pubkey
    case Promote(caller, key, _) => caller.ForRegister? && key.pubkey == pubkey
    case Create(caller, key, _) => caller.ForRegister? && key.pubkey == pubkey
    case Put(caller, key, _) => caller.ForRegister? && key.pubkey == pubkey
    case _ => false
  }

  /** No paid `name` grant is lost: it goes exactly when its owner is registered with it. */
  lemma PaidGrantSpentIff(cfg: Config, l: Ledger, r: Request, pubkey: Pubkey)
    requires cfg.mode == NameMode && IsPaid(l, NameKey(pubkey))
    ensures !IsPaid(Handle(cfg, l, r).0, NameKey(pubkey)) <==>
            r.Register? && r.pubkey == pubkey && Handle(cfg, l, r).1 == Registered
  {
    if r.Register? && r.pubkey == pubkey && r.available {
      PaidRegistration(cfg, l, r);
    } else {
      var p := Start(cfg, r);
      StartKnows(cfg, l, r);
      assert !Spends(p, pubkey);
      OthersKeepPaid(cfg, l, p, NameKey(pubkey));
      if r.Register? && !r.available {
        assert p == Done(Refused);
      }
    }
  }

  // ---------------------------------------------------------------------------
  // What the answers say about the table

  /** The row whose payment a request asks about. */
  function Asked(r: Request): Key
    requires !r.Webhook?
  {
    match r
    case Status(pubkey, _) => WriteKey(Lower(pubkey))
    case Quote(pubkey, resource, _) => Key(pubkey, resource)
    case Register(pubkey, _, _, _) => NameKey(pubkey)
  }

  /** An answer is true of the table as the request leaves it. */
  ghost predicate Truthful(l: Ledger, key: Key, answer: Answer) {
    match answer
    case PaidYes => IsPaid(l, key)
    case NotPaid => key !in l.grants
    case PaymentDue(invoice, payUrl, price) => key in l.grants && l.grants[key] == Grant(invoice, payUrl, price, Pending)
    case Unavailable => !IsPaid(l, key)
    case _ => true
  }

  ghost predicate About(cfg: Config, l: Ledger, p: Proc, key: Key) {
    match p
    case Done(answer) => Truthful(l, key, answer)
    case StatusRead(k, _) => k == key
    case EnsureRead(_, k, _) => k == key
    case Poll(_, k, _, _) => k == key
    case Promote(_, k, _) => k == key
    case Create(_, k, _) => k == key
    case Put(_, k, _) => k == key
    case _ => true
  }

  lemma StepAbout(cfg: Config, l: Ledger, p: Proc, key: Key)
    requires Knows(cfg, l, p) && About(cfg, l, p, key)
    ensures About(cfg, Step(cfg, l, p).0, Step(cfg, l, p).1, key)
  {
    match p
    case Promote(_, k, invoice) => assert IsPaid(MarkPaid(l, invoice), k);
    case _ =>
  }

  lemma {:induction false} SoloTruthful(cfg: Config, l: Ledger, p: Proc, key: Key)
    requires Knows(cfg, l, p) && About(cfg, l, p, key)
    ensures Truthful(Solo(cfg, l, p).0, key, Solo(cfg, l, p).1)
    decreases Rank(p)
  {
    if !p.Done? {
      Unfold(cfg, l, p);
      StepDescends(cfg, l, p);
      StepKnows(cfg, l, p);
      StepAbout(cfg, l, p, key);
      SoloTruthful(cfg, Step(cfg, l, p).0, Step(cfg, l, p).1, key);
    }
  }

  /** What `ensure_paid` can come to. */
  predicate PaymentOutcome(answer: Answer) {
    answer.PaidYes? || answer.PaymentDue? || answer.Unavailable?
  }

  ghost predicate Paying(p: Proc) {
    match p
    case Done(answer) => PaymentOutcome(answer)
    case EnsureRead(caller, _, _) => !caller.ForRegister?
    case Poll(caller, _, _, _) => !caller.ForRegister?
    case Promote(caller, _, _) => !caller.ForRegister?
    case Create(caller, _, _) => !caller.ForRegister?
    case Put(caller, _, _) => !caller.ForRegister?
    case _ => false
  }

  lemma {:induction false} PayingEnds(cfg: Config, l: Ledger, p: Proc)
    requires Paying(p)
    ensures PaymentOutcome(Solo(cfg, l, p).1)
    decreases Rank(p)
  {
    if !p.Done? {
      Unfold(cfg, l, p);
      StepDescends(cfg, l, p);
      PayingEnds(cfg, Step(cfg, l, p).0, Step(cfg, l, p).1);
    }
  }

  /** A status question about a well-formed key is answered paid, not paid, due or unavailable. */
  lemma StatusKinds(cfg: Config, l: Ledger, key: Key, outside: Outside)
    ensures var answer := Solo(cfg, l, StatusRead(key, outside)).1; answer == NotPaid || PaymentOutcome(answer)
  {
    var p := StatusRead(key, outside);
    Unfold(cfg, l, p);
    if key in l.grants {
      PayingEnds(cfg, Step(cfg, l, p).0, Step(cfg, l, p).1);
    }
  }

  /**
   "Paid" is said only of a grant that stands paid, and a price is quoted only with the
   pending grant that carries it.
   */
  lemma AnswersAreTrue(cfg: Config, l: Ledger, r: Request)
    requires !r.Webhook? && (r.Status? ==> cfg.mode == WriteMode)
    ensures Truthful(Handle(cfg, l, r).0, Asked(r), Handle(cfg, l, r).1)
  {
    StartKnows(cfg, l, r);
    SoloTruthful(cfg, l, Start(cfg, r), Asked(r));
  }

  // ---------------------------------------------------------------------------
  // What one request keeps and leaves

  /** The ledger between requests. */
  ghost predicate Sound(cfg: Config, l: Ledger) {
    PaidWasReported(l) && (cfg.mode == NameMode ==> Settled(l))
  }

  lemma {:induction false} SoloReported(cfg: Config, l: Ledger, p: Proc)
    requires PaidWasReported(l) && Backed(l, p)
    ensures PaidWasReported(Solo(cfg, l, p).0)
    decreases Rank(p)
  {
    if !p.Done? {
      Unfold(cfg, l, p);
      StepDescends(cfg, l, p);
      StepKeepsReported(cfg, l, p);
      SoloReported(cfg, Step(cfg, l, p).0, Step(cfg, l, p).1);
    }
  }

  lemma StartBalanced(cfg: Config, l: Ledger, r: Request)
    requires Settled(l)
    ensures Balanced(l, Start(cfg, r))
  {
    assert forall key :: Unspent(Start(cfg, r), key) == 0;
  }

  /** Every request keeps the ledger sound, and with a fresh invoice id, once paid per invoice. */
  lemma HandleKeeps(cfg: Config, l: Ledger, r: Request)
    requires Sound(cfg, l)
    ensures Sound(cfg, Handle(cfg, l, r).0)
    ensures OncePerInvoice(l) && FreshRequest(l, r) ==> OncePerInvoice(Handle(cfg, l, r).0)
  {
    var p := Start(cfg, r);
    StartKnows(cfg, l, r);
    SoloReported(cfg, l, p);
    if cfg.mode == NameMode {
      StartBalanced(cfg, l, r);
      SoloBalances(cfg, l, p);
    }
    if OncePerInvoice(l) && FreshRequest(l, r) {
      SoloOnce(cfg, l, p);
    }
  }

  /** Only this key's registration can come of the request. */
  ghost predicate SpendsOnly(p: Proc, pubkey: Pubkey) {
    forall k :: Spends(p, k) ==> k == pubkey
  }

  /** A request that ends in a registration has counted it once, and in name mode spent its grant. */
  lemma {:induction false} SoloRegisters(cfg: Config, l: Ledger, p: Proc, pubkey: Pubkey)
    requires SpendsOnly(p, pubkey) && !p.Done? && !p.Consume?
    ensures var (m, answer) := Solo(cfg, l, p);
            if answer == Registered
            then m.registrations == l.registrations + multiset{NameKey(pubkey)}
                 && (cfg.mode == NameMode ==> NameKey(pubkey) !in m.grants)
            else m.registrations == l.registrations
    decreases Rank(p)
  {
    var (m, q) := Step(cfg, l, p);
    Unfold(cfg, l, p);
    StepDescends(cfg, l, p);
    if p.Upsert? {
      assert Spends(p, p.pubkey);
      if p.acquired && cfg.mode == NameMode {
        Unfold(cfg, m, q);
      }
    } else if !q.Done? {
      assert forall k :: Spends(q, k) ==> Spends(p, k);
      SoloRegisters(cfg, m, q, pubkey);
    }
  }

  /** A registration is counted exactly when it is answered so, and in name mode it costs the grant. */
  lemma RegistrationCounted(cfg: Config, l: Ledger, r: Request)
    requires r.Register?
    ensures var (m, answer) := Handle(cfg, l, r);
            if answer == Registered
            then m.registrations == l.registrations + multiset{NameKey(r.pubkey)}
                 && (cfg.mode == NameMode ==> NameKey(r.pubkey) !in m.grants)
            else m.registrations == l.registrations
  {
    if r.available {
      SoloRegisters(cfg, l, Start(cfg, r), r.pubkey);
    }
  }

  /** A quote is refused exactly when the resource is not sold; else it says whether the grant is paid. */
  lemma QuoteTells(cfg: Config, l: Ledger, r: Request)
    requires r.Quote?
    ensures var (m, answer) := Handle(cfg, l, r);
            && (answer == Refused <==> !ForSale(cfg.mode, r.resource))
            && (ForSale(cfg.mode, r.resource) ==>
                  && Truthful(m, Key(r.pubkey, r.resource), answer)
                  && (answer == PaidYes <==> IsPaid(m, Key(r.pubkey, r.resource))))
  {
    AnswersAreTrue(cfg, l, r);
    if ForSale(cfg.mode, r.resource) {
      PayingEnds(cfg, l, Start(cfg, r));
    }
  }

  /** In write mode a well-formed key is told exactly whether its grant is paid. */
  lemma StatusTells(cfg: Config, l: Ledger, r: Request)
    requires r.Status?
    ensures var (m, answer) := Handle(cfg, l, r);
            && (answer == NotFound <==> !Hex.ValidPubkey(Lower(r.pubkey)))
            && (answer != NotFound ==> (answer == PaidYes <==> cfg.mode != WriteMode || IsPaid(m, Asked(r))))
  {
    if Hex.ValidPubkey(Lower(r.pubkey)) && cfg.mode == WriteMode {
      AnswersAreTrue(cfg, l, r);
      StatusKinds(cfg, l, Asked(r), r.outside);
    }
  }

  /** With distinct invoices a webhook is polled exactly when a pending grant holds its invoice. */
  lemma HookReadsIff(l: Ledger, invoice: Invoice, pendingFirst: bool)
    requires Distinct(l)
    ensures ReadsPending(l, invoice, pendingFirst) <==>
            exists k :: k in l.grants && l.grants[k].invoice == invoice && l.grants[k].status == Pending
  {
    var holders := set k | k in l.grants && l.grants[k].invoice == invoice;
    if k :| k in l.grants && l.grants[k].invoice == invoice && l.grants[k].status == Pending {
      assert holders == {k} && Promotable(l, invoice) == {k};
    }
  }
}
