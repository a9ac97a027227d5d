/**
 What requests answer when they run to completion, and how whole requests relate to runs
 whose steps interleave.
 */
module Outcomes {
  import opened Wrappers
  import opened Text
  import opened Proof
  import opened Store
  import opened Protocol
  import opened Payment
  import opened Offers
  import opened Interleaving
  import opened Sequential
  import Tags

  lemma Unfold(cfg: Config, s: State, p: Proc)
    requires !p.Done?
    ensures Solo(cfg, s, p) == Solo(cfg, Step(cfg, s, p).0, Step(cfg, s, p).1)
  {
  }

  // ---------------------------------------------------------------------------
  // Claims

  /** The offer as a claim sees it, after lazy expiry. */
  function Settled(o: OfferRow, now: int, tip: Option<U64>): OfferRow {
    if o.status == Live && o.expiration < now then
      o.(status := Expired, endHeight := Height(tip), stateChangedAt := Some(now))
    else o
  }

  function Settle(s: State, o: OfferRow, now: int, tip: Option<U64>): State {
    s.(offers := s.offers[o.offerId := Settled(o, now, tip)])
  }

  /** The name is held by this key. */
  ghost predicate Holds(s: State, name: Name, key: Pubkey) {
    name in s.names && s.names[name].pubkey == key && s.names[name].releasedAt == None
  }

  /** Nobody holds the name. */
  ghost predicate Free(s: State, name: Name) {
    name in s.names ==> s.names[name].releasedAt != None
  }

  /** The key holds no name. */
  ghost predicate Nameless(s: State, key: Pubkey) {
    forall n | n in s.names && s.names[n].pubkey == key :: s.names[n].releasedAt != None
  }

  /** No transfer was paid with this excess. */
  ghost predicate Unspent(s: State, excess: string) {
    forall id | id in s.transfers :: s.transfers[id].excess != excess
  }

  lemma QueriesAre(s: State, name: Name, key: Pubkey, excess: string)
    ensures Owns(s, name, key) <==> Holds(s, name, key)
    ensures Active(s, name) <==> !Free(s, name)
    ensures HasName(s, key) <==> !Nameless(s, key)
    ensures ExcessUsed(s, excess) <==> !Unspent(s, excess)
  {
    if !Nameless(s, key) {
      var n :| n in s.names && s.names[n].pubkey == key && s.names[n].releasedAt == None;
      assert Owns(s, n, key);
    }
  }

  /** The conditions of a claim, on the settled offer. */
  ghost predicate Acceptable(cfg: Config, s: State, q: ClaimRequest, o: OfferRow) {
    && o.status != Consumed
    && Honored(cfg, q.now, o)
    && q.auth == o.buyer
    && Holds(s, o.name, o.seller)
    && PaysFor(cfg, q.proof, q.kernel, o)
    && Unspent(s, q.proof.excess)
    && Nameless(s, o.buyer)
  }

  /** The tables after a successful claim: one row of each changes, and the seller's cooldown starts. */
  ghost function AfterClaim(s: State, q: ClaimRequest, o: OfferRow): State {
    State(s.names[o.name := NameRow(o.buyer, q.now, None)],
          s.offers[o.offerId := o.(status := Consumed)],
          s.transfers[o.offerId := TransferRow(o.offerId, o.name, o.seller, o.buyer, o.price, q.proof.excess,
                                               if q.kernel.Some? then Height(q.kernel.value.height) else None, q.now)],
          s.armed + [Arming(o.seller, q.now)])
  }

  /** The answer to a claim of an offer as it stands after lazy expiry: the first rule that decides it. */
  ghost function ClaimAnswer(cfg: Config, s: State, q: ClaimRequest, o: OfferRow): Response {
    if o.status == Consumed then
      if q.offerId in s.transfers && s.transfers[q.offerId].excess == q.proof.excess
      then ClaimedBefore(s.transfers[q.offerId].name, s.transfers[q.offerId].buyer)
      else Rejected(OfferConsumed)
    else if !Honored(cfg, q.now, o) then Rejected(OfferDead)
    else if q.auth != o.buyer then Rejected(NotTheBuyer)
    else if !Holds(s, o.name, o.seller) then Rejected(OwnerMoved)
    else match Objection(cfg, q.proof, q.kernel, o)
      case Some(reason) => Rejected(reason)
      case None =>
        if !Unspent(s, q.proof.excess) then Rejected(ProofReused)
        else if !Nameless(s, o.buyer) then Rejected(KeyHasName)
        else Claimed(o.name, o.buyer)
  }

  /** A claim from its start to the offer as settled. */
  lemma SettleFirst(cfg: Config, s: State, q: ClaimRequest)
    ensures q.offerId !in s.offers ==> Solo(cfg, s, ClaimGet(q)) == (s, Rejected(NotFound))
    ensures q.offerId in s.offers ==>
            var o := s.offers[q.offerId];
            var m := MarkOfferDead(s, o.offerId, Expired, Height(q.tip), q.now);
            Solo(cfg, s, ClaimGet(q)) ==
            if Overdue(o, q.now) then Solo(cfg, m, AfterSettle(cfg, q, GetOffer(m, o.offerId).GetOr(o)))
            else Solo(cfg, s, AfterSettle(cfg, q, o))
  {
    Unfold(cfg, s, ClaimGet(q));
    if q.offerId in s.offers && Overdue(s.offers[q.offerId], q.now) {
      var o := s.offers[q.offerId];
      Unfold(cfg, s, ClaimSettle(q, o));
      Unfold(cfg, MarkOfferDead(s, o.offerId, Expired, Height(q.tip), q.now), ClaimAgain(q, o));
    }
  }

  /** A claim from its transaction on. */
  lemma CommitTail(cfg: Config, s: State, q: ClaimRequest, o: OfferRow)
    ensures var (t, result) := ClaimTxn(s, o, q.proof.excess, KernelHeight(q), q.now);
            Solo(cfg, s, ClaimCommit(q, o)) ==
            if result != Committed then (t, TxFailed(result))
            else (Arm(t, o.seller, q.now), Claimed(o.name, o.buyer))
  {
    var (t, result) := ClaimTxn(s, o, q.proof.excess, KernelHeight(q), q.now);
    Unfold(cfg, s, ClaimCommit(q, o));
    if result == Committed {
      Unfold(cfg, t, ClaimArm(q, o));
    }
  }

  /** A claim from its excess check on. */
  lemma ExcessTail(cfg: Config, s: State, q: ClaimRequest, o: OfferRow)
    ensures var (t, result) := ClaimTxn(s, o, q.proof.excess, KernelHeight(q), q.now);
            Solo(cfg, s, ClaimExcess(q, o)) ==
            if ExcessUsed(s, q.proof.excess) then (s, Rejected(ProofReused))
            else if HasName(s, o.buyer) then (s, Rejected(KeyHasName))
            else if result != Committed then (t, TxFailed(result))
            else (Arm(t, o.seller, q.now), Claimed(o.name, o.buyer))
  {
    Unfold(cfg, s, ClaimExcess(q, o));
    if !ExcessUsed(s, q.proof.excess) {
      Unfold(cfg, s, ClaimBuyer(q, o));
      if !HasName(s, o.buyer) {
        CommitTail(cfg, s, q, o);
      }
    }
  }

  /** Lodging from its owner check on. */
  lemma LodgeTail(cfg: Config, s: State, row: OfferRow)
    ensures Solo(cfg, s, LodgeOwner(row)) ==
            if !Owns(s, row.name, row.seller) then (s, Rejected(NotTheOwner))
            else if LiveForName(s, row.name, row.createdAt) then (s, Rejected(OfferExists))
            else if LiveForAddress(s, row.proofAddress, row.createdAt) then (s, Rejected(OfferAmbiguous))
            else if row.offerId in s.offers then (s, Rejected(OfferExists))
            else (s.(offers := s.offers[row.offerId := row]), Lodged)
  {
    Unfold(cfg, s, LodgeOwner(row));
    Unfold(cfg, s, LodgeName(row));
    Unfold(cfg, s, LodgeAddress(row));
    Unfold(cfg, s, LodgeInsert(row));
  }

  lemma CommittedIs(s: State, q: ClaimRequest, o: OfferRow)
    requires Current(s, o) && o.offerId !in s.transfers
    requires Holds(s, o.name, o.seller) && Unspent(s, q.proof.excess) && Nameless(s, o.buyer)
    ensures var (t, result) := ClaimTxn(s, o, q.proof.excess, KernelHeight(q), q.now);
            result == Committed && Arm(t, o.seller, q.now) == AfterClaim(s, q, o)
  {
    QueriesAre(s, o.name, o.seller, q.proof.excess);
    QueriesAre(s, o.name, o.buyer, q.proof.excess);
    assert !IndexBlocks(s, o.name, o.buyer);
  }

  /** A claim from its owner check on. */
  lemma OwnerTail(cfg: Config, s: State, q: ClaimRequest, o: OfferRow)
    requires Current(s, o) && o.offerId !in s.transfers
    requires o.status != Consumed && Honored(cfg, q.now, o) && q.auth == o.buyer
    ensures Solo(cfg, s, ClaimOwner(q, o)) ==
            (if Acceptable(cfg, s, q, o) then AfterClaim(s, q, o) else s, ClaimAnswer(cfg, s, q, o))
  {
    Unfold(cfg, s, ClaimOwner(q, o));
    QueriesAre(s, o.name, o.seller, q.proof.excess);
    QueriesAre(s, o.name, o.buyer, q.proof.excess);
    ObjectionIs(cfg, q, o);
    if Holds(s, o.name, o.seller) && Objection(cfg, q.proof, q.kernel, o).None? {
      ExcessTail(cfg, s, q, o);
      if Unspent(s, q.proof.excess) && Nameless(s, o.buyer) {
        CommittedIs(s, q, o);
      }
    }
  }

  /** The answer to a claim of a consumed offer. */
  lemma ReplayTail(cfg: Config, s: State, q: ClaimRequest, o: OfferRow)
    ensures Solo(cfg, s, ClaimReplay(q, o)) ==
            (s, if q.offerId in s.transfers && s.transfers[q.offerId].excess == q.proof.excess
                then ClaimedBefore(s.transfers[q.offerId].name, s.transfers[q.offerId].buyer)
                else Rejected(OfferConsumed))
  {
    Unfold(cfg, s, ClaimReplay(q, o));
  }

  lemma SettledTail(cfg: Config, s: State, q: ClaimRequest, o: OfferRow)
    requires Current(s, o) && (o.status != Consumed ==> o.offerId !in s.transfers)
    ensures Solo(cfg, s, AfterSettle(cfg, q, o)) ==
            (if Acceptable(cfg, s, q, o) then AfterClaim(s, q, o) else s, ClaimAnswer(cfg, s, q, o))
  {
    HonoredIff(cfg, q, o);
    if o.status == Consumed {
      ReplayTail(cfg, s, q, o);
    } else if Honored(cfg, q.now, o) && q.auth == o.buyer {
      OwnerTail(cfg, s, q, o);
    }
  }

  lemma SuccessIff(cfg: Config, s: State, q: ClaimRequest, o: OfferRow)
    ensures ClaimAnswer(cfg, s, q, o).Claimed? <==> Acceptable(cfg, s, q, o)
    ensures !ClaimAnswer(cfg, s, q, o).TxFailed?
    ensures Acceptable(cfg, s, q, o) ==> ClaimAnswer(cfg, s, q, o) == Claimed(o.name, o.buyer)
  {
    ObjectionIs(cfg, q, o);
  }

  /**
   A claim that runs to completion is answered by the first rule that decides it, and
   succeeds exactly when the settled offer and the tables meet all its conditions. Then the
   name, the transfer, the offer and the seller's cooldown change together; otherwise nothing
   changes but the lazy expiry. The transaction itself is never what refuses it.
   */
  lemma ClaimSucceedsIff(cfg: Config, s: State, q: ClaimRequest)
    requires StateInv(s) && TransferIffConsumed(s) && q.offerId in s.offers
    ensures var o := Settled(s.offers[q.offerId], q.now, q.tip);
            var s1 := s.(offers := s.offers[q.offerId := o]);
            var (t, r) := Solo(cfg, s, ClaimGet(q));
            && r == ClaimAnswer(cfg, s1, q, o) && !r.TxFailed?
            && (r.Claimed? <==> Acceptable(cfg, s1, q, o))
            && t == if r.Claimed? then AfterClaim(s1, q, o) else s1
  {
    var o0 := s.offers[q.offerId];
    var s1 := Settle(s, o0, q.now, q.tip);
    var o := Settled(o0, q.now, q.tip);
    SettleFirst(cfg, s, q);
    if Overdue(o0, q.now) {
      assert MarkOfferDead(s, o0.offerId, Expired, Height(q.tip), q.now) == s1;
    } else {
      assert s1 == s by { assert s1.offers == s.offers; }
    }
    SettledTail(cfg, s1, q, o);
    SuccessIff(cfg, s1, q, o);
  }

  /** What a success leaves behind. */
  lemma ClaimRecords(cfg: Config, s: State, q: ClaimRequest)
    requires StateInv(s) && TransferIffConsumed(s)
    requires Solo(cfg, s, ClaimGet(q)).1.Claimed?
    ensures var (t, r) := Solo(cfg, s, ClaimGet(q));
            && q.offerId in t.offers && t.offers[q.offerId].status == Consumed
            && q.offerId in t.transfers && t.transfers[q.offerId].excess == q.proof.excess
            && t.transfers[q.offerId].name == r.name && t.transfers[q.offerId].buyer == r.buyer
            && Owns(t, r.name, r.buyer)
            && t.armed == s.armed + [Arming(t.offers[q.offerId].seller, q.now)]
  {
    if q.offerId in s.offers {
      ClaimSucceedsIff(cfg, s, q);
    } else {
      Unfold(cfg, s, ClaimGet(q));
    }
  }

  /** The claim that a request makes: a 64-digit id in either case, and an object read as a proof. */
  ghost predicate Makes(r: Request, q: ClaimRequest) {
    && r.Claim? && |r.offerId| == 64
    && (forall i | 0 <= i < 64 ::
          '0' <= r.offerId[i] <= '9' || 'a' <= r.offerId[i] <= 'f' || 'A' <= r.offerId[i] <= 'F')
    && q.offerId == Lower(r.offerId) && ProofOf(r.proof, q.proof)
    && q.auth == r.auth && q.now == r.now && q.tip == r.tip && q.kernel == r.kernel
  }

  lemma ClaimOfIff(r: Request, q: ClaimRequest)
    ensures ClaimOf(r) == Some(q) <==> Makes(r, q)
  {
    if r.Claim? {
      ParsedIff(r.proof, q.proof);
    }
  }

  function ClaimOf(r: Request): Option<ClaimRequest> {
    if r.Claim? && ValidOfferId(r.offerId) && ParsePaymentProof(r.proof).Some? then
      Some(ClaimRequest(r.auth, Lower(r.offerId), ParsePaymentProof(r.proof).value, r.now, r.tip, r.kernel))
    else None
  }

  /**
   A claim can be repeated at any later time, by anyone, after any requests: the same offer
   and excess get the same name and buyer, and nothing changes.
   */
  lemma RetryIsIdempotent(cfg: Config, s: State, from: int, first: Request, rs: seq<Request>, retry: Request)
    requires SeqInv(cfg, s, from) && from <= Time(first) && Chronological(rs, Time(first))
    requires Handle(cfg, s, first).1.Claimed?
    requires ClaimOf(first).Some? && ClaimOf(retry).Some?
    requires ClaimOf(retry).value.offerId == ClaimOf(first).value.offerId
    requires ClaimOf(retry).value.proof.excess == ClaimOf(first).value.proof.excess
    ensures var (t, r) := Handle(cfg, s, first);
            var later := Serve(cfg, t, rs);
            Handle(cfg, later, retry) == (later, ClaimedBefore(r.name, r.buyer))
  {
    var q, q2 := ClaimOf(first).value, ClaimOf(retry).value;
    ClaimRecords(cfg, s, q);
    HandleKeeps(cfg, s, from, first);
    var t := Handle(cfg, s, first).0;
    ServeKeeps(cfg, t, Time(first), rs);
    RetryTail(cfg, Serve(cfg, t, rs), q2);
  }

  lemma RetryTail(cfg: Config, s: State, q: ClaimRequest)
    requires q.offerId in s.offers && s.offers[q.offerId].status == Consumed
    requires q.offerId in s.transfers && s.transfers[q.offerId].excess == q.proof.excess
    ensures Solo(cfg, s, ClaimGet(q)) ==
            (s, ClaimedBefore(s.transfers[q.offerId].name, s.transfers[q.offerId].buyer))
  {
    Unfold(cfg, s, ClaimGet(q));
    ReplayTail(cfg, s, q, s.offers[q.offerId]);
  }

  /** What a claim request does to the tables, and its answer. */
  ghost predicate Decides(cfg: Config, s: State, r: Request, t: State, answer: Response) {
    && ((forall q :: !Makes(r, q)) ==> answer == Rejected(BadRequest) && t == s)
    && forall q | Makes(r, q) ::
         if q.offerId !in s.offers then answer == Rejected(NotFound) && t == s
         else
           var o := Settled(s.offers[q.offerId], q.now, q.tip);
           var s1 := s.(offers := s.offers[q.offerId := o]);
           && answer == ClaimAnswer(cfg, s1, q, o)
           && (answer.Claimed? <==> Acceptable(cfg, s1, q, o))
           && t == if answer.Claimed? then AfterClaim(s1, q, o) else s1
  }

  /** Every claim request, well-formed or not. */
  lemma ClaimDecided(cfg: Config, s: State, r: Request)
    requires StateInv(s) && TransferIffConsumed(s) && r.Claim?
    ensures var (t, answer) := Handle(cfg, s, r); Decides(cfg, s, r, t, answer) && !answer.TxFailed?
  {
    forall q
      ensures ClaimOf(r) == Some(q) <==> Makes(r, q)
    {
      ClaimOfIff(r, q);
    }
    if ClaimOf(r).Some? {
      var q := ClaimOf(r).value;
      if q.offerId in s.offers {
        ClaimSucceedsIff(cfg, s, q);
      } else {
        SettleFirst(cfg, s, q);
      }
    }
  }

  // ---------------------------------------------------------------------------
  // Registration, lodging, release and cooldown

  /** A registration from its owner lookup on. */
  lemma RegisterTail(cfg: Config, s: State, auth: Pubkey, name: Name, entitled: bool, now: int)
    ensures Solo(cfg, s, RegLookup(auth, name, entitled, now)) ==
            if Owns(s, name, auth) then (s, AlreadyYours)
            else if Active(s, name) then (s, Rejected(NameTaken))
            else if HasName(s, auth) then (s, Rejected(KeyHasName))
            else if !entitled then (s, Rejected(PaymentRequired))
            else (s.(names := s.names[name := NameRow(auth, now, None)]), Registered)
  {
    Unfold(cfg, s, RegLookup(auth, name, entitled, now));
    if !Active(s, name) {
      Unfold(cfg, s, RegNameOf(auth, name, entitled, now));
      if !HasName(s, auth) && entitled {
        Unfold(cfg, s, RegUpsert(auth, name, now));
        assert !IndexBlocks(s, name, auth);
      }
    }
  }

  /** The key has come to own the name at `now`, and nothing else has changed. */
  ghost predicate NewlyHeld(s: State, t: State, name: Name, key: Pubkey, now: int) {
    t == s.(names := s.names[name := NameRow(key, now, None)])
  }

  /** A registration whose key is not cooling down. */
  function Unhindered(cfg: Config, s: State, r: Request): (State, Response)
    requires r.Register?
  {
    Solo(cfg, s, if r.wellFormed then RegLookup(r.auth, Lower(r.name), r.entitled, r.now) else Done(Rejected(BadRequest)))
  }

  /** The answer to such a registration: the first rule that decides it. */
  ghost function RegisterAnswer(s: State, r: Request): Response
    requires r.Register?
  {
    var name := Lower(r.name);
    if !r.wellFormed then Rejected(BadRequest)
    else if Holds(s, name, r.auth) then AlreadyYours
    else if !Free(s, name) then Rejected(NameTaken)
    else if !Nameless(s, r.auth) then Rejected(KeyHasName)
    else if !r.entitled then Rejected(PaymentRequired)
    else Registered
  }

  lemma UnhinderedIff(cfg: Config, s: State, r: Request)
    requires r.Register?
    ensures var (t, answer) := Unhindered(cfg, s, r);
            && answer == RegisterAnswer(s, r)
            && (answer == Registered ==> NewlyHeld(s, t, Lower(r.name), r.auth, r.now))
            && (answer != Registered ==> t == s)
            && answer != Rejected(CoolDown)
  {
    var name := Lower(r.name);
    QueriesAre(s, name, r.auth, "");
    RegisterTail(cfg, s, r.auth, name, r.entitled, r.now);
  }

  /** An operation of this key is younger than the cooldown. */
  ghost predicate Cooling(cfg: Config, s: State, key: Pubkey, now: int) {
    exists i | 0 <= i < |s.armed| :: s.armed[i].pubkey == key && now - s.armed[i].at < cfg.cooldown
  }

  /**
   A registration succeeds exactly for an entitled key without a name and without an
   operation in the full log's cooldown window, on a name nobody holds; then the key owns it,
   and nothing else has changed.
   */
  lemma RegisterIff(cfg: Config, s: State, r: Request)
    requires r.Register?
    ensures var (t, answer) := Handle(cfg, s, r);
            && answer == (if Cooling(cfg, s, r.auth, r.now) then Rejected(CoolDown) else RegisterAnswer(s, r))
            && (answer == Registered <==>
                  && !Cooling(cfg, s, r.auth, r.now) && r.wellFormed && r.entitled
                  && Free(s, Lower(r.name)) && Nameless(s, r.auth))
            && (answer == Registered ==> NewlyHeld(s, t, Lower(r.name), r.auth, r.now))
            && (answer != Registered ==> t == s)
  {
    Unfold(cfg, s, RegCooldown(r.auth, Lower(r.name), r.wellFormed, r.entitled, r.now));
    UnhinderedIff(cfg, s, r);
  }

  /** No offer for the name is live and unexpired. */
  ghost predicate NameUnbound(s: State, name: Name, now: int) {
    forall id | id in s.offers && s.offers[id].name == name ::
      s.offers[id].status != Live || s.offers[id].expiration < now
  }

  /** No offer with this proof address is live and unexpired. */
  ghost predicate AddressUnbound(s: State, address: string, now: int) {
    forall id | id in s.offers && s.offers[id].proofAddress == address ::
      s.offers[id].status != Live || s.offers[id].expiration < now
  }

  /** The answer to a well-made offer: the first rule that decides it. */
  ghost function LodgeAnswer(s: State, row: OfferRow): Response {
    if !Holds(s, row.name, row.seller) then Rejected(NotTheOwner)
    else if !NameUnbound(s, row.name, row.createdAt) then Rejected(OfferExists)
    else if !AddressUnbound(s, row.proofAddress, row.createdAt) then Rejected(OfferAmbiguous)
    else if row.offerId in s.offers then Rejected(OfferExists)
    else Lodged
  }

  /** What a request to lodge an offer does to the tables, and its answer. */
  ghost predicate Lodges(cfg: Config, s: State, auth: Pubkey, e: OfferEvent, now: int, t: State, answer: Response) {
    && ((forall row :: !RowOf(cfg, auth, e, now, row)) ==>
          t == s && answer == Rejected(if e.verified && e.isOffer && e.pubkey != auth then WrongKey else BadRequest))
    && forall row | RowOf(cfg, auth, e, now, row) ::
         && answer == LodgeAnswer(s, row)
         && t == if answer == Lodged then s.(offers := s.offers[e.id := row]) else s
  }

  lemma LodgeAnswered(cfg: Config, s: State, row: OfferRow)
    ensures Solo(cfg, s, LodgeOwner(row)) ==
            (if LodgeAnswer(s, row) == Lodged then s.(offers := s.offers[row.offerId := row]) else s,
             LodgeAnswer(s, row))
  {
    QueriesAre(s, row.name, row.seller, "");
    assert LiveForName(s, row.name, row.createdAt) <==> !NameUnbound(s, row.name, row.createdAt);
    assert LiveForAddress(s, row.proofAddress, row.createdAt) <==> !AddressUnbound(s, row.proofAddress, row.createdAt);
    LodgeTail(cfg, s, row);
  }

  /**
   A lodged offer is the row that the event's tags describe. It is lodged exactly when its
   seller holds the name, neither the name nor the proof address is bound by a live offer,
   and its id is new.
   */
  lemma LodgeIff(cfg: Config, s: State, auth: Pubkey, e: OfferEvent, now: int)
    ensures var (t, answer) := Handle(cfg, s, Lodge(auth, e, now));
            && Lodges(cfg, s, auth, e, now, t, answer)
            && (answer == Lodged <==>
                  exists row ::
                    && RowOf(cfg, auth, e, now, row) && Holds(s, row.name, auth)
                    && NameUnbound(s, row.name, now) && AddressUnbound(s, row.proofAddress, now) && e.id !in s.offers)
  {
    forall row
      ensures ValidateOffer(cfg, auth, e, now) == Success(row) <==> RowOf(cfg, auth, e, now, row)
    {
      RowIff(cfg, auth, e, now, row);
    }
    var valid := ValidateOffer(cfg, auth, e, now);
    if valid.Success? {
      LodgeAnswered(cfg, s, valid.value);
    }
  }

  /** A revocation, statement for statement. */
  lemma RevokeTail(cfg: Config, s: State, auth: Pubkey, id: OfferId, now: int, tip: Option<U64>)
    ensures Solo(cfg, s, RevokeGet(auth, id, now, tip)) ==
            if id !in s.offers then (s, Rejected(NotFound))
            else
              var o := s.offers[id];
              if auth != o.seller then (s, Rejected(NotTheOwner))
              else if o.status == Consumed then (s, Rejected(OfferConsumed))
              else if o.status == Revoked then (s, RevokedNow)
              else if o.status == Live then (MarkOfferDead(s, o.offerId, Revoked, Height(tip), now), RevokedNow)
              else (ForceRevoke(s, o.offerId), RevokedNow)
  {
    Unfold(cfg, s, RevokeGet(auth, id, now, tip));
    if id in s.offers {
      Unfold(cfg, s, RevokeMark(s.offers[id], now, tip));
      Unfold(cfg, s, RevokeForce(s.offers[id]));
    }
  }

  /** A read, statement for statement. */
  lemma ReadTail(cfg: Config, s: State, id: OfferId, now: int, tip: Option<U64>)
    ensures Solo(cfg, s, ReadGet(id, now, tip)) ==
            if id !in s.offers then (s, Rejected(NotFound))
            else
              var o := s.offers[id];
              var t := MarkOfferDead(s, o.offerId, Expired, Height(tip), now);
              if Overdue(o, now) then (t, OfferIs(GetOffer(t, o.offerId).GetOr(o).status)) else (s, OfferIs(o.status))
  {
    Unfold(cfg, s, ReadGet(id, now, tip));
    if id in s.offers {
      var o := s.offers[id];
      Unfold(cfg, s, ReadSettle(o, now, tip));
      Unfold(cfg, MarkOfferDead(s, o.offerId, Expired, Height(tip), now), ReadAgain(o));
    }
  }

  /** The offer once revoked: a live one dies now, a dead one keeps the death it had. */
  function RevokedRow(o: OfferRow, now: int, tip: Option<U64>): OfferRow {
    if o.status == Live then o.(status := Revoked, endHeight := Height(tip), stateChangedAt := Some(now))
    else o.(status := Revoked)
  }

  /** Its seller, and nobody else, can revoke an offer until it is consumed. */
  lemma RevokeIff(cfg: Config, s: State, auth: Pubkey, id: OfferId, now: int, tip: Option<U64>)
    requires RowsKeyed(s)
    ensures var (t, answer) := Handle(cfg, s, Revoke(auth, id, now, tip));
            && answer == (if id !in s.offers then Rejected(NotFound)
                          else if s.offers[id].seller != auth then Rejected(NotTheOwner)
                          else if s.offers[id].status == Consumed then Rejected(OfferConsumed)
                          else RevokedNow)
            && t == if answer == RevokedNow then s.(offers := s.offers[id := RevokedRow(s.offers[id], now, tip)]) else s
  {
    RevokeTail(cfg, s, auth, id, now, tip);
    if id in s.offers && s.offers[id].status == Revoked {
      assert s.offers[id := RevokedRow(s.offers[id], now, tip)] == s.offers;
    }
  }

  /** Reading an offer shows the status it is left with, and settles nothing but a due expiry. */
  lemma ReadShows(cfg: Config, s: State, id: OfferId, now: int, tip: Option<U64>)
    requires RowsKeyed(s)
    ensures var (t, answer) := Handle(cfg, s, Read(id, now, tip));
            if id in s.offers
            then t == s.(offers := s.offers[id := Settled(s.offers[id], now, tip)])
                 && answer == OfferIs(t.offers[id].status)
                 && (answer == OfferIs(Live) <==> s.offers[id].status == Live && now <= s.offers[id].expiration)
            else t == s && answer == Rejected(NotFound)
  {
    ReadTail(cfg, s, id, now, tip);
    if id in s.offers && !Overdue(s.offers[id], now) {
      assert s.offers[id := s.offers[id]] == s.offers;
    }
  }

  /** A release succeeds exactly for the active owner, ends that ownership only, and arms its cooldown. */
  lemma ReleaseIff(cfg: Config, s: State, auth: Pubkey, name: Name, now: int)
    ensures var (t, answer) := Handle(cfg, s, Unregister(auth, name, now));
            var n := Lower(name);
            && answer == (if Free(s, n) then Rejected(NotFound)
                          else if s.names[n].pubkey != auth then Rejected(NotTheOwner) else Released)
            && (answer == Released <==> Holds(s, n, auth))
            && t == if answer == Released
                    then s.(names := s.names[n := NameRow(auth, s.names[n].createdAt, Some(now))],
                            armed := s.armed + [Arming(auth, now)])
                    else s
  {
    var n := Lower(name);
    QueriesAre(s, n, auth, "");
    Unfold(cfg, s, UnregLookup(auth, n, now));
    if Owns(s, n, auth) {
      Unfold(cfg, s, UnregRelease(auth, n, now));
      Unfold(cfg, ReleaseName(s, n, now), UnregArm(auth, now));
    }
  }

  /**
   The price is stored signed: an offer lodged at 2^63 nanogrin or more can never be paid;
   below that the payment must be exactly the lodged price.
   */
  lemma PriceBound(cfg: Config, auth: Pubkey, e: OfferEvent, now: int, row: OfferRow, price: string, amount: U64)
    requires RowOf(cfg, auth, e, now, row) && Tags.LastGiven(e.tags, "price", price)
    ensures row.price == amount <==> ParseU64(Trim(price)) == Some(amount) && amount < 0x8000_0000_0000_0000
  {
    Tags.LastGivenIff(e.tags, "price", price);
    var x :| Tags.LastGiven(e.tags, "price", x) && ParseU64(Trim(x)).Some?
             && row.price == AsI64(ParseU64(Trim(x)).value);
    Tags.LastGivenIff(e.tags, "price", x);
  }

  // ---------------------------------------------------------------------------
  // Whole requests among interleaved ones

  function Ticks(id: nat, n: nat): (es: seq<Event>)
    ensures |es| == n
  {
    seq(n, _ => Tick(id))
  }

  lemma RunFirst(cfg: Config, sys: Sys, e: Event, es: seq<Event>)
    ensures Run(cfg, sys, [e] + es) == Run(cfg, Apply(cfg, sys, e), es)
  {
    RunConcat(cfg, sys, [e], es);
    assert [e][..0] == [];
    assert Run(cfg, sys, [e]) == Apply(cfg, Run(cfg, sys, [e][..0]), e);
  }

  /** Ticking one flight until it is done is running it to completion. */
  lemma {:induction false} TicksFinish(cfg: Config, sys: Sys, id: nat, n: nat)
    requires id in sys.flights && Rank(sys.flights[id]) <= n
    ensures var (t, r) := Solo(cfg, sys.state, sys.flights[id]);
            Run(cfg, sys, Ticks(id, n)) == Sys(t, sys.flights[id := Done(r)])
    decreases n
  {
    var p := sys.flights[id];
    if n == 0 {
      assert sys.flights[id := p] == sys.flights;
    } else {
      assert Ticks(id, n) == [Tick(id)] + Ticks(id, n - 1);
      RunFirst(cfg, sys, Tick(id), Ticks(id, n - 1));
      StepDescends(cfg, sys.state, p);
      TicksFinish(cfg, Apply(cfg, sys, Tick(id)), id, n - 1);
      if !p.Done? {
        Unfold(cfg, sys.state, p);
      }
    }
  }

  lemma RankBound(p: Proc)
    ensures Rank(p) <= 8
  {
  }

  /** A request that arrives and runs undisturbed. */
  lemma RequestFinishes(cfg: Config, sys: Sys, id: nat, r: Request)
    requires id !in sys.flights
    ensures var (t, answer) := Handle(cfg, sys.state, r);
            Run(cfg, sys, [Arrive(id, r)] + Ticks(id, 8)) == Sys(t, sys.flights[id := Done(answer)])
  {
    RunFirst(cfg, sys, Arrive(id, r), Ticks(id, 8));
    var sys1 := Apply(cfg, sys, Arrive(id, r));
    RankBound(sys1.flights[id]);
    TicksFinish(cfg, sys1, id, 8);
    var done := Handle(cfg, sys.state, r).1;
    assert sys1.flights[id := Done(done)] == sys.flights[id := Done(done)];
  }

  /** Every run of whole requests is one of the interleaved runs. */
  lemma {:induction false} ServeIsInterleaving(cfg: Config, rs: seq<Request>) returns (es: seq<Event>)
    ensures Reached(cfg, es) == Serve(cfg, EMPTY, rs)
    ensures forall id | id in Run(cfg, INITIAL, es).flights :: id < |rs|
  {
    es := [];
    if rs != [] {
      var n := |rs| - 1;
      var before := ServeIsInterleaving(cfg, rs[..n]);
      var more := [Arrive(n, rs[n])] + Ticks(n, 8);
      es := before + more;
      RunConcat(cfg, INITIAL, before, more);
      RequestFinishes(cfg, Run(cfg, INITIAL, before), n, rs[n]);
    }
  }
}
