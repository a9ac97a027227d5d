/**
 The authority as the program has it: an object holding the tables and the limiter, whose
 handlers run statement after statement. Every handler is proved to do what its steps in
 `Protocol` do when nothing comes between them, to keep the object valid, and to answer as
 its caller may expect.
 */
module Authority {
  import opened Wrappers
  import opened Text
  import opened Proof
  import opened Store
  import opened Protocol
  import opened Sequential
  import opened Payment
  import opened Offers
  import opened Outcomes
  import opened Cooldowns
  import L = RateLimit

  class App {
    const cfg: Config
    var names: map<Name, NameRow>
    var offers: map<OfferId, OfferRow>
    var transfers: map<OfferId, TransferRow>
    var rate: L.Table
    ghost var armed: seq<Arming>
    ghost var clock: int

    ghost function Tables(): State
      reads this
    {
      State(names, offers, transfers, armed)
    }

    ghost function Seen(): World
      reads this
    {
      World(Tables(), rate)
    }

    /** What holds between requests, at the time of the last one. */
    ghost predicate Valid()
      reads this
    {
      SeqInv(cfg, Tables(), clock)
    }

    constructor (cfg: Config)
      ensures Valid() && Tables() == EMPTY && rate == map[] && this.cfg == cfg
    {
      this.cfg := cfg;
      names, offers, transfers, rate := map[], map[], map[], map[];
      armed, clock := [], 0;
      new;
      EmptyInv(cfg, 0);
    }

    // -------------------------------------------------------------------------
    // Statements

    method LookupName(name: Name) returns (r: Option<Pubkey>)
      ensures r == Lookup(Tables(), name)
    {
      r := if name in names && names[name].releasedAt.None? then Some(names[name].pubkey) else None;
    }

    method FindName(key: Pubkey) returns (found: bool)
      ensures found == HasName(Tables(), key)
    {
      found := exists n | n in names :: names[n].releasedAt.None? && names[n].pubkey == key;
      assert forall n | n in names :: Owns(Tables(), n, key) <==> names[n].releasedAt.None? && names[n].pubkey == key;
    }

    method FetchOffer(id: OfferId) returns (r: Option<OfferRow>)
      ensures r == GetOffer(Tables(), id)
    {
      r := if id in offers then Some(offers[id]) else None;
    }

    method MarkDead(id: OfferId, status: Status, endHeight: Option<int>, at: int)
      modifies this`offers
      ensures Tables() == MarkOfferDead(old(Tables()), id, status, endHeight, at)
    {
      if id in offers && offers[id].status == Live {
        offers := offers[id := offers[id].(status := status, endHeight := endHeight, stateChangedAt := Some(at))];
      }
    }

    /** `record_op("namechange", key)`. */
    method RecordOp(key: Pubkey, now: int)
      modifies this`rate, this`armed
      ensures Tables() == Arm(old(Tables()), key, now)
      ensures rate == L.After(old(rate), L.RecordOp(Bucket(key), now))
    {
      var name := Bucket(key);
      var hits := if name in rate then rate[name] else [];
      rate := rate[name := hits + [now]];
      armed := armed + [Arming(key, now)];
    }

    /** `cooldown_active("namechange", key, window)`. */
    method CooldownActive(key: Pubkey, now: int) returns (active: bool)
      modifies this`rate
      ensures active == L.Answer(old(rate), Question(cfg, key, now))
      ensures rate == L.After(old(rate), Question(cfg, key, now))
    {
      var name := Bucket(key);
      if name in rate {
        rate := rate[name := L.Keep(rate[name], now, cfg.cooldown)];
        return rate[name] != [];
      }
      return false;
    }

    /** Would the partial unique index refuse `key` as the holder of `name`? */
    method IndexRefuses(name: Name, key: Pubkey) returns (refused: bool)
      ensures refused == IndexBlocks(Tables(), name, key)
    {
      refused := exists n | n in names :: n != name && names[n].releasedAt.None? && names[n].pubkey == key;
      assert forall n | n in names :: Owns(Tables(), n, key) <==> names[n].releasedAt.None? && names[n].pubkey == key;
    }

    /**
     `run_claim_txn`: three updates in place; when one of them fails, what the earlier ones
     did is rolled back, so an aborted claim changes none of the tables.
     */
    method RunClaimTxn(o: OfferRow, excess: string, kernelHeight: Option<int>, now: int) returns (result: TxResult)
      modifies this`names, this`offers, this`transfers
      ensures (Tables(), result) == ClaimTxn(old(Tables()), o, excess, kernelHeight, now)
      ensures result != Committed ==> Tables() == old(Tables())
    {
      var savedNames, savedOffers, savedTransfers := names, offers, transfers;

      var updated := 0;
      if o.name in names && names[o.name].pubkey == o.seller && names[o.name].releasedAt.None? {
        var refused := IndexRefuses(o.name, o.buyer);
        if refused {
          return BuyerHasName;
        }
        names := names[o.name := names[o.name].(pubkey := o.buyer, createdAt := now)];
        updated := 1;
      }
      if updated != 1 {
        return OwnerChanged;
      }

      if o.offerId in transfers || exists id | id in transfers :: transfers[id].excess == excess {
        names, offers, transfers := savedNames, savedOffers, savedTransfers;
        return Reused;
      }
      transfers := transfers[o.offerId := TransferRow(o.offerId, o.name, o.seller, o.buyer, o.price,
                                                      excess, kernelHeight, now)];

      if o.offerId in offers {
        offers := offers[o.offerId := offers[o.offerId].(status := Consumed)];
      }
      return Committed;
    }

    // -------------------------------------------------------------------------
    // Handlers

    /** `settle_expiry`: the offer as it stands after lazy expiry. */
    method SettleExpiry(o: OfferRow, now: int, tip: Option<U64>) returns (r: OfferRow)
      modifies this`offers
      ensures if Overdue(o, now)
              then Tables() == MarkOfferDead(old(Tables()), o.offerId, Expired, Height(tip), now)
                   && r == GetOffer(Tables(), o.offerId).GetOr(o)
              else Tables() == old(Tables()) && r == o
    {
      if o.status != Live || o.expiration >= now {
        return o;
      }
      MarkDead(o.offerId, Expired, Height(tip), now);
      var again := FetchOffer(o.offerId);
      return again.GetOr(o);
    }

    /** `register`, statement by statement. */
    method HandleRegister(auth: Pubkey, rawName: Name, wellFormed: bool, entitled: bool, now: int) returns (answer: Response)
      modifies this`names, this`offers, this`transfers, this`rate, this`armed
      ensures (Seen(), answer) == Limited(cfg, old(Seen()), Register(auth, rawName, wellFormed, entitled, now))
    {
      ghost var s := Tables();
      var name := Lower(rawName);
      var cooling := CooldownActive(auth, now);
      if cooling {
        return Rejected(CoolDown);
      }
      if !wellFormed {
        return Rejected(BadRequest);
      }
      RegisterTail(cfg, s, auth, name, entitled, now);
      var owner := LookupName(name);
      if owner.Some? {
        return if owner.value == auth then AlreadyYours else Rejected(NameTaken);
      }
      var holds := FindName(auth);
      if holds {
        return Rejected(KeyHasName);
      }
      if !entitled {
        return Rejected(PaymentRequired);
      }
      if name in names && names[name].releasedAt.None? {
        return Rejected(NameTaken);
      }
      var refused := IndexRefuses(name, auth);
      if refused {
        return Rejected(KeyHasName);
      }
      names := names[name := NameRow(auth, now, None)];
      return Registered;
    }

    /** `unregister`, statement by statement. */
    method HandleUnregister(auth: Pubkey, rawName: Name, now: int) returns (answer: Response)
      modifies this`names, this`offers, this`transfers, this`rate, this`armed
      ensures (Seen(), answer) == Limited(cfg, old(Seen()), Unregister(auth, rawName, now))
    {
      ghost var s := Tables();
      var name := Lower(rawName);
      Unfold(cfg, s, UnregLookup(auth, name, now));
      var owner := LookupName(name);
      if owner.None? {
        return Rejected(NotFound);
      }
      if owner.value != auth {
        return Rejected(NotTheOwner);
      }
      Unfold(cfg, s, UnregRelease(auth, name, now));
      if name in names && names[name].releasedAt.None? {
        names := names[name := names[name].(releasedAt := Some(now))];
      }
      Unfold(cfg, Tables(), UnregArm(auth, now));
      RecordOp(auth, now);
      return Released;
    }

    /** `lodge_offer`, after the tags have been read; statement by statement. */
    method HandleLodge(auth: Pubkey, event: OfferEvent, now: int) returns (answer: Response)
      modifies this`names, this`offers, this`transfers, this`rate, this`armed
      ensures (Seen(), answer) == Limited(cfg, old(Seen()), Lodge(auth, event, now))
    {
      var checked := ValidateOffer(cfg, auth, event, now);
      if checked.Failure? {
        return Rejected(checked.error);
      }
      answer := LodgeRow(checked.value);
    }

    /** `lodge_offer` once the offer itself has been checked. */
    method LodgeRow(row: OfferRow) returns (answer: Response)
      modifies this`offers
      ensures (Tables(), answer) == Solo(cfg, old(Tables()), LodgeOwner(row))
    {
      LodgeTail(cfg, Tables(), row);
      var owner := LookupName(row.name);
      if owner != Some(row.seller) {
        return Rejected(NotTheOwner);
      }
      if exists id | id in offers :: offers[id].name == row.name && LiveAt(offers[id], row.createdAt) {
        return Rejected(OfferExists);
      }
      if exists id | id in offers :: offers[id].proofAddress == row.proofAddress && LiveAt(offers[id], row.createdAt) {
        return Rejected(OfferAmbiguous);
      }
      if row.offerId in offers {
        return Rejected(OfferExists);
      }
      offers := offers[row.offerId := row];
      return Lodged;
    }

    /** `read_offer`, statement by statement. */
    method HandleRead(id: OfferId, now: int, tip: Option<U64>) returns (answer: Response)
      modifies this`names, this`offers, this`transfers, this`rate, this`armed
      ensures (Seen(), answer) == Limited(cfg, old(Seen()), Read(id, now, tip))
    {
      ReadTail(cfg, Tables(), id, now, tip);
      var found := FetchOffer(id);
      if found.None? {
        return Rejected(NotFound);
      }
      var offer := SettleExpiry(found.value, now, tip);
      return OfferIs(offer.status);
    }

    /** `revoke_offer`, statement by statement. */
    method HandleRevoke(auth: Pubkey, id: OfferId, now: int, tip: Option<U64>) returns (answer: Response)
      modifies this`names, this`offers, this`transfers, this`rate, this`armed
      ensures (Seen(), answer) == Limited(cfg, old(Seen()), Revoke(auth, id, now, tip))
    {
      RevokeTail(cfg, Tables(), auth, id, now, tip);
      var found := FetchOffer(id);
      if found.None? {
        return Rejected(NotFound);
      }
      var offer := found.value;
      if auth != offer.seller {
        return Rejected(NotTheOwner);
      }
      if offer.status == Consumed {
        return Rejected(OfferConsumed);
      }
      if offer.status == Revoked {
        return RevokedNow;
      }
      if offer.status == Live {
        MarkDead(offer.offerId, Revoked, Height(tip), now);
      } else {
        if offer.offerId in offers {
          offers := offers[offer.offerId := offers[offer.offerId].(status := Revoked)];
        }
      }
      return RevokedNow;
    }

    /** `claim`, statement by statement. */
    method HandleClaim(auth: Pubkey, rawId: string, proofJson: Json, now: int, tip: Option<U64>, kernel: Option<Kernel>)
      returns (answer: Response)
      modifies this`names, this`offers, this`transfers, this`rate, this`armed
      ensures (Seen(), answer) == Limited(cfg, old(Seen()), Claim(auth, rawId, proofJson, now, tip, kernel))
    {
      var proof := ParsePaymentProof(proofJson);
      if !ValidOfferId(rawId) || proof.None? {
        return Rejected(BadRequest);
      }
      var q := ClaimRequest(auth, Lower(rawId), proof.value, now, tip, kernel);
      answer := ClaimOffer(q);
    }

    /** `claim` of a well-formed request. */
    method ClaimOffer(q: ClaimRequest) returns (answer: Response)
      modifies this`names, this`offers, this`transfers, this`rate, this`armed
      ensures (Tables(), answer) == Solo(cfg, old(Tables()), ClaimGet(q))
      ensures rate == Recorded(old(rate), Records(old(armed), armed))
    {
      SettleFirst(cfg, Tables(), q);
      var found := FetchOffer(q.offerId);
      if found.None? {
        return Rejected(NotFound);
      }
      var offer := SettleExpiry(found.value, q.now, q.tip);
      answer := FinishClaim(q, offer);
    }

    /** `claim` of a consumed offer. */
    method AnswerRetry(q: ClaimRequest, offer: OfferRow) returns (answer: Response)
      ensures (Tables(), answer) == Solo(cfg, Tables(), ClaimReplay(q, offer))
    {
      ReplayTail(cfg, Tables(), q, offer);
      if q.offerId in transfers && transfers[q.offerId].excess == q.proof.excess {
        return ClaimedBefore(transfers[q.offerId].name, transfers[q.offerId].buyer);
      }
      return Rejected(OfferConsumed);
    }

    /** `claim`, once the offer has been read and settled. */
    method FinishClaim(q: ClaimRequest, offer: OfferRow) returns (answer: Response)
      modifies this`names, this`offers, this`transfers, this`rate, this`armed
      ensures (Tables(), answer) == Solo(cfg, old(Tables()), AfterSettle(cfg, q, offer))
      ensures rate == Recorded(old(rate), Records(old(armed), armed))
    {
      ghost var s := Tables();
      if offer.status == Consumed {
        answer := AnswerRetry(q, offer);
        return;
      }
      if offer.status == Revoked || offer.status == Expired {
        var changed := offer.stateChangedAt.GetOr(q.now);
        if q.now - changed > cfg.claimGrace || offer.endHeight.None? {
          return Rejected(OfferDead);
        }
      }
      if q.auth != offer.buyer {
        return Rejected(NotTheBuyer);
      }
      Unfold(cfg, s, ClaimOwner(q, offer));
      var owner := LookupName(offer.name);
      if owner != Some(offer.seller) {
        return Rejected(OwnerMoved);
      }
      var unpaid := CheckPayment(q, offer);
      if unpaid.Some? {
        return Rejected(unpaid.value);
      }
      answer := CommitClaim(q, offer);
    }

    /** `claim`, once the payment has been shown. */
    method CommitClaim(q: ClaimRequest, offer: OfferRow) returns (answer: Response)
      modifies this`names, this`offers, this`transfers, this`rate, this`armed
      ensures (Tables(), answer) == Solo(cfg, old(Tables()), ClaimExcess(q, offer))
      ensures rate == Recorded(old(rate), Records(old(armed), armed))
    {
      ExcessTail(cfg, Tables(), q, offer);
      if exists id | id in transfers :: transfers[id].excess == q.proof.excess {
        return Rejected(ProofReused);
      }
      var holds := FindName(offer.buyer);
      if holds {
        return Rejected(KeyHasName);
      }
      var result := RunClaimTxn(offer, q.proof.excess, KernelHeight(q), q.now);
      if result != Committed {
        return TxFailed(result);
      }
      RecordOp(offer.seller, q.now);
      return Claimed(offer.name, offer.buyer);
    }

    /** Rules 6 to 9 of a claim; the first that fails. */
    method CheckPayment(q: ClaimRequest, offer: OfferRow) returns (r: Option<Reason>)
      ensures AfterOwner(cfg, q, offer) == if r.Some? then Done(Rejected(r.value)) else ClaimExcess(q, offer)
      ensures r.None? <==> PaysFor(cfg, q.proof, q.kernel, offer)
      ensures r == Objection(cfg, q.proof, q.kernel, offer)
    {
      ObjectionIs(cfg, q, offer);
      if !VerifySignatures(cfg.crypto, q.proof) {
        return Some(InvalidProof);
      }
      if Normalize(q.proof.recipientAddress) != offer.proofAddress {
        return Some(AddressMismatch);
      }
      if offer.price < 0 || q.proof.amount != offer.price {
        return Some(AmountMismatch);
      }
      if q.kernel.None? || !q.kernel.value.found || q.kernel.value.confirmations < cfg.minConf {
        return Some(Unconfirmed);
      }
      if offer.status == Revoked || offer.status == Expired {
        var height := KernelHeight(q);
        if offer.endHeight.None? || height.None? || height.value > offer.endHeight.value {
          return Some(OfferDead);
        }
      }
      return None;
    }

    // -------------------------------------------------------------------------
    // What a caller may rely on

    /** `register`. */
    method RegisterName(auth: Pubkey, rawName: Name, wellFormed: bool, entitled: bool, now: int) returns (answer: Response)
      modifies this
      ensures (Seen(), answer) == Limited(cfg, old(Seen()), Register(auth, rawName, wellFormed, entitled, now))
      ensures old(Valid()) && old(clock) <= now ==> Valid() && clock == now
      ensures answer ==
              if Remembered(cfg, old(rate), auth, now) then Rejected(CoolDown)
              else RegisterAnswer(old(Tables()), Register(auth, rawName, wellFormed, entitled, now))
      ensures answer == Registered <==>
              && !Remembered(cfg, old(rate), auth, now) && wellFormed && entitled
              && Free(old(Tables()), Lower(rawName)) && Nameless(old(Tables()), auth)
      ensures offers == old(offers) && transfers == old(transfers) && armed == old(armed)
      ensures names == if answer == Registered then old(names)[Lower(rawName) := NameRow(auth, now, None)] else old(names)
    {
      ghost var w, from, r := Seen(), clock, Register(auth, rawName, wellFormed, entitled, now);
      answer := HandleRegister(auth, rawName, wellFormed, entitled, now);
      clock := now;
      LimitedRegistration(cfg, w, r);
      ValidAfter(cfg, w, from, r);
    }

    /** `unregister`. */
    method UnregisterName(auth: Pubkey, rawName: Name, now: int) returns (answer: Response)
      modifies this
      ensures (Seen(), answer) == Limited(cfg, old(Seen()), Unregister(auth, rawName, now))
      ensures old(Valid()) && old(clock) <= now ==> Valid() && clock == now
      ensures answer ==
              if Free(old(Tables()), Lower(rawName)) then Rejected(NotFound)
              else if old(names)[Lower(rawName)].pubkey != auth then Rejected(NotTheOwner) else Released
      ensures answer == Released ==>
              && names == old(names)[Lower(rawName) := NameRow(auth, old(names)[Lower(rawName)].createdAt, Some(now))]
              && offers == old(offers) && transfers == old(transfers) && armed == old(armed) + [Arming(auth, now)]
      ensures answer != Released ==> Tables() == old(Tables())
    {
      ghost var w, from, r := Seen(), clock, Unregister(auth, rawName, now);
      answer := HandleUnregister(auth, rawName, now);
      clock := now;
      ReleaseIff(cfg, w.state, auth, rawName, now);
      ValidAfter(cfg, w, from, r);
    }

    /** `lodge_offer`, after the tags have been read. */
    method LodgeOffer(auth: Pubkey, event: OfferEvent, now: int) returns (answer: Response)
      modifies this
      ensures (Seen(), answer) == Limited(cfg, old(Seen()), Lodge(auth, event, now))
      ensures old(Valid()) && old(clock) <= now ==> Valid() && clock == now
      ensures Lodges(cfg, old(Tables()), auth, event, now, Tables(), answer)
    {
      ghost var w, from, r := Seen(), clock, Lodge(auth, event, now);
      answer := HandleLodge(auth, event, now);
      clock := now;
      LodgeIff(cfg, w.state, auth, event, now);
      ValidAfter(cfg, w, from, r);
    }

    /** `read_offer`. */
    method ReadOffer(id: OfferId, now: int, tip: Option<U64>) returns (answer: Response)
      modifies this
      ensures (Seen(), answer) == Limited(cfg, old(Seen()), Read(id, now, tip))
      ensures old(Valid()) && old(clock) <= now ==> Valid() && clock == now
      ensures old(Valid()) ==>
              if id in old(offers)
              then id in offers && answer == OfferIs(offers[id].status)
                   && (answer == OfferIs(Live) <==> old(offers[id]).status == Live && now <= old(offers[id]).expiration)
                   && Tables() == old(Tables()).(offers := old(offers)[id := Settled(old(offers)[id], now, tip)])
              else answer == Rejected(NotFound) && Tables() == old(Tables())
    {
      ghost var w, from, r := Seen(), clock, Read(id, now, tip);
      answer := HandleRead(id, now, tip);
      clock := now;
      if SeqInv(cfg, w.state, from) {
        ReadShows(cfg, w.state, id, now, tip);
      }
      ValidAfter(cfg, w, from, r);
    }

    /** `revoke_offer`. */
    method RevokeOffer(auth: Pubkey, id: OfferId, now: int, tip: Option<U64>) returns (answer: Response)
      modifies this
      ensures (Seen(), answer) == Limited(cfg, old(Seen()), Revoke(auth, id, now, tip))
      ensures old(Valid()) && old(clock) <= now ==> Valid() && clock == now
      ensures old(Valid()) ==>
              && answer == (if id !in old(offers) then Rejected(NotFound)
                            else if old(offers)[id].seller != auth then Rejected(NotTheOwner)
                            else if old(offers)[id].status == Consumed then Rejected(OfferConsumed)
                            else RevokedNow)
              && (answer == RevokedNow ==>
                    Tables() == old(Tables()).(offers := old(offers)[id := RevokedRow(old(offers)[id], now, tip)]))
              && (answer != RevokedNow ==> Tables() == old(Tables()))
    {
      ghost var w, from, r := Seen(), clock, Revoke(auth, id, now, tip);
      answer := HandleRevoke(auth, id, now, tip);
      clock := now;
      if SeqInv(cfg, w.state, from) {
        RevokeIff(cfg, w.state, auth, id, now, tip);
      }
      ValidAfter(cfg, w, from, r);
    }

    /** `claim`: never ends in a failed transaction, and succeeds exactly on an acceptable claim. */
    method ClaimName(auth: Pubkey, rawId: string, proofJson: Json, now: int, tip: Option<U64>, kernel: Option<Kernel>)
      returns (answer: Response)
      modifies this
      ensures (Seen(), answer) == Limited(cfg, old(Seen()), Claim(auth, rawId, proofJson, now, tip, kernel))
      ensures old(Valid()) && old(clock) <= now ==> Valid() && clock == now
      ensures old(Valid()) ==> !answer.TxFailed?
      ensures old(Valid()) ==>
              Decides(cfg, old(Tables()), Claim(auth, rawId, proofJson, now, tip, kernel), Tables(), answer)
    {
      ghost var w, from, r := Seen(), clock, Claim(auth, rawId, proofJson, now, tip, kernel);
      answer := HandleClaim(auth, rawId, proofJson, now, tip, kernel);
      clock := now;
      if SeqInv(cfg, w.state, from) {
        ClaimDecided(cfg, w.state, r);
      }
      ValidAfter(cfg, w, from, r);
    }
  }
}
