/**
 The request handlers as programs of atomic steps (name-authority/src/handlers/transfer.rs
 and registry.rs). A step is one section under the database or rate lock; between two steps
 a handler holds only what it read. The answers of clock, node and signature code belong to
 the request, as values that may be anything.
 */
module Protocol {
  import opened Wrappers
  import opened Text
  import opened Proof
  import opened Store
  import opened Tags
  import Hex

  datatype Config = Config(
    domain: string,
    nameMin: nat,
    nameMax: nat,
    maxOfferTtl: int,
    claimGrace: int,
    minConf: nat,
    cooldown: nat,
    crypto: Crypto)

  /** The answer of the node about one kernel; heights are u64. */
  datatype Kernel = Kernel(found: bool, confirmations: nat, height: Option<U64>)

  /** A signed event; `verified` covers its signature and its id. */
  datatype OfferEvent = OfferEvent(id: OfferId, pubkey: Pubkey, verified: bool, isOffer: bool, tags: seq<Tag>)

  datatype ClaimRequest = ClaimRequest(
    auth: Pubkey,
    offerId: OfferId,
    proof: PaymentProof,
    now: int,
    tip: Option<U64>,
    kernel: Option<Kernel>)

  /**
   An authenticated request. `wellFormed` is the outcome of the checks on body and name,
   `entitled` that of the paywall, `tip` and `kernel` are the node's answers.
   */
  datatype Request =
    | Register(auth: Pubkey, name: Name, wellFormed: bool, entitled: bool, now: int)
    | Unregister(auth: Pubkey, name: Name, now: int)
    | Lodge(auth: Pubkey, event: OfferEvent, now: int)
    | Read(offerId: OfferId, now: int, tip: Option<U64>)
    | Revoke(auth: Pubkey, offerId: OfferId, now: int, tip: Option<U64>)
    | Claim(auth: Pubkey, offerId: string, proof: Json, now: int, tip: Option<U64>, kernel: Option<Kernel>)

  datatype Reason =
    | BadRequest | WrongKey | CoolDown | NameTaken | KeyHasName | PaymentRequired | NotTheOwner | NotFound
    | OfferExists | OfferAmbiguous | OfferConsumed | OfferDead | NotTheBuyer | OwnerMoved
    | InvalidProof | AddressMismatch | AmountMismatch | Unconfirmed | ProofReused

  datatype Response =
    | Rejected(reason: Reason)
    | Registered
    | AlreadyYours
    | Released
    | Lodged
    | OfferIs(status: Status)
    | RevokedNow
    | Claimed(name: Name, buyer: Pubkey)
    | ClaimedBefore(name: Name, buyer: Pubkey)
    | TxFailed(result: TxResult)

  /** A request in flight: where it stands and what it has read. */
  datatype Proc =
    | Done(response: Response)
    | RegCooldown(auth: Pubkey, name: Name, wellFormed: bool, entitled: bool, now: int)
    | RegLookup(auth: Pubkey, name: Name, entitled: bool, now: int)
    | RegNameOf(auth: Pubkey, name: Name, entitled: bool, now: int)
    | RegUpsert(auth: Pubkey, name: Name, now: int)
    | UnregLookup(auth: Pubkey, name: Name, now: int)
    | UnregRelease(auth: Pubkey, name: Name, now: int)
    | UnregArm(auth: Pubkey, now: int)
    | LodgeOwner(row: OfferRow)
    | LodgeName(row: OfferRow)
    | LodgeAddress(row: OfferRow)
    | LodgeInsert(row: OfferRow)
    | ReadGet(id: OfferId, now: int, tip: Option<U64>)
    | ReadSettle(o: OfferRow, now: int, tip: Option<U64>)
    | ReadAgain(o: OfferRow)
    | RevokeGet(auth: Pubkey, id: OfferId, now: int, tip: Option<U64>)
    | RevokeMark(o: OfferRow, now: int, tip: Option<U64>)
    | RevokeForce(o: OfferRow)
    | ClaimGet(q: ClaimRequest)
    | ClaimSettle(q: ClaimRequest, o: OfferRow)
    | ClaimAgain(q: ClaimRequest, o: OfferRow)
    | ClaimReplay(q: ClaimRequest, o: OfferRow)
    | ClaimOwner(q: ClaimRequest, o: OfferRow)
    | ClaimExcess(q: ClaimRequest, o: OfferRow)
    | ClaimBuyer(q: ClaimRequest, o: OfferRow)
    | ClaimCommit(q: ClaimRequest, o: OfferRow)
    | ClaimArm(q: ClaimRequest, o: OfferRow)

  // ---------------------------------------------------------------------------
  // The checks between the steps

  predicate NameChar(c: char) {
    'a' <= c <= 'z' || IsDigit(c)
  }

  /** `valid_name`. */
  predicate ValidName(name: string, min: nat, max: nat) {
    && min <= |name| <= max && |name| > 0
    && (forall i | 0 <= i < |name| :: NameChar(name[i]) || name[i] in {'.', '_', '-'})
    && NameChar(name[0]) && NameChar(name[|name| - 1])
  }

  /** The checks of `lodge_offer` that need no table, and the row it would insert. */
  function ValidateOffer(cfg: Config, auth: Pubkey, e: OfferEvent, now: int): (r: Result<OfferRow, Reason>)
    ensures r.Success? ==>
      var row := r.value;
      && row.offerId == e.id && row.seller == auth && row.createdAt == now
      && row.status == Live && row.endHeight.None? && row.stateChangedAt.None?
      && now < row.expiration <= now + cfg.maxOfferTtl
      && -I64_LIMIT <= row.price < I64_LIMIT
    ensures r.Failure? ==>
      r.error == if e.verified && e.isOffer && e.pubkey != auth then WrongKey else BadRequest
  {
    if !e.verified || !e.isOffer then Failure(BadRequest)
    else if e.pubkey != auth then Failure(WrongKey)
    else
      var tags := ReadOfferTags(e.tags);
      if tags.None? then Failure(BadRequest)
      else
        var t := tags.value;
        var buyer, price := Lower(t.buyer), ParseU64(Trim(t.price));
        var address, expiration := Normalize(t.proofAddress), ParseI64(Trim(t.expiration));
        if !ValidName(t.name, cfg.nameMin, cfg.nameMax) || t.domain != cfg.domain || !Hex.ValidPubkey(buyer)
           || price.None? || DecodeAddress(cfg.crypto, address).None? || expiration.None?
           || expiration.value <= now || expiration.value > now + cfg.maxOfferTtl then Failure(BadRequest)
        else
          Success(OfferRow(e.id, t.name, auth, buyer, AsI64(price.value), address, expiration.value,
                           Live, None, None, now))
  }

  /** A height as it is stored: the same 64 bits, read as a signed number. */
  function Height(h: Option<U64>): (r: Option<int>)
    ensures r.Some? <==> h.Some?
    ensures r.Some? ==> -0x8000_0000_0000_0000 <= r.value < 0x8000_0000_0000_0000
    ensures r.Some? ==> r.value == h.value || r.value == h.value - 0x1_0000_0000_0000_0000
  {
    if h.Some? then Some(AsI64(h.value)) else None
  }

  function KernelHeight(q: ClaimRequest): Option<int> {
    if q.kernel.Some? then Height(q.kernel.value.height) else None
  }

  predicate Dead(o: OfferRow) {
    o.status == Revoked || o.status == Expired
  }

  /** `settle_expiry` has something to do. */
  predicate Overdue(o: OfferRow, now: int) {
    o.status == Live && o.expiration < now
  }

  /** Claim rule 3: a dead offer is honored only within grace and with a recorded height. */
  predicate WithinGrace(cfg: Config, q: ClaimRequest, o: OfferRow) {
    Dead(o) ==> q.now - o.stateChangedAt.GetOr(q.now) <= cfg.claimGrace && o.endHeight.Some?
  }

  /** The payment settled no later than the offer died. */
  predicate SettledBeforeDeath(q: ClaimRequest, o: OfferRow) {
    Dead(o) ==> o.endHeight.Some? && KernelHeight(q).Some? && KernelHeight(q).value <= o.endHeight.value
  }

  predicate AmountMatches(q: ClaimRequest, o: OfferRow) {
    0 <= o.price == q.proof.amount
  }

  predicate Confirmed(cfg: Config, q: ClaimRequest) {
    q.kernel.Some? && q.kernel.value.found && q.kernel.value.confirmations >= cfg.minConf
  }

  /** The proof pays this offer: both signatures, address, amount, depth and death height. */
  predicate Pays(cfg: Config, q: ClaimRequest, o: OfferRow) {
    && VerifySignatures(cfg.crypto, q.proof)
    && Normalize(q.proof.recipientAddress) == o.proofAddress
    && AmountMatches(q, o)
    && Confirmed(cfg, q)
    && SettledBeforeDeath(q, o)
  }

  /** The claim after the offer has been read and settled. */
  function AfterSettle(cfg: Config, q: ClaimRequest, o: OfferRow): Proc {
    if o.status == Consumed then ClaimReplay(q, o)
    else if !WithinGrace(cfg, q, o) then Done(Rejected(OfferDead))
    else if q.auth != o.buyer then Done(Rejected(NotTheBuyer))
    else ClaimOwner(q, o)
  }

  /** The claim after the owner has been looked up: rules 6 to 9, in order. */
  function AfterOwner(cfg: Config, q: ClaimRequest, o: OfferRow): Proc {
    if !VerifySignatures(cfg.crypto, q.proof) then Done(Rejected(InvalidProof))
    else if Normalize(q.proof.recipientAddress) != o.proofAddress then Done(Rejected(AddressMismatch))
    else if !AmountMatches(q, o) then Done(Rejected(AmountMismatch))
    else if !Confirmed(cfg, q) then Done(Rejected(Unconfirmed))
    else if !SettledBeforeDeath(q, o) then Done(Rejected(OfferDead))
    else ClaimExcess(q, o)
  }

  predicate ValidOfferId(id: string) {
    |id| == 64 && forall i | 0 <= i < 64 :: Hex.DigitOf(id[i]).Some?
  }

  /** The first state of a request. */
  function Start(cfg: Config, r: Request): Proc {
    match r
    case Register(auth, name, wellFormed, entitled, now) =>
      RegCooldown(auth, Lower(name), wellFormed, entitled, now)
    case Unregister(auth, name, now) => UnregLookup(auth, Lower(name), now)
    case Lodge(auth, event, now) =>
      (match ValidateOffer(cfg, auth, event, now)
       case Failure(reason) => Done(Rejected(reason))
       case Success(row) => LodgeOwner(row))
    case Read(id, now, tip) => ReadGet(id, now, tip)
    case Revoke(auth, id, now, tip) => RevokeGet(auth, id, now, tip)
    case Claim(auth, id, proof, now, tip, kernel) =>
      if !ValidOfferId(id) || ParsePaymentProof(proof).None? then Done(Rejected(BadRequest))
      else ClaimGet(ClaimRequest(auth, Lower(id), ParsePaymentProof(proof).value, now, tip, kernel))
  }

  // ---------------------------------------------------------------------------
  // One step

  function Step(cfg: Config, s: State, p: Proc): (State, Proc) {
    match p
    case Done(_) => (s, p)

    case RegCooldown(auth, name, wellFormed, entitled, now) =>
      (s, if CoolingDown(s, auth, now, cfg.cooldown) then Done(Rejected(CoolDown))
          else if !wellFormed then Done(Rejected(BadRequest))
          else RegLookup(auth, name, entitled, now))
    case RegLookup(auth, name, entitled, now) =>
      (s, if Owns(s, name, auth) then Done(AlreadyYours)
          else if Active(s, name) then Done(Rejected(NameTaken))
          else RegNameOf(auth, name, entitled, now))
    case RegNameOf(auth, name, entitled, now) =>
      (s, if HasName(s, auth) then Done(Rejected(KeyHasName))
          else if !entitled then Done(Rejected(PaymentRequired))
          else RegUpsert(auth, name, now))
    case RegUpsert(auth, name, now) =>
      var (s', rows) := UpsertName(s, name, auth, now);
      (s', if rows.Failure? then Done(Rejected(KeyHasName))
           else if rows.value == 0 then Done(Rejected(NameTaken))
           else Done(Registered))

    case UnregLookup(auth, name, now) =>
      (s, if Owns(s, name, auth) then UnregRelease(auth, name, now)
          else if Active(s, name) then Done(Rejected(NotTheOwner))
          else Done(Rejected(NotFound)))
    case UnregRelease(auth, name, now) => (ReleaseName(s, name, now), UnregArm(auth, now))
    case UnregArm(auth, now) => (Arm(s, auth, now), Done(Released))

    case LodgeOwner(row) =>
      (s, if Owns(s, row.name, row.seller) then LodgeName(row) else Done(Rejected(NotTheOwner)))
    case LodgeName(row) =>
      (s, if LiveForName(s, row.name, row.createdAt) then Done(Rejected(OfferExists)) else LodgeAddress(row))
    case LodgeAddress(row) =>
      (s, if LiveForAddress(s, row.proofAddress, row.createdAt) then Done(Rejected(OfferAmbiguous))
          else LodgeInsert(row))
    case LodgeInsert(row) =>
      var (s', rows) := InsertOffer(s, row);
      (s', if rows.Success? then Done(Lodged) else Done(Rejected(OfferExists)))

    case ReadGet(id, now, tip) =>
      (s, match GetOffer(s, id)
          case None => Done(Rejected(NotFound))
          case Some(o) => if Overdue(o, now) then ReadSettle(o, now, tip) else Done(OfferIs(o.status)))
    case ReadSettle(o, now, tip) => (MarkOfferDead(s, o.offerId, Expired, Height(tip), now), ReadAgain(o))
    case ReadAgain(o) => (s, Done(OfferIs(GetOffer(s, o.offerId).GetOr(o).status)))

    case RevokeGet(auth, id, now, tip) =>
      (s, match GetOffer(s, id)
          case None => Done(Rejected(NotFound))
          case Some(o) =>
            if auth != o.seller then Done(Rejected(NotTheOwner))
            else if o.status == Consumed then Done(Rejected(OfferConsumed))
            else if o.status == Revoked then Done(RevokedNow)
            else if o.status == Live then RevokeMark(o, now, tip)
            else RevokeForce(o))
    case RevokeMark(o, now, tip) => (MarkOfferDead(s, o.offerId, Revoked, Height(tip), now), Done(RevokedNow))
    case RevokeForce(o) => (ForceRevoke(s, o.offerId), Done(RevokedNow))

    case ClaimGet(q) =>
      (s, match GetOffer(s, q.offerId)
          case None => Done(Rejected(NotFound))
          case Some(o) => if Overdue(o, q.now) then ClaimSettle(q, o) else AfterSettle(cfg, q, o))
    case ClaimSettle(q, o) => (MarkOfferDead(s, o.offerId, Expired, Height(q.tip), q.now), ClaimAgain(q, o))
    case ClaimAgain(q, o) => (s, AfterSettle(cfg, q, GetOffer(s, o.offerId).GetOr(o)))
    case ClaimReplay(q, o) =>
      (s, if q.offerId in s.transfers && s.transfers[q.offerId].excess == q.proof.excess
          then Done(ClaimedBefore(s.transfers[q.offerId].name, s.transfers[q.offerId].buyer))
          else Done(Rejected(OfferConsumed)))
    case ClaimOwner(q, o) =>
      (s, if Owns(s, o.name, o.seller) then AfterOwner(cfg, q, o) else Done(Rejected(OwnerMoved)))
    case ClaimExcess(q, o) =>
      (s, if ExcessUsed(s, q.proof.excess) then Done(Rejected(ProofReused)) else ClaimBuyer(q, o))
    case ClaimBuyer(q, o) =>
      (s, if HasName(s, o.buyer) then Done(Rejected(KeyHasName)) else ClaimCommit(q, o))
    case ClaimCommit(q, o) =>
      var (s', result) := ClaimTxn(s, o, q.proof.excess, KernelHeight(q), q.now);
      (s', if result == Committed then ClaimArm(q, o) else Done(TxFailed(result)))
    case ClaimArm(q, o) => (Arm(s, o.seller, q.now), Done(Claimed(o.name, o.buyer)))
  }

  /** How many steps a request can still take. */
  function Rank(p: Proc): nat {
    match p
    case Done(_) => 0
    case RegUpsert(_, _, _) => 1 case RegNameOf(_, _, _, _) => 2
    case RegLookup(_, _, _, _) => 3 case RegCooldown(_, _, _, _, _) => 4
    case UnregArm(_, _) => 1 case UnregRelease(_, _, _) => 2 case UnregLookup(_, _, _) => 3
    case LodgeInsert(_) => 1 case LodgeAddress(_) => 2 case LodgeName(_) => 3 case LodgeOwner(_) => 4
    case ReadAgain(_) => 1 case ReadSettle(_, _, _) => 2 case ReadGet(_, _, _) => 3
    case RevokeMark(_, _, _) => 1 case RevokeForce(_) => 1 case RevokeGet(_, _, _, _) => 2
    case ClaimArm(_, _) => 1 case ClaimCommit(_, _) => 2 case ClaimBuyer(_, _) => 3
    case ClaimExcess(_, _) => 4 case ClaimOwner(_, _) => 5 case ClaimReplay(_, _) => 5
    case ClaimAgain(_, _) => 6 case ClaimSettle(_, _) => 7 case ClaimGet(_) => 8
  }

  lemma StepDescends(cfg: Config, s: State, p: Proc)
    ensures !p.Done? ==> Rank(Step(cfg, s, p).1) < Rank(p)
  {
  }

  /** A request run to completion, with nothing in between. */
  function Solo(cfg: Config, s: State, p: Proc): (State, Response)
    decreases Rank(p)
  {
    if p.Done? then (s, p.response)
    else
      StepDescends(cfg, s, p);
      var (s', p') := Step(cfg, s, p);
      Solo(cfg, s', p')
  }

  function Handle(cfg: Config, s: State, r: Request): (State, Response) {
    Solo(cfg, s, Start(cfg, r))
  }
}
