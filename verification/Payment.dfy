/**
 What it takes to have paid for an offer, in the fields of the proof, of the node's answer
 and of the offer (name-authority/src/handlers/transfer.rs:511-547).
 */
module Payment {
  import opened Wrappers
  import opened Text
  import opened Proof
  import opened Store
  import opened Protocol

  /** The kernel is on the chain, deep enough. */
  ghost predicate OnChain(cfg: Config, kernel: Option<Kernel>) {
    kernel.Some? && kernel.value.found && kernel.value.confirmations >= cfg.minConf
  }

  /** The kernel's height is known, and no higher than this one. */
  ghost predicate NoLaterThan(kernel: Option<Kernel>, height: Option<int>) {
    && height.Some? && kernel.Some? && kernel.value.height.Some?
    && AsI64(kernel.value.height.value) <= height.value
  }

  /** The proof pays the offer: signed by both, to its address, its price, in time if it is dead. */
  ghost predicate PaysFor(cfg: Config, p: PaymentProof, kernel: Option<Kernel>, o: OfferRow) {
    && BothSigned(cfg.crypto, p)
    && Lower(Trim(p.recipientAddress)) == o.proofAddress
    && p.amount == o.price
    && OnChain(cfg, kernel)
    && (o.status == Expired || o.status == Revoked ==> NoLaterThan(kernel, o.endHeight))
  }

  /** A dead offer is honored for a while, and only if the height of its death is known. */
  ghost predicate Honored(cfg: Config, now: int, o: OfferRow) {
    o.status == Expired || o.status == Revoked ==>
      o.endHeight.Some? && (if o.stateChangedAt.Some? then now - o.stateChangedAt.value else 0) <= cfg.claimGrace
  }

  lemma HonoredIff(cfg: Config, q: ClaimRequest, o: OfferRow)
    ensures WithinGrace(cfg, q, o) <==> Honored(cfg, q.now, o)
  {
  }

  /** The rules of the handler ask exactly this. */
  lemma PaysIff(cfg: Config, q: ClaimRequest, o: OfferRow)
    ensures Pays(cfg, q, o) <==> PaysFor(cfg, q.proof, q.kernel, o)
  {
    SignaturesIff(cfg.crypto, q.proof);
  }

  /** The first rule of the handler that the claim breaks. */
  ghost function Objection(cfg: Config, p: PaymentProof, kernel: Option<Kernel>, o: OfferRow): Option<Reason> {
    if !BothSigned(cfg.crypto, p) then Some(InvalidProof)
    else if Lower(Trim(p.recipientAddress)) != o.proofAddress then Some(AddressMismatch)
    else if p.amount != o.price then Some(AmountMismatch)
    else if !OnChain(cfg, kernel) then Some(Unconfirmed)
    else if (o.status == Expired || o.status == Revoked) && !NoLaterThan(kernel, o.endHeight) then Some(OfferDead)
    else None
  }

  lemma ObjectionIs(cfg: Config, q: ClaimRequest, o: OfferRow)
    ensures AfterOwner(cfg, q, o) ==
            match Objection(cfg, q.proof, q.kernel, o)
            case Some(reason) => Done(Rejected(reason))
            case None => ClaimExcess(q, o)
    ensures Objection(cfg, q.proof, q.kernel, o).None? <==> PaysFor(cfg, q.proof, q.kernel, o)
  {
    SignaturesIff(cfg.crypto, q.proof);
  }
}
