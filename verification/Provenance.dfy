/**
 Where the rows come from: every holder of a name, in every state a run can reach, traces
 back to a request of its own.
 */
module Provenance {
  import opened Wrappers
  import opened Text
  import opened Proof
  import opened Store
  import opened Protocol
  import opened Payment
  import opened Offers
  import opened Interleaving
  import Tags

  /** The claim in flight carries what the request brought. */
  ghost predicate FromClaim(r: Request, q: ClaimRequest) {
    && r.Claim? && q.auth == r.auth && q.offerId == Lower(r.offerId)
    && ProofOf(r.proof, q.proof)
    && q.now == r.now && q.tip == r.tip && q.kernel == r.kernel
  }

  ghost predicate FromRegister(r: Request, auth: Pubkey, name: Name) {
    r.Register? && r.auth == auth && Lower(r.name) == name
  }

  ghost predicate FromLodge(cfg: Config, r: Request, row: OfferRow) {
    r.Lodge? && RowOf(cfg, r.auth, r.event, r.now, row)
  }

  /** `p` is a later stage of the request `r`. */
  ghost predicate From(cfg: Config, r: Request, p: Proc) {
    match p
    case RegCooldown(auth, name, wellFormed, entitled, _) =>
      FromRegister(r, auth, name) && r.wellFormed == wellFormed && r.entitled == entitled
    case RegLookup(auth, name, entitled, _) => FromRegister(r, auth, name) && r.wellFormed && r.entitled == entitled
    case RegNameOf(auth, name, entitled, _) => FromRegister(r, auth, name) && r.wellFormed && r.entitled == entitled
    case RegUpsert(auth, name, _) => FromRegister(r, auth, name) && r.wellFormed && r.entitled
    case UnregLookup(auth, name, _) => r.Unregister? && r.auth == auth && Lower(r.name) == name
    case UnregRelease(auth, name, _) => r.Unregister? && r.auth == auth && Lower(r.name) == name
    case LodgeOwner(row) => FromLodge(cfg, r, row)
    case LodgeName(row) => FromLodge(cfg, r, row)
    case LodgeAddress(row) => FromLodge(cfg, r, row)
    case LodgeInsert(row) => FromLodge(cfg, r, row)
    case ClaimGet(q) => FromClaim(r, q)
    case ClaimSettle(q, _) => FromClaim(r, q)
    case ClaimAgain(q, _) => FromClaim(r, q)
    case ClaimReplay(q, _) => FromClaim(r, q)
    case ClaimOwner(q, _) => FromClaim(r, q)
    case ClaimExcess(q, _) => FromClaim(r, q)
    case ClaimBuyer(q, _) => FromClaim(r, q)
    case ClaimCommit(q, _) => FromClaim(r, q)
    case _ => true
  }

  lemma StartFrom(cfg: Config, r: Request)
    ensures From(cfg, r, Start(cfg, r))
  {
    if r.Lodge? && ValidateOffer(cfg, r.auth, r.event, r.now).Success? {
      RowIff(cfg, r.auth, r.event, r.now, ValidateOffer(cfg, r.auth, r.event, r.now).value);
    }
    if r.Claim? && ParsePaymentProof(r.proof).Some? {
      ParsedIff(r.proof, ParsePaymentProof(r.proof).value);
    }
  }

  predicate Claiming(p: Proc) {
    || p.ClaimGet? || p.ClaimSettle? || p.ClaimAgain? || p.ClaimReplay? || p.ClaimOwner?
    || p.ClaimExcess? || p.ClaimBuyer? || p.ClaimCommit? || p.ClaimArm?
  }

  lemma ClaimStepFrom(cfg: Config, s: State, r: Request, p: Proc)
    requires From(cfg, r, p) && Claiming(p)
    ensures From(cfg, r, Step(cfg, s, p).1)
  {
  }

  lemma StepFrom(cfg: Config, s: State, r: Request, p: Proc)
    requires From(cfg, r, p)
    ensures From(cfg, r, Step(cfg, s, p).1)
  {
    if Claiming(p) {
      ClaimStepFrom(cfg, s, r, p);
    }
  }

  /** The request `r` arrived as flight `id`. */
  ghost predicate Arrived(es: seq<Event>, id: nat, r: Request) {
    exists j | 0 <= j < |es| :: es[j] == Arrive(id, r)
  }

  ghost predicate HasOrigin(cfg: Config, es: seq<Event>, id: nat, p: Proc) {
    exists r :: Arrived(es, id, r) && From(cfg, r, p)
  }

  /** The request lodges a signed offer of its sender, and the last tags of the event give these terms. */
  ghost predicate Tenders(r: Request, o: OfferRow) {
    && r.Lodge? && r.event.verified && r.event.isOffer
    && r.auth == o.seller && r.event.pubkey == o.seller && r.event.id == o.offerId && r.now == o.createdAt
    && Tags.LastGiven(r.event.tags, "name", o.name) && NamesBuyer(r.event, o.buyer)
    && PricedAt(r.event, o.price) && PaidAt(r.event, o.proofAddress) && ExpiresAt(r.event, o.expiration)
  }

  /** A lodging request brought these terms. */
  ghost predicate WasLodged(es: seq<Event>, o: OfferRow) {
    exists id, r :: Arrived(es, id, r) && Tenders(r, o)
  }

  ghost predicate Traced(cfg: Config, es: seq<Event>, sys: Sys) {
    && (forall id | id in sys.flights :: HasOrigin(cfg, es, id, sys.flights[id]))
    && (forall id | id in sys.state.offers :: WasLodged(es, sys.state.offers[id]))
  }

  lemma ArrivedLater(es: seq<Event>, e: Event, id: nat, r: Request)
    requires Arrived(es, id, r)
    ensures Arrived(es + [e], id, r)
  {
    var j :| 0 <= j < |es| && es[j] == Arrive(id, r);
    assert (es + [e])[j] == Arrive(id, r);
  }

  lemma TracedLater(cfg: Config, es: seq<Event>, e: Event, sys: Sys)
    requires Traced(cfg, es, sys)
    ensures Traced(cfg, es + [e], sys)
  {
    forall id | id in sys.flights ensures HasOrigin(cfg, es + [e], id, sys.flights[id]) {
      var r :| Arrived(es, id, r) && From(cfg, r, sys.flights[id]);
      ArrivedLater(es, e, id, r);
    }
    forall id | id in sys.state.offers ensures WasLodged(es + [e], sys.state.offers[id]) {
      var f, r :| Arrived(es, f, r) && Tenders(r, sys.state.offers[id]);
      ArrivedLater(es, e, f, r);
    }
  }

  /** A step writes no offer terms but those it was lodged with. */
  lemma OffersKeepTerms(cfg: Config, s: State, p: Proc, id: OfferId)
    requires StateInv(s) && ProcInv(cfg, s, p) && id in Step(cfg, s, p).0.offers
    ensures var t := Step(cfg, s, p).0;
            || (id in s.offers && SameTerms(s.offers[id], t.offers[id]))
            || (p.LodgeInsert? && t.offers[id] == p.row)
  {
    StepKeeps(cfg, s, p);
    if id !in s.offers {
      NewOffer(cfg, s, p, id);
    }
  }

  lemma NewOffer(cfg: Config, s: State, p: Proc, id: OfferId)
    requires id !in s.offers && id in Step(cfg, s, p).0.offers
    ensures p.LodgeInsert? && Step(cfg, s, p).0.offers[id] == p.row
  {
    Writers(cfg, s, p);
  }

  lemma TickTraced(cfg: Config, es: seq<Event>, sys: Sys, e: Event)
    requires Inv(cfg, sys) && Traced(cfg, es, sys) && e.Tick? && e.id in sys.flights
    ensures Traced(cfg, es, Apply(cfg, sys, e))
  {
    var p := sys.flights[e.id];
    var after := Apply(cfg, sys, e);
    var r :| Arrived(es, e.id, r) && From(cfg, r, p);
    StepFrom(cfg, sys.state, r, p);
    forall id | id in after.state.offers ensures WasLodged(es, after.state.offers[id]) {
      OffersKeepTerms(cfg, sys.state, p, id);
      if id in sys.state.offers && SameTerms(sys.state.offers[id], after.state.offers[id]) {
        var f, l :| Arrived(es, f, l) && Tenders(l, sys.state.offers[id]);
        assert Tenders(l, after.state.offers[id]);
      } else {
        assert FromLodge(cfg, r, p.row) && Tenders(r, after.state.offers[id]);
      }
    }
  }

  lemma {:induction false} RunTraced(cfg: Config, es: seq<Event>)
    ensures Traced(cfg, es, Run(cfg, INITIAL, es))
  {
    if es != [] {
      var before, e := es[..|es| - 1], es[|es| - 1];
      var sys := Run(cfg, INITIAL, before);
      assert es == before + [e];
      RunTraced(cfg, before);
      TracedLater(cfg, before, e, sys);
      if e.Arrive? {
        assert es[|es| - 1] == Arrive(e.id, e.request);
        StartFrom(cfg, e.request);
        assert Arrived(es, e.id, e.request);
      } else if e.id in sys.flights {
        ReachedInv(cfg, before);
        TickTraced(cfg, es, sys, e);
      }
    }
  }

  /** With `e` the key gained the name by a well-formed, entitled registration of its own. */
  ghost predicate GainedByRegistering(cfg: Config, before: seq<Event>, e: Event, n: Name, k: Pubkey) {
    var names := Reached(cfg, before).names;
    && e.Tick? && (n in names ==> names[n].releasedAt.Some?)
    && exists r ::
         Arrived(before, e.id, r) && r.Register? && r.auth == k && Lower(r.name) == n && r.wellFormed && r.entitled
  }

  /** The claim's own proof pays for an offer lodged to this key, whose seller holds the name. */
  ghost predicate PaidClaim(cfg: Config, before: seq<Event>, r: Request, q: ClaimRequest, o: OfferRow,
                            n: Name, k: Pubkey) {
    var names := Reached(cfg, before).names;
    && FromClaim(r, q) && r.auth == k
    && WasLodged(before, o) && o.name == n && o.buyer == k
    && n in names && names[n].releasedAt == None && names[n].pubkey == o.seller
    && PaysFor(cfg, q.proof, q.kernel, o)
  }

  /** With `e` the key gained the name by its own paid claim of an offer that the owner had lodged. */
  ghost predicate GainedByClaiming(cfg: Config, before: seq<Event>, e: Event, n: Name, k: Pubkey) {
    e.Tick? && exists r, q, o :: Arrived(before, e.id, r) && PaidClaim(cfg, before, r, q, o, n, k)
  }

  lemma SeenWasLodged(before: seq<Event>, s: State, o: OfferRow)
    requires Seen(s, o) && WasLodged(before, s.offers[o.offerId])
    ensures WasLodged(before, o)
  {
    var f, l :| Arrived(before, f, l) && Tenders(l, s.offers[o.offerId]);
    assert Tenders(l, o);
  }

  lemma ClaimGain(cfg: Config, before: seq<Event>, e: Event, s: State, r: Request, q: ClaimRequest, o: OfferRow)
    requires e.Tick? && s == Reached(cfg, before) && Arrived(before, e.id, r) && FromClaim(r, q)
    requires Seen(s, o) && WasLodged(before, s.offers[o.offerId])
    requires q.auth == o.buyer && Owns(s, o.name, o.seller) && PaysFor(cfg, q.proof, q.kernel, o)
    ensures GainedByClaiming(cfg, before, e, o.name, o.buyer)
  {
    SeenWasLodged(before, s, o);
    assert PaidClaim(cfg, before, r, q, o, o.name, o.buyer);
  }

  lemma OriginOf(cfg: Config, before: seq<Event>, sys: Sys, id: nat) returns (r: Request)
    requires sys == Run(cfg, INITIAL, before) && id in sys.flights
    ensures Arrived(before, id, r) && From(cfg, r, sys.flights[id])
  {
    RunTraced(cfg, before);
    assert HasOrigin(cfg, before, id, sys.flights[id]);
    r :| Arrived(before, id, r) && From(cfg, r, sys.flights[id]);
  }

  /** With `e` the key gained the name, in one of the two ways. */
  ghost predicate Gained(cfg: Config, before: seq<Event>, e: Event, n: Name, k: Pubkey) {
    GainedByRegistering(cfg, before, e, n, k) || GainedByClaiming(cfg, before, e, n, k)
  }

  lemma GainTraced(cfg: Config, before: seq<Event>, e: Event, n: Name, k: Pubkey)
    requires !Owns(Reached(cfg, before), n, k)
    requires Owns(Apply(cfg, Run(cfg, INITIAL, before), e).state, n, k)
    ensures Gained(cfg, before, e, n, k)
  {
    var sys := Run(cfg, INITIAL, before);
    var p := Mover(sys, e);
    assert IsUpsert(p, n, k) || IsCommit(p, n, k) by {
      ReachedInv(cfg, before);
      NameGained(cfg, sys, e, n, k);
    }
    var r := OriginOf(cfg, before, sys, e.id);
    if IsUpsert(p, n, k) {
      assert !Active(sys.state, n) by {
        ReachedInv(cfg, before);
        NameGained(cfg, sys, e, n, k);
      }
    } else {
      var q, o := p.value.q, p.value.o;
      ReachedInv(cfg, before);
      NameGained(cfg, sys, e, n, k);
      RunTraced(cfg, before);
      ClaimGain(cfg, before, e, sys.state, r, q, o);
    }
  }

  ghost predicate GainedAt(cfg: Config, es: seq<Event>, i: int, n: Name, k: Pubkey) {
    0 <= i < |es| && Gained(cfg, es[..i], es[i], n, k)
  }

  lemma GainedLater(cfg: Config, es: seq<Event>, e: Event, i: int, n: Name, k: Pubkey)
    requires GainedAt(cfg, es, i, n, k)
    ensures GainedAt(cfg, es + [e], i, n, k)
  {
    assert (es + [e])[..i] == es[..i] && (es + [e])[i] == es[i];
  }

  lemma GainedLast(cfg: Config, es: seq<Event>, e: Event, n: Name, k: Pubkey)
    requires Gained(cfg, es, e, n, k)
    ensures GainedAt(cfg, es + [e], |es|, n, k)
  {
    assert (es + [e])[..|es|] == es && (es + [e])[|es|] == e;
  }

  /**
   Whoever holds a name got it by an authenticated request of its own: a registration on a
   name nobody held, or a paid claim of an offer lodged by the holder of that moment.
   */
  lemma {:induction false} HolderTraced(cfg: Config, es: seq<Event>, n: Name, k: Pubkey) returns (i: int)
    requires Owns(Reached(cfg, es), n, k)
    ensures GainedAt(cfg, es, i, n, k)
  {
    assert es != [];
    i := |es| - 1;
    var before, e := es[..i], es[i];
    assert es == before + [e];
    if Owns(Reached(cfg, before), n, k) {
      i := HolderTraced(cfg, before, n, k);
      GainedLater(cfg, before, e, i, n, k);
    } else {
      GainTraced(cfg, before, e, n, k);
      GainedLast(cfg, before, e, n, k);
    }
  }

  // ---------------------------------------------------------------------------
  // How a name is lost

  /** At some moment of the run the key owned the name. */
  ghost predicate OwnedOnce(cfg: Config, es: seq<Event>, n: Name, a: Pubkey) {
    exists i | 0 <= i <= |es| :: Owns(Reached(cfg, es[..i]), n, a)
  }

  lemma {:induction false} ReleaserOwned(cfg: Config, es: seq<Event>, id: nat)
    requires id in Run(cfg, INITIAL, es).flights && Run(cfg, INITIAL, es).flights[id].UnregRelease?
    ensures var p := Run(cfg, INITIAL, es).flights[id]; OwnedOnce(cfg, es, p.name, p.auth)
  {
    var last := |es| - 1;
    var before := es[..last];
    var sys, p := Run(cfg, INITIAL, before), Run(cfg, INITIAL, es).flights[id];
    if id in sys.flights && sys.flights[id] == p {
      ReleaserOwned(cfg, before, id);
      var i :| 0 <= i <= last && Owns(Reached(cfg, before[..i]), p.name, p.auth);
      assert before[..i] == es[..i];
    } else {
      StartsNoRelease(cfg, es[last]);
      assert es[last] == Tick(id);
      ReleaseFollowsLookup(cfg, sys.state, sys.flights[id]);
      assert Owns(Reached(cfg, es[..last]), p.name, p.auth);
    }
  }

  lemma StartsNoRelease(cfg: Config, e: Event)
    ensures e.Arrive? ==> !Start(cfg, e.request).UnregRelease?
  {
  }

  lemma ReleaseFollowsLookup(cfg: Config, s: State, p: Proc)
    requires Step(cfg, s, p).1.UnregRelease?
    ensures var q := Step(cfg, s, p).1; p.UnregLookup? && Owns(s, q.name, q.auth)
  {
  }

  /** With `e` the name was released, for a key that asked for it and had owned the name. */
  ghost predicate LostByRelease(cfg: Config, before: seq<Event>, e: Event, n: Name) {
    e.Tick? && exists r ::
      Arrived(before, e.id, r) && r.Unregister? && Lower(r.name) == n && OwnedOnce(cfg, before, n, r.auth)
  }

  /** With `e` the key's own sale of the name was recorded. */
  ghost predicate LostBySale(cfg: Config, before: seq<Event>, e: Event, n: Name, k: Pubkey) {
    var s, t := Reached(cfg, before), Reached(cfg, before + [e]);
    exists id :: id !in s.transfers && id in t.transfers && t.transfers[id].name == n && t.transfers[id].seller == k
  }

  /**
   In every run a name is lost by a release that a key asked for which owned the name at some
   moment of the run, or by the recorded sale of the key that loses it.
   */
  lemma LossTraced(cfg: Config, before: seq<Event>, e: Event, n: Name, k: Pubkey)
    requires Owns(Reached(cfg, before), n, k) && !Owns(Reached(cfg, before + [e]), n, k)
    ensures LostByRelease(cfg, before, e, n) || LostBySale(cfg, before, e, n, k)
  {
    OwnershipLost(cfg, before, e, n, k);
    var sys := Run(cfg, INITIAL, before);
    var p := Mover(sys, e).value;
    if p.UnregRelease? {
      ReleaserOwned(cfg, before, e.id);
      var r := OriginOf(cfg, before, sys, e.id);
    } else {
      SaleRecorded(cfg, before, e, p);
    }
  }

  lemma SaleRecorded(cfg: Config, before: seq<Event>, e: Event, p: Proc)
    requires Mover(Run(cfg, INITIAL, before), e) == Some(p) && p.ClaimCommit?
    requires Reached(cfg, before + [e]).names != Reached(cfg, before).names
    ensures LostBySale(cfg, before, e, p.o.name, p.o.seller)
  {
    Reaching(cfg, before, e);
    var t := Reached(cfg, before + [e]);
    CommitRecords(cfg, Reached(cfg, before), p);
    assert p.o.offerId in t.transfers && t.transfers[p.o.offerId].name == p.o.name;
  }

  lemma CommitRecords(cfg: Config, s: State, p: Proc)
    requires p.ClaimCommit? && Step(cfg, s, p).0.names != s.names
    ensures var t := Step(cfg, s, p).0;
            && p.o.offerId !in s.transfers && p.o.offerId in t.transfers
            && t.transfers[p.o.offerId].name == p.o.name && t.transfers[p.o.offerId].seller == p.o.seller
  {
    assert Step(cfg, s, p).0 == ClaimTxn(s, p.o, p.q.proof.excess, KernelHeight(p.q), p.q.now).0;
  }
}
