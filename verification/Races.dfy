/**
 What interleaving can break: exactly when, and runs from arriving requests in which it does.
 */
module Races {
  import opened Wrappers
  import opened Text
  import opened Store
  import opened Protocol
  import opened Interleaving
  import opened Sequential
  import opened Outcomes

  // ---------------------------------------------------------------------------
  // A consumed offer that is revoked

  /** A revocation that has read an expired offer and not yet written. */
  lemma RevokeReads(cfg: Config, s: State, id: OfferId, revoke: Request)
    requires id in s.offers && s.offers[id].status == Expired
    requires revoke.Revoke? && revoke.offerId == id && revoke.auth == s.offers[id].seller
    ensures Run(cfg, Sys(s, map[]), [Arrive(0, revoke), Tick(0)]) == Sys(s, map[0 := RevokeForce(s.offers[id])])
  {
    var sys := Sys(s, map[]);
    RunFirst(cfg, sys, Arrive(0, revoke), [Tick(0)]);
    RunFirst(cfg, Apply(cfg, sys, Arrive(0, revoke)), Tick(0), []);
    assert [Arrive(0, revoke)] + [Tick(0)] == [Arrive(0, revoke), Tick(0)] && [Tick(0)] + [] == [Tick(0)];
  }

  /**
   The race behind `ConsumedLostIff`: whenever an expired offer can still be claimed, a
   revocation that read it before the claim and writes after it leaves the offer `revoked`
   although its transfer stands.
   */
  lemma RevocationRace(cfg: Config, s: State, id: OfferId, revoke: Request, claim: Request)
    requires StateInv(s) && TransferIffConsumed(s) && id in s.offers && s.offers[id].status == Expired
    requires revoke.Revoke? && revoke.offerId == id && revoke.auth == s.offers[id].seller
    requires ClaimOf(claim).Some? && ClaimOf(claim).value.offerId == id && Handle(cfg, s, claim).1.Claimed?
    ensures var es := [Arrive(0, revoke), Tick(0)] + ([Arrive(1, claim)] + Ticks(1, 8)) + [Tick(0)];
            var t := Run(cfg, Sys(s, map[]), es).state;
            id in t.transfers && id in t.offers && t.offers[id].status == Revoked
  {
    var sys := Sys(s, map[]);
    var read, paid := [Arrive(0, revoke), Tick(0)], [Arrive(1, claim)] + Ticks(1, 8);
    var sys1 := Sys(s, map[0 := RevokeForce(s.offers[id])]);
    RevokeReads(cfg, s, id, revoke);
    RunConcat(cfg, sys, read, paid);
    RequestFinishes(cfg, sys1, 1, claim);
    ClaimRecords(cfg, s, ClaimOf(claim).value);
    RunConcat(cfg, sys, read + paid, [Tick(0)]);
    ForceTick(cfg, Run(cfg, sys1, paid), s.offers[id]);
  }

  lemma ForceTick(cfg: Config, sys: Sys, o: OfferRow)
    requires 0 in sys.flights && sys.flights[0] == RevokeForce(o) && o.offerId in sys.state.offers
    ensures var t := Run(cfg, sys, [Tick(0)]).state;
            t == ForceRevoke(sys.state, o.offerId)
  {
    RunFirst(cfg, sys, Tick(0), []);
    assert [Tick(0)] + [] == [Tick(0)];
  }

  // ---------------------------------------------------------------------------
  // Two live offers

  /** Inserted now, the row would be a second live offer for its name or its address. */
  ghost predicate Clashes(s: State, row: OfferRow, now: int) {
    && row.offerId !in s.offers && LiveAt(row, now)
    && (LiveForName(s, row.name, now) || LiveForAddress(s, row.proofAddress, now))
  }

  lemma InsertClashIff(s: State, row: OfferRow, now: int)
    requires LiveUnique(s, now) && row.offerId !in s.offers
    ensures !LiveUnique(s.(offers := s.offers[row.offerId := row]), now) <==> Clashes(s, row, now)
  {
    var t := s.(offers := s.offers[row.offerId := row]);
    assert forall id | id in s.offers :: t.offers[id] == s.offers[id];
    if LiveForName(s, row.name, now) && LiveAt(row, now) {
      var id :| id in s.offers && s.offers[id].name == row.name && LiveAt(s.offers[id], now);
      assert t.offers[id] == s.offers[id] && t.offers[row.offerId] == row;
    }
    if LiveForAddress(s, row.proofAddress, now) && LiveAt(row, now) {
      var id :| id in s.offers && s.offers[id].proofAddress == row.proofAddress && LiveAt(s.offers[id], now);
      assert t.offers[id] == s.offers[id] && t.offers[row.offerId] == row;
    }
  }

  /** No step but an insertion makes an offer live. */
  lemma OthersKeepUnique(cfg: Config, s: State, p: Proc, now: int)
    requires StateInv(s) && ProcInv(cfg, s, p) && LiveUnique(s, now)
    requires forall id | id in Step(cfg, s, p).0.offers :: id in s.offers
    ensures LiveUnique(Step(cfg, s, p).0, now)
  {
    StepEvolves(cfg, s, p);
    var t := Step(cfg, s, p).0;
    assert forall id | id in t.offers && LiveAt(t.offers[id], now) :: SameTerms(s.offers[id], t.offers[id]) && LiveAt(s.offers[id], now);
  }

  lemma OnlyInsertsAdd(cfg: Config, s: State, p: Proc)
    requires !(p.LodgeInsert? && p.row.offerId !in s.offers)
    ensures forall id | id in Step(cfg, s, p).0.offers :: id in s.offers
  {
    Writers(cfg, s, p);
  }

  /**
   In every interleaving, a step ends the time of one live offer for a name and for an
   address if and only if it inserts a lodged offer that is then a second one: because it was
   checked before the other came to be.
   */
  lemma LiveClashIff(cfg: Config, es: seq<Event>, e: Event, now: int)
    requires LiveUnique(Reached(cfg, es), now)
    ensures !LiveUnique(Reached(cfg, es + [e]), now) <==>
            var p := Mover(Run(cfg, INITIAL, es), e);
            p.Some? && p.value.LodgeInsert? && Clashes(Reached(cfg, es), p.value.row, now)
  {
    var s, p := Reached(cfg, es), Mover(Run(cfg, INITIAL, es), e);
    Reaching(cfg, es, e);
    if p.Some? {
      if p.value.LodgeInsert? && p.value.row.offerId !in s.offers {
        InsertClashIff(s, p.value.row, now);
      } else {
        OnlyInsertsAdd(cfg, s, p.value);
        OthersKeepUnique(cfg, s, p.value, now);
      }
    }
  }

  /** The checks of the tables let the row pass. */
  ghost predicate Passes(s: State, row: OfferRow) {
    && Owns(s, row.name, row.seller) && row.offerId !in s.offers
    && !LiveForName(s, row.name, row.createdAt) && !LiveForAddress(s, row.proofAddress, row.createdAt)
  }

  /** Alone, the request would lodge this row. */
  ghost predicate Lodgeable(cfg: Config, s: State, r: Request, row: OfferRow) {
    r.Lodge? && ValidateOffer(cfg, r.auth, r.event, r.now) == Success(row) && Passes(s, row)
  }

  lemma LodgeChecksPass(cfg: Config, sys: Sys, id: nat, row: OfferRow)
    requires id in sys.flights && sys.flights[id] == LodgeOwner(row)
    requires Owns(sys.state, row.name, row.seller)
    requires !LiveForName(sys.state, row.name, row.createdAt) && !LiveForAddress(sys.state, row.proofAddress, row.createdAt)
    ensures Run(cfg, sys, [Tick(id), Tick(id), Tick(id)]) == sys.(flights := sys.flights[id := LodgeInsert(row)])
  {
    var t := Tick(id);
    var sys1, sys2 := Apply(cfg, sys, t), Apply(cfg, Apply(cfg, sys, t), t);
    RunFirst(cfg, sys, t, [t, t]);
    RunFirst(cfg, sys1, t, [t]);
    RunFirst(cfg, sys2, t, []);
    assert [t] + [t, t] == [t, t, t] && [t] + [t] == [t, t] && [t] + [] == [t];
  }

  lemma BothArrive(cfg: Config, s: State, one: Request, a: OfferRow, two: Request, b: OfferRow)
    requires Lodgeable(cfg, s, one, a) && Lodgeable(cfg, s, two, b)
    ensures Run(cfg, Sys(s, map[]), [Arrive(0, one), Arrive(1, two)]) == Sys(s, map[0 := LodgeOwner(a), 1 := LodgeOwner(b)])
  {
    var sys := Sys(s, map[]);
    RunFirst(cfg, sys, Arrive(0, one), [Arrive(1, two)]);
    RunFirst(cfg, Apply(cfg, sys, Arrive(0, one)), Arrive(1, two), []);
    assert [Arrive(0, one)] + [Arrive(1, two)] == [Arrive(0, one), Arrive(1, two)];
    assert [Arrive(1, two)] + [] == [Arrive(1, two)];
  }

  /** Both have passed their checks; then both insert. */
  lemma BothInsert(cfg: Config, s: State, a: OfferRow, b: OfferRow)
    requires Passes(s, a) && Passes(s, b) && a.offerId != b.offerId
    ensures var es := [Tick(0), Tick(0), Tick(0)] + [Tick(1), Tick(1), Tick(1)] + [Tick(0), Tick(1)];
            Run(cfg, Sys(s, map[0 := LodgeOwner(a), 1 := LodgeOwner(b)]), es).state ==
            s.(offers := s.offers[a.offerId := a][b.offerId := b])
  {
    var sys := Sys(s, map[0 := LodgeOwner(a), 1 := LodgeOwner(b)]);
    BothPass(cfg, s, a, b);
    RunConcat(cfg, sys, [Tick(0), Tick(0), Tick(0)] + [Tick(1), Tick(1), Tick(1)], [Tick(0), Tick(1)]);
    InsertsFollow(cfg, s, a, b);
  }

  lemma BothPass(cfg: Config, s: State, a: OfferRow, b: OfferRow)
    requires Passes(s, a) && Passes(s, b)
    ensures Run(cfg, Sys(s, map[0 := LodgeOwner(a), 1 := LodgeOwner(b)]),
                [Tick(0), Tick(0), Tick(0)] + [Tick(1), Tick(1), Tick(1)]) ==
            Sys(s, map[0 := LodgeInsert(a), 1 := LodgeInsert(b)])
  {
    var sys, sys1 := Sys(s, map[0 := LodgeOwner(a), 1 := LodgeOwner(b)]), Sys(s, map[0 := LodgeInsert(a), 1 := LodgeOwner(b)]);
    LodgeChecksPass(cfg, sys, 0, a);
    assert Run(cfg, sys, [Tick(0), Tick(0), Tick(0)]) == sys1;
    RunConcat(cfg, sys, [Tick(0), Tick(0), Tick(0)], [Tick(1), Tick(1), Tick(1)]);
    LodgeChecksPass(cfg, sys1, 1, b);
    assert Run(cfg, sys1, [Tick(1), Tick(1), Tick(1)]).flights == map[0 := LodgeInsert(a), 1 := LodgeInsert(b)];
  }

  lemma InsertsFollow(cfg: Config, s: State, a: OfferRow, b: OfferRow)
    requires a.offerId !in s.offers && b.offerId !in s.offers && a.offerId != b.offerId
    ensures Run(cfg, Sys(s, map[0 := LodgeInsert(a), 1 := LodgeInsert(b)]), [Tick(0), Tick(1)]).state ==
            s.(offers := s.offers[a.offerId := a][b.offerId := b])
  {
    var sys := Sys(s, map[0 := LodgeInsert(a), 1 := LodgeInsert(b)]);
    RunFirst(cfg, sys, Tick(0), [Tick(1)]);
    RunFirst(cfg, Apply(cfg, sys, Tick(0)), Tick(1), []);
    assert [Tick(0)] + [Tick(1)] == [Tick(0), Tick(1)] && [Tick(1)] + [] == [Tick(1)];
  }

  /**
   Two requests to lodge offers for one name, each of which would be granted alone: when they
   arrive together and both pass their checks before either inserts, both offers are live at
   one time.
   */
  lemma LodgingRace(cfg: Config, s: State, one: Request, a: OfferRow, two: Request, b: OfferRow, now: int)
    requires Lodgeable(cfg, s, one, a) && Lodgeable(cfg, s, two, b)
    requires a.name == b.name && a.offerId != b.offerId && LiveAt(a, now) && LiveAt(b, now)
    ensures var es := [Arrive(0, one), Arrive(1, two)]
                      + ([Tick(0), Tick(0), Tick(0)] + [Tick(1), Tick(1), Tick(1)] + [Tick(0), Tick(1)]);
            !LiveUnique(Run(cfg, Sys(s, map[]), es).state, now)
  {
    var come := [Arrive(0, one), Arrive(1, two)];
    var go := [Tick(0), Tick(0), Tick(0)] + [Tick(1), Tick(1), Tick(1)] + [Tick(0), Tick(1)];
    BothArrive(cfg, s, one, a, two, b);
    BothInsert(cfg, s, a, b);
    RunConcat(cfg, Sys(s, map[]), come, go);
    var t := Run(cfg, Sys(s, map[]), come + go).state;
    assert t.offers[a.offerId] == a && t.offers[b.offerId] == b;
  }

  // ---------------------------------------------------------------------------
  // A name released by another key

  /** The key's own release of the name, or the commit of its own sale of it. */
  ghost predicate OwnDoing(p: Option<Proc>, n: Name, k: Pubkey) {
    && p.Some?
    && ((p.value.UnregRelease? && p.value.name == n && p.value.auth == k)
        || (p.value.ClaimCommit? && p.value.o.name == n && p.value.o.seller == k))
  }

  /**
   In every interleaving, a key loses a name by nothing of its own doing if and only if
   another key's release of that name is written.
   */
  lemma ForeignReleaseIff(cfg: Config, es: seq<Event>, e: Event, n: Name, k: Pubkey)
    requires Owns(Reached(cfg, es), n, k)
    ensures var p := Mover(Run(cfg, INITIAL, es), e);
            !Owns(Reached(cfg, es + [e]), n, k) && !OwnDoing(p, n, k) <==>
            p.Some? && p.value.UnregRelease? && p.value.name == n && p.value.auth != k
  {
    Reaching(cfg, es, e);
    if !Owns(Reached(cfg, es + [e]), n, k) {
      OwnershipLost(cfg, es, e, n, k);
    }
  }

  /** A release that has found its key to be the owner and not yet written. */
  lemma ReleaseReads(cfg: Config, s: State, name: Name, unreg: Request)
    requires unreg.Unregister? && Lower(unreg.name) == name && Owns(s, name, unreg.auth)
    ensures Run(cfg, Sys(s, map[]), [Arrive(0, unreg), Tick(0)]) ==
            Sys(s, map[0 := UnregRelease(unreg.auth, name, unreg.now)])
  {
    var sys := Sys(s, map[]);
    RunFirst(cfg, sys, Arrive(0, unreg), [Tick(0)]);
    RunFirst(cfg, Apply(cfg, sys, Arrive(0, unreg)), Tick(0), []);
    assert [Arrive(0, unreg)] + [Tick(0)] == [Arrive(0, unreg), Tick(0)] && [Tick(0)] + [] == [Tick(0)];
  }

  /**
   An owner releases its name twice at once. Between the two writes another key registers the
   name; the second write then takes it from that key, which never asked.
   */
  lemma ReleaseRace(cfg: Config, s: State, first: Request, second: Request, register: Request)
    requires first.Unregister? && second.Unregister? && first.auth == second.auth
    requires Lower(first.name) == Lower(second.name) && Owns(s, Lower(first.name), first.auth)
    requires register.Register? && Lower(register.name) == Lower(first.name) && register.auth != first.auth
    requires Handle(cfg, Handle(cfg, s, second).0, register).1 == Registered
    ensures var es := [Arrive(0, first), Tick(0)] + ([Arrive(1, second)] + Ticks(1, 8)) + ([Arrive(2, register)] + Ticks(2, 8));
            var sys := Run(cfg, Sys(s, map[]), es);
            && Owns(sys.state, Lower(first.name), register.auth)
            && !Active(Apply(cfg, sys, Tick(0)).state, Lower(first.name))
  {
    var sys, name := Sys(s, map[]), Lower(first.name);
    var read, free, take := [Arrive(0, first), Tick(0)], [Arrive(1, second)] + Ticks(1, 8), [Arrive(2, register)] + Ticks(2, 8);
    ReleaseReads(cfg, s, name, first);
    var sys1 := Run(cfg, sys, read);
    RunConcat(cfg, sys, read, free);
    RequestFinishes(cfg, sys1, 1, second);
    var sys2 := Run(cfg, sys1, free);
    RunConcat(cfg, sys, read + free, take);
    RequestFinishes(cfg, sys2, 2, register);
    RegisterIff(cfg, sys2.state, register);
  }
}
