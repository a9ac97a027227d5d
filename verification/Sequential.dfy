/**
 Requests run to completion, one after another, under a clock that never goes back. What a
 handler read is still true when it acts, so more holds than under interleaving.
 */
module Sequential {
  import opened Wrappers
  import opened Store
  import opened Protocol
  import opened Interleaving

  function Time(r: Request): int {
    r.now
  }

  ghost predicate Chronological(rs: seq<Request>, from: int) {
    && (forall i | 0 <= i < |rs| :: from <= Time(rs[i]))
    && (forall i, j | 0 <= i < j < |rs| :: Time(rs[i]) <= Time(rs[j]))
  }

  function Serve(cfg: Config, s: State, rs: seq<Request>): State {
    if rs == [] then s else Handle(cfg, Serve(cfg, s, rs[..|rs| - 1]), rs[|rs| - 1]).0
  }

  /** The clock after a run. */
  function Clock(rs: seq<Request>, from: int): int {
    if rs == [] then from else Time(rs[|rs| - 1])
  }

  // ---------------------------------------------------------------------------
  // The invariant between requests

  /** A transfer row exists for an offer exactly when that offer is consumed. */
  ghost predicate TransferIffConsumed(s: State) {
    forall id | id in s.offers :: id in s.transfers <==> s.offers[id].status == Consumed
  }

  /** The claim came before expiry, or settled before a recorded death and came within grace. */
  ghost predicate ClaimedInTime(cfg: Config, o: OfferRow, t: TransferRow) {
    if o.stateChangedAt.None? then
      o.endHeight.None? && t.claimedAt <= o.expiration
    else
      && o.endHeight.Some? && t.kernelHeight.Some? && t.kernelHeight.value <= o.endHeight.value
      && 0 <= t.claimedAt - o.stateChangedAt.value <= cfg.claimGrace
  }

  ghost predicate AllInTime(cfg: Config, s: State) {
    forall id | id in s.transfers && id in s.offers :: ClaimedInTime(cfg, s.offers[id], s.transfers[id])
  }

  /** At most one live, unexpired offer for a name, and for a proof address. */
  ghost predicate LiveUnique(s: State, now: int) {
    forall a, b | a in s.offers && b in s.offers && a != b && LiveAt(s.offers[a], now) && LiveAt(s.offers[b], now) ::
      s.offers[a].name != s.offers[b].name && s.offers[a].proofAddress != s.offers[b].proofAddress
  }

  /** Every recorded death lies in the past. */
  ghost predicate DeathsPast(s: State, now: int) {
    forall id | id in s.offers && s.offers[id].stateChangedAt.Some? :: s.offers[id].stateChangedAt.value <= now
  }

  ghost predicate SeqInv(cfg: Config, s: State, now: int) {
    && StateInv(s)
    && TransferIffConsumed(s)
    && AllInTime(cfg, s)
    && LiveUnique(s, now)
    && DeathsPast(s, now)
  }

  // ---------------------------------------------------------------------------
  // What a handler knows between its own steps

  ghost predicate Current(s: State, o: OfferRow) {
    o.offerId in s.offers && s.offers[o.offerId] == o
  }

  ghost predicate OpenClaim(cfg: Config, s: State, now: int, q: ClaimRequest, o: OfferRow) {
    && Current(s, o) && q.now == now && !Overdue(o, now)
    && o.status != Consumed && WithinGrace(cfg, q, o)
  }

  ghost predicate Fresh(cfg: Config, s: State, now: int, p: Proc) {
    match p
    case RegNameOf(_, name, _, _) => !Active(s, name)
    case RegUpsert(auth, name, _) => !Active(s, name) && !HasName(s, auth)
    case UnregRelease(auth, name, _) => Owns(s, name, auth)
    case LodgeOwner(row) => row.createdAt == now
    case LodgeName(row) => row.createdAt == now
    case LodgeAddress(row) => row.createdAt == now && !LiveForName(s, row.name, now)
    case LodgeInsert(row) =>
      row.createdAt == now && !LiveForName(s, row.name, now) && !LiveForAddress(s, row.proofAddress, now)
    case ReadSettle(o, at, _) => Current(s, o) && at == now
    case RevokeMark(o, at, _) => Current(s, o) && at == now
    case ReadGet(_, at, _) => at == now
    case RevokeGet(_, _, at, _) => at == now
    case RevokeForce(o) => Current(s, o)
    case ClaimGet(q) => q.now == now
    case ClaimSettle(q, o) => Current(s, o) && q.now == now && o.status == Live
    case ClaimAgain(q, o) => o.offerId in s.offers && !Overdue(s.offers[o.offerId], now) && q.now == now
    case ClaimReplay(q, o) => q.now == now
    case ClaimOwner(q, o) => OpenClaim(cfg, s, now, q, o)
    case ClaimExcess(q, o) => OpenClaim(cfg, s, now, q, o) && Owns(s, o.name, o.seller)
    case ClaimBuyer(q, o) => OpenClaim(cfg, s, now, q, o) && Owns(s, o.name, o.seller) && !ExcessUsed(s, q.proof.excess)
    case ClaimCommit(q, o) =>
      && OpenClaim(cfg, s, now, q, o) && Owns(s, o.name, o.seller)
      && !ExcessUsed(s, q.proof.excess) && !HasName(s, o.buyer)
    case Done(r) => !r.TxFailed?
    case _ => true
  }

  function StatusRank(st: Status): nat {
    match st
    case Live => 0 case Expired => 1 case Revoked => 2 case Consumed => 3
  }

  /** Status only climbs: live, expired, revoked, consumed. */
  ghost predicate Climbs(s: State, t: State) {
    forall id | id in s.offers :: id in t.offers && StatusRank(s.offers[id].status) <= StatusRank(t.offers[id].status)
  }

  // ---------------------------------------------------------------------------
  // One step without interference

  lemma SameOffers(cfg: Config, s: State, t: State, now: int)
    requires SeqInv(cfg, s, now) && StateInv(t) && t.offers == s.offers && t.transfers == s.transfers
    ensures SeqInv(cfg, t, now) && Climbs(s, t)
  {
  }

  /** Fewer live offers cannot clash. */
  lemma LiveShrinks(s: State, t: State, now: int)
    requires LiveUnique(s, now)
    requires forall id | id in t.offers && LiveAt(t.offers[id], now) :: id in s.offers && s.offers[id] == t.offers[id]
    ensures LiveUnique(t, now)
  {
  }

  /** A row that is dying or being revoked leaves the live offers. */
  lemma DeathKeeps(cfg: Config, s: State, id: OfferId, row: OfferRow, now: int)
    requires SeqInv(cfg, s, now) && id in s.offers && SameTerms(s.offers[id], row)
    requires s.offers[id].status != Consumed && Dead(row)
    requires StatusRank(s.offers[id].status) <= StatusRank(row.status)
    requires row.stateChangedAt.Some? ==> row.stateChangedAt.value <= now
    requires StateInv(s.(offers := s.offers[id := row]))
    ensures var t := s.(offers := s.offers[id := row]); SeqInv(cfg, t, now) && Climbs(s, t)
  {
    LiveShrinks(s, s.(offers := s.offers[id := row]), now);
  }

  lemma MarkSeq(cfg: Config, s: State, o: OfferRow, status: Status, height: Option<int>, now: int)
    requires SeqInv(cfg, s, now) && Current(s, o) && (status == Expired || status == Revoked)
    ensures var t := MarkOfferDead(s, o.offerId, status, height, now); SeqInv(cfg, t, now) && Climbs(s, t)
  {
    if o.status == Live {
      MarkKeeps(s, o.offerId, status, height, now);
      DeathKeeps(cfg, s, o.offerId, o.(status := status, endHeight := height, stateChangedAt := Some(now)), now);
    }
  }

  lemma InsertUnique(cfg: Config, s: State, row: OfferRow, now: int)
    requires SeqInv(cfg, s, now) && FreshRow(row) && row.offerId !in s.offers
    requires !LiveForName(s, row.name, now) && !LiveForAddress(s, row.proofAddress, now)
    ensures var t := InsertOffer(s, row).0; SeqInv(cfg, t, now) && Climbs(s, t)
  {
    InsertKeeps(s, row);
  }

  /** The commit finds everything as the checks left it: it cannot fail. */
  lemma CommitSucceeds(cfg: Config, s: State, now: int, q: ClaimRequest, o: OfferRow)
    requires SeqInv(cfg, s, now) && Fresh(cfg, s, now, ClaimCommit(q, o))
    ensures var (t, result) := ClaimTxn(s, o, q.proof.excess, KernelHeight(q), now);
            && result == Committed
            && t.offers == s.offers[o.offerId := o.(status := Consumed)]
            && t.transfers == s.transfers[o.offerId := TransferOf(o, q.proof.excess, KernelHeight(q), now)]
  {
    assert forall n | n in s.names :: !Owns(s, n, o.buyer);
  }

  /** The row that the commit writes is in time. */
  lemma CommitInTime(cfg: Config, s: State, now: int, q: ClaimRequest, o: OfferRow)
    requires SeqInv(cfg, s, now) && OpenClaim(cfg, s, now, q, o) && SettledBeforeDeath(q, o)
    ensures ClaimedInTime(cfg, o, TransferOf(o, q.proof.excess, KernelHeight(q), now))
  {
  }

  lemma CommitKeeps(cfg: Config, s: State, now: int, q: ClaimRequest, o: OfferRow)
    requires SeqInv(cfg, s, now)
    requires ProcInv(cfg, s, ClaimCommit(q, o)) && Fresh(cfg, s, now, ClaimCommit(q, o))
    ensures var t := ClaimTxn(s, o, q.proof.excess, KernelHeight(q), now).0;
            SeqInv(cfg, t, now) && Climbs(s, t)
  {
    CommitSucceeds(cfg, s, now, q, o);
    TxnKeeps(s, o, q.proof.excess, KernelHeight(q), now);
    CommitInTime(cfg, s, now, q, o);
    ConsumeKeeps(cfg, s, ClaimTxn(s, o, q.proof.excess, KernelHeight(q), now).0, o,
                 TransferOf(o, q.proof.excess, KernelHeight(q), now), now);
  }

  lemma ConsumeRecords(cfg: Config, s: State, t: State, o: OfferRow, row: TransferRow)
    requires TransferIffConsumed(s) && AllInTime(cfg, s) && Current(s, o) && ClaimedInTime(cfg, o, row)
    requires t.offers == s.offers[o.offerId := o.(status := Consumed)]
    requires t.transfers == s.transfers[o.offerId := row]
    ensures TransferIffConsumed(t) && AllInTime(cfg, t)
  {
  }

  lemma ConsumeKeeps(cfg: Config, s: State, t: State, o: OfferRow, row: TransferRow, now: int)
    requires SeqInv(cfg, s, now) && StateInv(t) && Current(s, o) && ClaimedInTime(cfg, o, row)
    requires t.offers == s.offers[o.offerId := o.(status := Consumed)]
    requires t.transfers == s.transfers[o.offerId := row]
    ensures SeqInv(cfg, t, now) && Climbs(s, t)
  {
    LiveShrinks(s, t, now);
    ConsumeRecords(cfg, s, t, o, row);
  }

  ghost predicate OfClaim(p: Proc) {
    || p.ClaimGet? || p.ClaimSettle? || p.ClaimAgain? || p.ClaimReplay? || p.ClaimOwner?
    || p.ClaimExcess? || p.ClaimBuyer? || p.ClaimCommit? || p.ClaimArm?
  }

  lemma ClaimReadFresh(cfg: Config, s: State, now: int, p: Proc)
    requires RowsKeyed(s) && Fresh(cfg, s, now, p) && ClaimReads(p)
    ensures Step(cfg, s, p).0 == s && Fresh(cfg, s, now, Step(cfg, s, p).1)
  {
    match p
    case ClaimGet(q) =>
      if q.offerId in s.offers && !Overdue(s.offers[q.offerId], now) {
        AfterSettleFresh(cfg, s, now, q, s.offers[q.offerId]);
      }
    case ClaimAgain(q, o) => AfterSettleFresh(cfg, s, now, q, s.offers[o.offerId]);
    case ClaimOwner(q, o) =>
      if Owns(s, o.name, o.seller) {
        AfterOwnerFresh(cfg, s, now, q, o);
      }
    case _ =>
  }

  lemma ClaimStepFresh(cfg: Config, s: State, now: int, p: Proc)
    requires SeqInv(cfg, s, now) && ProcInv(cfg, s, p) && Fresh(cfg, s, now, p) && OfClaim(p)
    ensures var (t, p') := Step(cfg, s, p); Fresh(cfg, t, now, p')
  {
    if ClaimReads(p) {
      ClaimReadFresh(cfg, s, now, p);
    } else if p.ClaimCommit? {
      CommitSucceeds(cfg, s, now, p.q, p.o);
    }
  }

  lemma AfterOwnerFresh(cfg: Config, s: State, now: int, q: ClaimRequest, o: OfferRow)
    requires OpenClaim(cfg, s, now, q, o) && Owns(s, o.name, o.seller)
    ensures Fresh(cfg, s, now, AfterOwner(cfg, q, o))
  {
  }

  lemma AfterSettleFresh(cfg: Config, s: State, now: int, q: ClaimRequest, o: OfferRow)
    requires Current(s, o) && q.now == now && !Overdue(o, now)
    ensures Fresh(cfg, s, now, AfterSettle(cfg, q, o))
  {
  }

  lemma StepFresh(cfg: Config, s: State, now: int, p: Proc)
    requires SeqInv(cfg, s, now) && ProcInv(cfg, s, p) && Fresh(cfg, s, now, p)
    ensures var (t, p') := Step(cfg, s, p); Fresh(cfg, t, now, p')
  {
    if OfClaim(p) {
      ClaimStepFresh(cfg, s, now, p);
    }
  }

  ghost predicate WritesOffers(p: Proc) {
    p.LodgeInsert? || p.ReadSettle? || p.RevokeMark? || p.RevokeForce? || p.ClaimSettle? || p.ClaimCommit?
  }

  lemma WriterSeq(cfg: Config, s: State, now: int, p: Proc)
    requires SeqInv(cfg, s, now) && ProcInv(cfg, s, p) && Fresh(cfg, s, now, p) && WritesOffers(p)
    ensures var t := Step(cfg, s, p).0; SeqInv(cfg, t, now) && Climbs(s, t)
  {
    match p
    case LodgeInsert(row) =>
      if row.offerId !in s.offers { InsertUnique(cfg, s, row, now); }
    case ReadSettle(o, at, tip) => MarkSeq(cfg, s, o, Expired, Height(tip), now);
    case RevokeMark(o, at, tip) => MarkSeq(cfg, s, o, Revoked, Height(tip), now);
    case RevokeForce(o) =>
      ForceKeeps(s, o.offerId);
      DeathKeeps(cfg, s, o.offerId, o.(status := Revoked), now);
    case ClaimSettle(q, o) => MarkSeq(cfg, s, o, Expired, Height(q.tip), now);
    case ClaimCommit(q, o) => CommitKeeps(cfg, s, now, q, o);
  }

  lemma StepSeq(cfg: Config, s: State, now: int, p: Proc)
    requires SeqInv(cfg, s, now) && ProcInv(cfg, s, p) && Fresh(cfg, s, now, p)
    ensures var t := Step(cfg, s, p).0; SeqInv(cfg, t, now) && Climbs(s, t)
  {
    if WritesOffers(p) {
      WriterSeq(cfg, s, now, p);
    } else {
      StepKeeps(cfg, s, p);
      Writers(cfg, s, p);
      SameOffers(cfg, s, Step(cfg, s, p).0, now);
    }
  }

  // ---------------------------------------------------------------------------
  // One request, and runs of requests

  ghost predicate Ready(cfg: Config, s: State, now: int, p: Proc) {
    SeqInv(cfg, s, now) && ProcInv(cfg, s, p) && Fresh(cfg, s, now, p)
  }

  lemma StepReady(cfg: Config, s: State, now: int, p: Proc) returns (t: State, p': Proc)
    requires Ready(cfg, s, now, p)
    ensures (t, p') == Step(cfg, s, p)
    ensures Ready(cfg, t, now, p') && Advances(s, t)
    ensures !p.Done? ==> Rank(p') < Rank(p)
  {
    t, p' := Step(cfg, s, p).0, Step(cfg, s, p).1;
    StepKeeps(cfg, s, p);
    StepKeepsProc(cfg, s, p);
    StepFresh(cfg, s, now, p);
    StepSeq(cfg, s, now, p);
    StepDescends(cfg, s, p);
  }

  /** A request run to completion keeps the invariant, and its claim never fails at the commit. */
  lemma {:induction false} SoloKeeps(cfg: Config, s: State, now: int, p: Proc)
    requires Ready(cfg, s, now, p)
    ensures Ready(cfg, Solo(cfg, s, p).0, now, Done(Solo(cfg, s, p).1))
    decreases Rank(p)
  {
    if !p.Done? {
      var t, p' := StepReady(cfg, s, now, p);
      SoloKeeps(cfg, t, now, p');
      assert Solo(cfg, s, p) == Solo(cfg, t, p');
    }
  }

  /** What a request run to completion takes back: nothing. */
  ghost predicate Advances(s: State, t: State) {
    Evolves(s, t) && Climbs(s, t)
  }

  lemma AdvancesTrans(s: State, t: State, u: State)
    requires Advances(s, t) && Advances(t, u)
    ensures Advances(s, u)
  {
    EvolvesTrans(s, t, u);
    ClimbsTrans(s, t, u);
  }

  lemma {:induction false} SoloAdvances(cfg: Config, s: State, now: int, p: Proc)
    requires Ready(cfg, s, now, p)
    ensures Advances(s, Solo(cfg, s, p).0)
    decreases Rank(p)
  {
    if !p.Done? {
      var t, p' := StepReady(cfg, s, now, p);
      SoloAdvances(cfg, t, now, p');
      assert Solo(cfg, s, p) == Solo(cfg, t, p');
      AdvancesTrans(s, t, Solo(cfg, t, p').0);
    }
  }

  lemma ClimbsTrans(s: State, t: State, u: State)
    requires Climbs(s, t) && Climbs(t, u)
    ensures Climbs(s, u)
  {
  }

  lemma StartFresh(cfg: Config, s: State, r: Request)
    ensures Fresh(cfg, s, Time(r), Start(cfg, r))
  {
  }

  lemma ClockAdvances(cfg: Config, s: State, from: int, to: int)
    requires SeqInv(cfg, s, from) && from <= to
    ensures SeqInv(cfg, s, to)
  {
    LiveShrinksWithTime(s, from, to);
  }

  lemma LiveShrinksWithTime(s: State, from: int, to: int)
    requires LiveUnique(s, from) && from <= to
    ensures LiveUnique(s, to)
  {
    forall a, b | a in s.offers && b in s.offers && a != b && LiveAt(s.offers[a], to) && LiveAt(s.offers[b], to)
      ensures s.offers[a].name != s.offers[b].name && s.offers[a].proofAddress != s.offers[b].proofAddress
    {
      assert LiveAt(s.offers[a], from) && LiveAt(s.offers[b], from);
    }
  }

  lemma HandleKeeps(cfg: Config, s: State, from: int, r: Request)
    requires SeqInv(cfg, s, from) && from <= Time(r)
    ensures var (t, answer) := Handle(cfg, s, r);
            SeqInv(cfg, t, Time(r)) && Advances(s, t) && !answer.TxFailed?
  {
    ClockAdvances(cfg, s, from, Time(r));
    StartInv(cfg, s, r);
    StartFresh(cfg, s, r);
    SoloKeeps(cfg, s, Time(r), Start(cfg, r));
    SoloAdvances(cfg, s, Time(r), Start(cfg, r));
  }

  lemma {:induction false} ServeKeeps(cfg: Config, s: State, from: int, rs: seq<Request>)
    requires SeqInv(cfg, s, from) && Chronological(rs, from)
    ensures var t := Serve(cfg, s, rs);
            SeqInv(cfg, t, Clock(rs, from)) && Advances(s, t)
  {
    if rs != [] {
      var before, r := rs[..|rs| - 1], rs[|rs| - 1];
      ServeKeeps(cfg, s, from, before);
      HandleKeeps(cfg, Serve(cfg, s, before), Clock(before, from), r);
      AdvancesTrans(s, Serve(cfg, s, before), Serve(cfg, s, rs));
    }
  }

  lemma EmptyInv(cfg: Config, now: int)
    ensures SeqInv(cfg, EMPTY, now)
  {
    InitialInv(cfg);
  }

  /** The state after a chronological run from the empty authority. */
  lemma ServedInv(cfg: Config, rs: seq<Request>, from: int)
    requires Chronological(rs, from)
    ensures SeqInv(cfg, Serve(cfg, EMPTY, rs), Clock(rs, from))
  {
    EmptyInv(cfg, from);
    ServeKeeps(cfg, EMPTY, from, rs);
  }

  // ---------------------------------------------------------------------------
  // What run-to-completion guarantees

  /**
   Every consumed offer was claimed in time: before it expired, with no death recorded, or
   after a recorded death that its payment preceded on the chain, and within the grace window.
   */
  lemma ConsumedInTime(cfg: Config, rs: seq<Request>, from: int, id: OfferId)
    requires Chronological(rs, from)
    requires id in Serve(cfg, EMPTY, rs).offers && Serve(cfg, EMPTY, rs).offers[id].status == Consumed
    ensures var s := Serve(cfg, EMPTY, rs); id in s.transfers && ClaimedInTime(cfg, s.offers[id], s.transfers[id])
  {
    ServedInv(cfg, rs, from);
  }

  /** At every moment a name, and a proof address, has at most one live unexpired offer. */
  lemma OneLiveOffer(cfg: Config, rs: seq<Request>, from: int, now: int, a: OfferId, b: OfferId)
    requires Chronological(rs, from) && Clock(rs, from) <= now
    requires var s := Serve(cfg, EMPTY, rs);
             && a in s.offers && s.offers[a].status == Live && now <= s.offers[a].expiration
             && b in s.offers && s.offers[b].status == Live && now <= s.offers[b].expiration
    requires var s := Serve(cfg, EMPTY, rs);
             s.offers[a].name == s.offers[b].name || s.offers[a].proofAddress == s.offers[b].proofAddress
    ensures a == b
  {
    ServedInv(cfg, rs, from);
    LiveShrinksWithTime(Serve(cfg, EMPTY, rs), Clock(rs, from), now);
  }

  /** A transfer row exists for an offer exactly when the offer is consumed. */
  lemma TransferExactlyWhenConsumed(cfg: Config, rs: seq<Request>, from: int, id: OfferId)
    requires Chronological(rs, from) && id in Serve(cfg, EMPTY, rs).offers
    ensures id in Serve(cfg, EMPTY, rs).transfers <==> Serve(cfg, EMPTY, rs).offers[id].status == Consumed
  {
    ServedInv(cfg, rs, from);
  }
}
