/**
 Any number of requests in flight, their steps in any order: what holds in every state
 that such a run can reach.
 */
module Interleaving {
  import opened Wrappers
  import opened Text
  import opened Proof
  import opened Store
  import opened Protocol
  import opened Payment
  import Hex

  datatype Sys = Sys(state: State, flights: map<nat, Proc>)

  /** A request arrives, or one in flight takes its next step. */
  datatype Event = Arrive(id: nat, request: Request) | Tick(id: nat)

  const INITIAL: Sys := Sys(EMPTY, map[])

  function Apply(cfg: Config, sys: Sys, e: Event): Sys {
    match e
    case Arrive(id, request) =>
      if id in sys.flights then sys else sys.(flights := sys.flights[id := Start(cfg, request)])
    case Tick(id) =>
      if id !in sys.flights then sys
      else
        var (state, p) := Step(cfg, sys.state, sys.flights[id]);
        Sys(state, sys.flights[id := p])
  }

  function Run(cfg: Config, sys: Sys, es: seq<Event>): Sys {
    if es == [] then sys else Apply(cfg, Run(cfg, sys, es[..|es| - 1]), es[|es| - 1])
  }

  // ---------------------------------------------------------------------------
  // The invariant of the tables

  /** No key holds two active names. */
  ghost predicate OneNamePerKey(s: State) {
    forall n, m | Active(s, n) && Active(s, m) && s.names[n].pubkey == s.names[m].pubkey :: n == m
  }

  ghost predicate RowsKeyed(s: State) {
    && (forall id | id in s.offers :: s.offers[id].offerId == id)
    && (forall id | id in s.transfers :: s.transfers[id].offerId == id)
  }

  /** No kernel excess pays for two transfers, and each is stored in canonical spelling. */
  ghost predicate ExcessSingleUse(s: State) {
    && (forall a, b | a in s.transfers && b in s.transfers && s.transfers[a].excess == s.transfers[b].excess :: a == b)
    && (forall id | id in s.transfers :: Canonical(s.transfers[id].excess))
  }

  /** Same name, parties and price. */
  ghost predicate SameDeal(t: TransferRow, o: OfferRow) {
    t.name == o.name && t.seller == o.seller && t.buyer == o.buyer && t.price == o.price
  }

  ghost predicate TransfersAgree(s: State) {
    forall id | id in s.transfers :: id in s.offers && SameDeal(s.transfers[id], s.offers[id])
  }

  ghost predicate ConsumedRecorded(s: State) {
    forall id | id in s.offers && s.offers[id].status == Consumed :: id in s.transfers
  }

  /** A live offer has no death record; an expired or revoked one has a dated one. */
  ghost predicate DeathsRecorded(s: State) {
    && (forall id | id in s.offers && s.offers[id].status == Live ::
          s.offers[id].endHeight.None? && s.offers[id].stateChangedAt.None?)
    && (forall id | id in s.offers && Dead(s.offers[id]) :: s.offers[id].stateChangedAt.Some?)
  }

  ghost predicate StateInv(s: State) {
    && OneNamePerKey(s)
    && RowsKeyed(s)
    && ExcessSingleUse(s)
    && TransfersAgree(s)
    && ConsumedRecorded(s)
    && DeathsRecorded(s)
  }

  // ---------------------------------------------------------------------------
  // What a request in flight may rely on

  ghost predicate SameTerms(o: OfferRow, p: OfferRow) {
    && o.offerId == p.offerId && o.name == p.name && o.seller == p.seller && o.buyer == p.buyer
    && o.price == p.price && o.proofAddress == p.proofAddress && o.expiration == p.expiration
    && o.createdAt == p.createdAt
  }

  /** Once dead or consumed, an offer keeps its death record and never comes back. */
  ghost predicate Later(o: OfferRow, p: OfferRow) {
    && SameTerms(o, p)
    && (o.status != Live ==> p.status != Live && p.endHeight == o.endHeight && p.stateChangedAt == o.stateChangedAt)
  }

  /** `o` was read from the table some time ago. */
  ghost predicate Seen(s: State, o: OfferRow) {
    o.offerId in s.offers && Later(o, s.offers[o.offerId])
  }

  ghost predicate ClaimInv(s: State, q: ClaimRequest, o: OfferRow) {
    Seen(s, o) && q.offerId == o.offerId && IsLower(q.proof.excess)
  }

  /** The claim has shown its payment. */
  ghost predicate PaidInv(cfg: Config, s: State, q: ClaimRequest, o: OfferRow) {
    && ClaimInv(s, q, o)
    && q.auth == o.buyer && o.status != Consumed
    && WithinGrace(cfg, q, o) && Pays(cfg, q, o)
  }

  ghost predicate FreshRow(row: OfferRow) {
    row.status == Live && row.endHeight.None? && row.stateChangedAt.None?
  }

  ghost predicate ProcInv(cfg: Config, s: State, p: Proc) {
    match p
    case LodgeOwner(row) => FreshRow(row)
    case LodgeName(row) => FreshRow(row)
    case LodgeAddress(row) => FreshRow(row)
    case LodgeInsert(row) => FreshRow(row)
    case ReadSettle(o, _, _) => Seen(s, o)
    case ReadAgain(o) => Seen(s, o)
    case RevokeMark(o, _, _) => Seen(s, o)
    case RevokeForce(o) => Seen(s, o) && o.status == Expired && o.stateChangedAt.Some?
    case ClaimGet(q) => IsLower(q.proof.excess)
    case ClaimSettle(q, o) => ClaimInv(s, q, o)
    case ClaimAgain(q, o) => ClaimInv(s, q, o)
    case ClaimReplay(q, o) => ClaimInv(s, q, o)
    case ClaimOwner(q, o) =>
      ClaimInv(s, q, o) && q.auth == o.buyer && o.status != Consumed && WithinGrace(cfg, q, o)
    case ClaimExcess(q, o) => PaidInv(cfg, s, q, o)
    case ClaimBuyer(q, o) => PaidInv(cfg, s, q, o)
    case ClaimCommit(q, o) => PaidInv(cfg, s, q, o)
    case _ => true
  }

  ghost predicate Inv(cfg: Config, sys: Sys) {
    StateInv(sys.state) && forall id | id in sys.flights :: ProcInv(cfg, sys.state, sys.flights[id])
  }

  /** What no step takes back. */
  ghost predicate Evolves(s: State, t: State) {
    && (forall id | id in s.offers :: id in t.offers && Later(s.offers[id], t.offers[id]))
    && (forall id | id in s.transfers :: id in t.transfers && t.transfers[id] == s.transfers[id])
    && s.armed <= t.armed
  }

  ghost predicate Upholds(s: State, t: State) {
    StateInv(t) && Evolves(s, t)
  }

  lemma EvolvesTrans(s: State, t: State, u: State)
    requires Evolves(s, t) && Evolves(t, u)
    ensures Evolves(s, u)
  {
  }

  // ---------------------------------------------------------------------------
  // One statement at a time

  /** The partial unique index refuses exactly the rows that would give a key two active names. */
  lemma IndexIff(s: State, name: Name, key: Pubkey, createdAt: int)
    requires OneNamePerKey(s)
    ensures IndexBlocks(s, name, key) <==>
            !OneNamePerKey(s.(names := s.names[name := NameRow(key, createdAt, None)]))
  {
    var t := s.(names := s.names[name := NameRow(key, createdAt, None)]);
    assert Owns(t, name, key);
    assert forall n | n != name :: Owns(t, n, key) <==> Owns(s, n, key);
    if IndexBlocks(s, name, key) {
      var n :| n in s.names && n != name && Owns(s, n, key);
      assert Active(t, n) && Active(t, name);
    }
  }

  /** Of two attempts to mark an offer dead the first stands. */
  lemma FirstDeathStands(s: State, id: OfferId, first: Status, h: Option<int>, at: int, second: Status, g: Option<int>, later: int)
    requires first != Live
    ensures MarkOfferDead(MarkOfferDead(s, id, first, h, at), id, second, g, later) == MarkOfferDead(s, id, first, h, at)
  {
  }

  /** Giving an unblocked name a new holder keeps names and keys one to one. */
  lemma HolderKeeps(s: State, name: Name, row: NameRow)
    requires StateInv(s) && !IndexBlocks(s, name, row.pubkey)
    ensures var t := s.(names := s.names[name := row]); Upholds(s, t)
  {
    assert forall n | n != name && Active(s, n) :: !Owns(s, n, row.pubkey);
  }

  /** Changing an offer row to a later one keeps the invariant. */
  lemma OfferKeeps(s: State, id: OfferId, row: OfferRow)
    requires StateInv(s) && id in s.offers && Later(s.offers[id], row)
    requires row.status == Consumed ==> id in s.transfers
    requires row.status == Live ==> row.endHeight.None? && row.stateChangedAt.None?
    requires Dead(row) ==> row.stateChangedAt.Some?
    ensures var t := s.(offers := s.offers[id := row]); Upholds(s, t)
  {
    var t := s.(offers := s.offers[id := row]);
    SameNames(s, t);
    SameTransfers(s, t);
    OfferRowsKeep(s, id, row);
    OfferStatusKeeps(s, id, row);
    OfferEvolves(s, id, row);
  }

  lemma OfferEvolves(s: State, id: OfferId, row: OfferRow)
    requires id in s.offers ==> Later(s.offers[id], row)
    ensures Evolves(s, s.(offers := s.offers[id := row]))
  {
  }

  lemma OfferStatusKeeps(s: State, id: OfferId, row: OfferRow)
    requires ConsumedRecorded(s) && DeathsRecorded(s)
    requires row.status == Consumed ==> id in s.transfers
    requires row.status == Live ==> row.endHeight.None? && row.stateChangedAt.None?
    requires Dead(row) ==> row.stateChangedAt.Some?
    ensures var t := s.(offers := s.offers[id := row]); ConsumedRecorded(t) && DeathsRecorded(t)
  {
  }

  lemma OfferRowsKeep(s: State, id: OfferId, row: OfferRow)
    requires RowsKeyed(s) && TransfersAgree(s) && id in s.offers && SameTerms(s.offers[id], row)
    ensures var t := s.(offers := s.offers[id := row]); RowsKeyed(t) && TransfersAgree(t)
  {
  }

  lemma SameNames(s: State, t: State)
    requires OneNamePerKey(s) && t.names == s.names
    ensures OneNamePerKey(t)
  {
    assert forall n :: Active(t, n) == Active(s, n);
  }

  lemma SameTransfers(s: State, t: State)
    requires ExcessSingleUse(s) && t.transfers == s.transfers
    ensures ExcessSingleUse(t)
  {
  }

  /** Recording a transfer of an offer that has none, paid with an unused excess. */
  lemma TransferKeeps(s: State, id: OfferId, row: TransferRow)
    requires StateInv(s) && id in s.offers && id !in s.transfers
    requires row.offerId == id && SameDeal(row, s.offers[id])
    requires !ExcessUsed(s, row.excess) && Canonical(row.excess)
    ensures var t := s.(transfers := s.transfers[id := row]); Upholds(s, t)
  {
    var t := s.(transfers := s.transfers[id := row]);
    SameNames(s, t);
    TransferSingleUse(s, id, row);
    TransferRecorded(s, id, row);
  }

  lemma TransferRecorded(s: State, id: OfferId, row: TransferRow)
    requires RowsKeyed(s) && TransfersAgree(s) && ConsumedRecorded(s) && id in s.offers
    requires row.offerId == id && SameDeal(row, s.offers[id])
    ensures var t := s.(transfers := s.transfers[id := row]); RowsKeyed(t) && TransfersAgree(t) && ConsumedRecorded(t)
  {
  }

  lemma TransferSingleUse(s: State, id: OfferId, row: TransferRow)
    requires ExcessSingleUse(s) && id !in s.transfers && !ExcessUsed(s, row.excess) && Canonical(row.excess)
    ensures ExcessSingleUse(s.(transfers := s.transfers[id := row]))
  {
    assert forall a | a in s.transfers :: s.transfers[a].excess != row.excess;
  }

  lemma UpsertKeeps(s: State, name: Name, key: Pubkey, now: int)
    requires StateInv(s)
    ensures var t := UpsertName(s, name, key, now).0; Upholds(s, t)
  {
    if !Active(s, name) && !IndexBlocks(s, name, key) {
      HolderKeeps(s, name, NameRow(key, now, None));
    }
  }

  lemma ReleaseKeeps(s: State, name: Name, now: int)
    requires StateInv(s)
    ensures var t := ReleaseName(s, name, now); Upholds(s, t)
  {
    SameTransfers(s, ReleaseName(s, name, now));
    ReleaseKeepsNames(s, name, now);
  }

  lemma ReleaseKeepsNames(s: State, name: Name, now: int)
    requires OneNamePerKey(s)
    ensures OneNamePerKey(ReleaseName(s, name, now))
  {
    var t := ReleaseName(s, name, now);
    assert forall n | Active(t, n) :: Active(s, n) && t.names[n] == s.names[n];
  }

  lemma InsertKeeps(s: State, row: OfferRow)
    requires StateInv(s) && FreshRow(row)
    ensures var t := InsertOffer(s, row).0; Upholds(s, t)
  {
    SameNames(s, InsertOffer(s, row).0);
    SameTransfers(s, InsertOffer(s, row).0);
    if row.offerId !in s.offers {
      OfferStatusKeeps(s, row.offerId, row);
      OfferEvolves(s, row.offerId, row);
    }
  }

  lemma MarkKeeps(s: State, id: OfferId, status: Status, endHeight: Option<int>, at: int)
    requires StateInv(s) && (status == Expired || status == Revoked)
    ensures var t := MarkOfferDead(s, id, status, endHeight, at); Upholds(s, t)
  {
    if id in s.offers && s.offers[id].status == Live {
      OfferKeeps(s, id, s.offers[id].(status := status, endHeight := endHeight, stateChangedAt := Some(at)));
    }
  }

  lemma ForceKeeps(s: State, id: OfferId)
    requires StateInv(s) && id in s.offers && s.offers[id].stateChangedAt.Some?
    ensures Upholds(s, ForceRevoke(s, id))
  {
    OfferKeeps(s, id, s.offers[id].(status := Revoked));
  }

  lemma TxnKeeps(s: State, o: OfferRow, excess: string, kernelHeight: Option<int>, now: int)
    requires StateInv(s) && Seen(s, o) && Canonical(excess)
    ensures var t := ClaimTxn(s, o, excess, kernelHeight, now).0; Upholds(s, t)
  {
    if ClaimTxn(s, o, excess, kernelHeight, now).1 == Committed {
      CommittedTables(s, o, excess, kernelHeight, now);
      var holder := s.names[o.name].(pubkey := o.buyer, createdAt := now);
      HandedOver(s, o, holder, TransferOf(o, excess, kernelHeight, now));
    } else {
      assert ClaimTxn(s, o, excess, kernelHeight, now).0 == s;
      SameUpholds(s);
    }
  }

  lemma SameUpholds(s: State)
    requires StateInv(s)
    ensures Upholds(s, s)
  {
  }

  lemma CommittedTables(s: State, o: OfferRow, excess: string, kernelHeight: Option<int>, now: int)
    requires ClaimTxn(s, o, excess, kernelHeight, now).1 == Committed && o.offerId in s.offers
    ensures o.name in s.names && !IndexBlocks(s, o.name, o.buyer)
    ensures o.offerId !in s.transfers && !ExcessUsed(s, excess)
    ensures ClaimTxn(s, o, excess, kernelHeight, now).0 ==
            s.(names := s.names[o.name := s.names[o.name].(pubkey := o.buyer, createdAt := now)],
               transfers := s.transfers[o.offerId := TransferOf(o, excess, kernelHeight, now)],
               offers := s.offers[o.offerId := s.offers[o.offerId].(status := Consumed)])
  {
  }

  /** The three updates of a committed claim. */
  lemma HandedOver(s: State, o: OfferRow, holder: NameRow, transfer: TransferRow)
    requires StateInv(s) && Seen(s, o) && o.offerId !in s.transfers && !IndexBlocks(s, o.name, holder.pubkey)
    requires transfer.offerId == o.offerId && SameDeal(transfer, o)
    requires !ExcessUsed(s, transfer.excess) && Canonical(transfer.excess)
    ensures Upholds(s, s.(names := s.names[o.name := holder],
                          transfers := s.transfers[o.offerId := transfer],
                          offers := s.offers[o.offerId := s.offers[o.offerId].(status := Consumed)]))
  {
    var s1 := s.(names := s.names[o.name := holder]);
    HolderKeeps(s, o.name, holder);
    TxnRecords(s1, o, transfer);
    EvolvesTrans(s, s1, s1.(transfers := s1.transfers[o.offerId := transfer],
                            offers := s1.offers[o.offerId := s1.offers[o.offerId].(status := Consumed)]));
  }

  /** The second and third update of the transaction. */
  lemma TxnRecords(s: State, o: OfferRow, transfer: TransferRow)
    requires StateInv(s) && Seen(s, o) && o.offerId !in s.transfers
    requires transfer.offerId == o.offerId && SameDeal(transfer, o)
    requires !ExcessUsed(s, transfer.excess) && Canonical(transfer.excess)
    ensures var t := s.(transfers := s.transfers[o.offerId := transfer],
                        offers := s.offers[o.offerId := s.offers[o.offerId].(status := Consumed)]);
            Upholds(s, t)
  {
    var s2 := s.(transfers := s.transfers[o.offerId := transfer]);
    TransferKeeps(s, o.offerId, transfer);
    OfferKeeps(s2, o.offerId, s2.offers[o.offerId].(status := Consumed));
    EvolvesTrans(s, s2, s2.(offers := s2.offers[o.offerId := s2.offers[o.offerId].(status := Consumed)]));
  }

  lemma ArmKeeps(s: State, key: Pubkey, now: int)
    requires StateInv(s)
    ensures Upholds(s, Arm(s, key, now))
  {
    SameNames(s, Arm(s, key, now));
    SameTransfers(s, Arm(s, key, now));
  }

  // ---------------------------------------------------------------------------
  // One step of one request

  predicate ChangesOffer(p: Proc) {
    p.ReadSettle? || p.RevokeMark? || p.RevokeForce? || p.ClaimSettle? || p.ClaimCommit?
  }

  lemma ChangeKeeps(cfg: Config, s: State, p: Proc)
    requires StateInv(s) && ProcInv(cfg, s, p) && ChangesOffer(p)
    ensures Upholds(s, Step(cfg, s, p).0)
  {
    match p
    case ReadSettle(o, now, tip) => MarkKeeps(s, o.offerId, Expired, Height(tip), now);
    case RevokeMark(o, now, tip) => MarkKeeps(s, o.offerId, Revoked, Height(tip), now);
    case RevokeForce(o) => ForceKeeps(s, o.offerId);
    case ClaimSettle(q, o) => MarkKeeps(s, o.offerId, Expired, Height(q.tip), q.now);
    case ClaimCommit(q, o) => TxnKeeps(s, o, q.proof.excess, KernelHeight(q), q.now);
  }

  lemma StepKeeps(cfg: Config, s: State, p: Proc)
    requires StateInv(s) && ProcInv(cfg, s, p)
    ensures Upholds(s, Step(cfg, s, p).0)
  {
    if ChangesOffer(p) {
      ChangeKeeps(cfg, s, p);
    } else if p.RegUpsert? {
      UpsertKeeps(s, p.name, p.auth, p.now);
    } else if p.UnregRelease? {
      ReleaseKeeps(s, p.name, p.now);
    } else if p.LodgeInsert? {
      InsertKeeps(s, p.row);
    } else if p.UnregArm? {
      ArmKeeps(s, p.auth, p.now);
    } else if p.ClaimArm? {
      ArmKeeps(s, p.o.seller, p.q.now);
    } else {
      ReadsOnly(cfg, s, p);
    }
  }

  lemma ReadsOnly(cfg: Config, s: State, p: Proc)
    requires !ChangesOffer(p) && !p.RegUpsert? && !p.UnregRelease? && !p.LodgeInsert? && !p.UnregArm? && !p.ClaimArm?
    ensures Step(cfg, s, p).0 == s
  {
  }

  /** The stepping request keeps its own reading of the tables. */
  lemma StepEvolves(cfg: Config, s: State, p: Proc)
    requires StateInv(s) && ProcInv(cfg, s, p)
    ensures Evolves(s, Step(cfg, s, p).0)
  {
    StepKeeps(cfg, s, p);
  }

  lemma StepKeepsProc(cfg: Config, s: State, p: Proc)
    requires StateInv(s) && ProcInv(cfg, s, p)
    ensures var (t, p') := Step(cfg, s, p); ProcInv(cfg, t, p')
  {
    if ClaimReads(p) {
      ClaimReadInv(cfg, s, p);
    } else {
      StepEvolves(cfg, s, p);
      ReadingsStayTrue(cfg, s, Step(cfg, s, p).0, p);
    }
  }

  predicate ClaimReads(p: Proc) {
    p.ClaimGet? || p.ClaimAgain? || p.ClaimReplay? || p.ClaimOwner? || p.ClaimExcess? || p.ClaimBuyer?
  }

  lemma ClaimReadInv(cfg: Config, s: State, p: Proc)
    requires StateInv(s) && ProcInv(cfg, s, p) && ClaimReads(p)
    ensures ProcInv(cfg, Step(cfg, s, p).0, Step(cfg, s, p).1)
  {
    match p
    case ClaimGet(q) =>
      if q.offerId in s.offers {
        AfterSettleInv(cfg, s, q, s.offers[q.offerId]);
      }
    case ClaimAgain(q, o) => AfterSettleInv(cfg, s, q, s.offers[o.offerId]);
    case ClaimOwner(q, o) => AfterOwnerInv(cfg, s, q, o);
    case _ =>
  }

  lemma AfterSettleInv(cfg: Config, s: State, q: ClaimRequest, o: OfferRow)
    requires ClaimInv(s, q, o)
    ensures ProcInv(cfg, s, AfterSettle(cfg, q, o))
  {
  }

  lemma AfterOwnerInv(cfg: Config, s: State, q: ClaimRequest, o: OfferRow)
    requires ProcInv(cfg, s, ClaimOwner(q, o))
    ensures ProcInv(cfg, s, AfterOwner(cfg, q, o))
  {
  }

  /** Every other request's reading stays true while the tables evolve. */
  lemma ReadingsStayTrue(cfg: Config, s: State, t: State, p: Proc)
    requires Evolves(s, t) && ProcInv(cfg, s, p)
    ensures ProcInv(cfg, t, p)
  {
  }

  lemma StartInv(cfg: Config, s: State, r: Request)
    ensures ProcInv(cfg, s, Start(cfg, r))
  {
    if r.Claim? && ParsePaymentProof(r.proof).Some? {
      LowerIsCanonical(FieldText(r.proof.fields, "excess").value);
    }
  }

  lemma ApplyKeeps(cfg: Config, sys: Sys, e: Event)
    requires Inv(cfg, sys)
    ensures Inv(cfg, Apply(cfg, sys, e)) && Evolves(sys.state, Apply(cfg, sys, e).state)
  {
    match e
    case Arrive(id, request) =>
      StartInv(cfg, sys.state, request);
    case Tick(id) =>
      if id in sys.flights {
        var s, p := sys.state, sys.flights[id];
        StepKeeps(cfg, s, p);
        StepKeepsProc(cfg, s, p);
        var t := Step(cfg, s, p).0;
        forall k | k in sys.flights ensures ProcInv(cfg, t, sys.flights[k]) {
          ReadingsStayTrue(cfg, s, t, sys.flights[k]);
        }
      }
  }

  /** Every interleaving keeps the invariant and takes nothing back. */
  lemma {:induction false} RunKeeps(cfg: Config, sys: Sys, es: seq<Event>)
    requires Inv(cfg, sys)
    ensures Inv(cfg, Run(cfg, sys, es)) && Evolves(sys.state, Run(cfg, sys, es).state)
  {
    if es != [] {
      var before := es[..|es| - 1];
      RunKeeps(cfg, sys, before);
      ApplyKeeps(cfg, Run(cfg, sys, before), es[|es| - 1]);
      EvolvesTrans(sys.state, Run(cfg, sys, before).state, Run(cfg, sys, es).state);
    }
  }

  lemma InitialInv(cfg: Config)
    ensures Inv(cfg, INITIAL)
  {
  }

  /** The tables after a run from the empty authority. */
  function Reached(cfg: Config, es: seq<Event>): State {
    Run(cfg, INITIAL, es).state
  }

  lemma ReachedInv(cfg: Config, es: seq<Event>)
    ensures StateInv(Reached(cfg, es)) && Inv(cfg, Run(cfg, INITIAL, es))
  {
    InitialInv(cfg);
    RunKeeps(cfg, INITIAL, es);
  }

  lemma {:induction false} RunConcat(cfg: Config, sys: Sys, es: seq<Event>, fs: seq<Event>)
    ensures Run(cfg, sys, es + fs) == Run(cfg, Run(cfg, sys, es), fs)
  {
    if fs == [] {
      assert es + fs == es;
    } else {
      RunConcat(cfg, sys, es, fs[..|fs| - 1]);
      assert (es + fs)[..|es + fs| - 1] == es + fs[..|fs| - 1];
    }
  }

  lemma LaterEvolves(cfg: Config, es: seq<Event>, fs: seq<Event>)
    ensures Evolves(Reached(cfg, es), Reached(cfg, es + fs))
  {
    ReachedInv(cfg, es);
    RunConcat(cfg, INITIAL, es, fs);
    RunKeeps(cfg, Run(cfg, INITIAL, es), fs);
  }

  // ---------------------------------------------------------------------------
  // What every interleaving guarantees

  /** Active names and the keys that hold them correspond one to one. */
  lemma NamesAndKeysCorrespond(cfg: Config, es: seq<Event>, n: Name, m: Name)
    requires n in Reached(cfg, es).names && Reached(cfg, es).names[n].releasedAt == None
    requires m in Reached(cfg, es).names && Reached(cfg, es).names[m].releasedAt == None
    ensures n == m <==> Reached(cfg, es).names[n].pubkey == Reached(cfg, es).names[m].pubkey
  {
    ReachedInv(cfg, es);
  }

  /** A consumed offer has its transfer, agreeing on name, parties and price. */
  lemma ConsumedHasTransfer(cfg: Config, es: seq<Event>, id: OfferId)
    requires id in Reached(cfg, es).offers && Reached(cfg, es).offers[id].status == Consumed
    ensures var s := Reached(cfg, es);
            && id in s.transfers && SameDeal(s.transfers[id], s.offers[id])
            && forall k | k in s.transfers && s.transfers[k].offerId == id :: k == id
  {
    ReachedInv(cfg, es);
  }

  /** Transfers only grow, and a row once written never changes. */
  lemma TransfersOnlyGrow(cfg: Config, es: seq<Event>, fs: seq<Event>, id: OfferId)
    requires id in Reached(cfg, es).transfers
    ensures id in Reached(cfg, es + fs).transfers
    ensures Reached(cfg, es + fs).transfers[id] == Reached(cfg, es).transfers[id]
  {
    LaterEvolves(cfg, es, fs);
  }

  /** Different transfers were paid with different 33-byte excesses, however they were spelled. */
  lemma ExcessPaysOnce(cfg: Config, es: seq<Event>, a: OfferId, b: OfferId)
    requires a in Reached(cfg, es).transfers && b in Reached(cfg, es).transfers && a != b
    ensures var x, y := Hex.Decode(Reached(cfg, es).transfers[a].excess), Hex.Decode(Reached(cfg, es).transfers[b].excess);
            x.Some? && y.Some? && |x.value| == |y.value| == 33 && x != y
  {
    ReachedInv(cfg, es);
    CanonicalIsUnique(Reached(cfg, es).transfers[a].excess, Reached(cfg, es).transfers[b].excess);
  }

  /** The death record of an offer, as it is stored. */
  function DeathRecord(s: State, id: OfferId): (Option<int>, Option<int>) {
    if id in s.offers then (s.offers[id].endHeight, s.offers[id].stateChangedAt) else (None, None)
  }

  /**
   Through any mix of racing expiry, revocation and claim steps no offer returns to `live`,
   and its death record is written at most once: of three moments, two agree.
   */
  lemma DeathWrittenOnce(cfg: Config, es: seq<Event>, fs: seq<Event>, gs: seq<Event>, id: OfferId)
    ensures id in Reached(cfg, es).offers && Reached(cfg, es).offers[id].status != Live ==>
              id in Reached(cfg, es + fs).offers && Reached(cfg, es + fs).offers[id].status != Live
    ensures var (d0, d1, d2) := (DeathRecord(Reached(cfg, es), id), DeathRecord(Reached(cfg, es + fs), id),
                                 DeathRecord(Reached(cfg, es + fs + gs), id));
            d0 != d1 ==> d1 == d2
    ensures DeathRecord(Reached(cfg, es), id) != (None, None) ==>
              DeathRecord(Reached(cfg, es + fs), id) == DeathRecord(Reached(cfg, es), id)
  {
    LaterEvolves(cfg, es, fs);
    LaterEvolves(cfg, es + fs, gs);
    ReachedInv(cfg, es);
    ReachedInv(cfg, es + fs);
  }

  // ---------------------------------------------------------------------------
  // Which step changes what

  /** The request that takes the step `e`, as it stood before. */
  function Mover(sys: Sys, e: Event): Option<Proc> {
    if e.Tick? && e.id in sys.flights then Some(sys.flights[e.id]) else None
  }

  ghost predicate IsUpsert(p: Option<Proc>, n: Name, k: Pubkey) {
    p.Some? && p.value.RegUpsert? && p.value.name == n && p.value.auth == k
  }

  ghost predicate IsCommit(p: Option<Proc>, n: Name, k: Pubkey) {
    p.Some? && p.value.ClaimCommit? && p.value.o.name == n && p.value.o.buyer == k
  }

  /** Which steps write to which table. */
  lemma Writers(cfg: Config, s: State, p: Proc)
    ensures var t := Step(cfg, s, p).0;
            && (!(p.RegUpsert? || p.UnregRelease? || p.ClaimCommit?) ==> t.names == s.names)
            && (!p.ClaimCommit? ==> t.transfers == s.transfers)
            && (!(p.LodgeInsert? || p.ReadSettle? || p.RevokeMark? || p.RevokeForce? || p.ClaimSettle? || p.ClaimCommit?)
                ==> t.offers == s.offers)
  {
  }

  /**
   A key becomes the active owner of a name in one of two steps only: the upsert of its own
   registration, on a name that nobody held; or the commit of its own claim, which has shown
   its payment, of a lodged offer naming it, whose seller owned the name at that moment.
   */
  lemma NameGained(cfg: Config, sys: Sys, e: Event, n: Name, k: Pubkey)
    requires Inv(cfg, sys) && !Owns(sys.state, n, k) && Owns(Apply(cfg, sys, e).state, n, k)
    ensures var p := Mover(sys, e);
            || (IsUpsert(p, n, k) && !Active(sys.state, n))
            || (&& IsCommit(p, n, k)
                && Owns(sys.state, n, p.value.o.seller)
                && Seen(sys.state, p.value.o)
                && p.value.q.auth == k && PaysFor(cfg, p.value.q.proof, p.value.q.kernel, p.value.o))
  {
    var p := Mover(sys, e).value;
    Writers(cfg, sys.state, p);
    assert ProcInv(cfg, sys.state, p);
    if p.ClaimCommit? {
      assert Step(cfg, sys.state, p).0 == ClaimTxn(sys.state, p.o, p.q.proof.excess, KernelHeight(p.q), p.q.now).0;
      PaysIff(cfg, p.q, p.o);
    }
  }

  lemma NameLost(cfg: Config, s: State, p: Proc, n: Name, k: Pubkey)
    requires Owns(s, n, k) && !Owns(Step(cfg, s, p).0, n, k)
    ensures || (p.UnregRelease? && p.name == n)
            || (p.ClaimCommit? && p.o.name == n && p.o.seller == k && p.o.offerId in Step(cfg, s, p).0.transfers)
  {
    Writers(cfg, s, p);
    if p.ClaimCommit? {
      assert Step(cfg, s, p).0 == ClaimTxn(s, p.o, p.q.proof.excess, KernelHeight(p.q), p.q.now).0;
    }
  }

  /** The row records the deal of the offer, the proof and the kernel that paid for it. */
  ghost predicate Records(t: TransferRow, q: ClaimRequest, o: OfferRow) {
    && t.offerId == o.offerId && t.name == o.name && t.seller == o.seller && t.buyer == o.buyer && t.price == o.price
    && t.excess == q.proof.excess && t.claimedAt == q.now
    && q.kernel.Some? && t.kernelHeight == Height(q.kernel.value.height)
  }

  /** A transfer row appears only by the commit of the buyer's own claim, with its payment shown. */
  lemma TransferAdded(cfg: Config, s: State, p: Proc, id: OfferId)
    requires ProcInv(cfg, s, p) && id !in s.transfers && id in Step(cfg, s, p).0.transfers
    ensures var t := Step(cfg, s, p).0.transfers[id];
            && p.ClaimCommit? && p.o.offerId == id && p.q.auth == p.o.buyer && Seen(s, p.o)
            && PaysFor(cfg, p.q.proof, p.q.kernel, p.o) && Honored(cfg, p.q.now, p.o)
            && Records(t, p.q, p.o)
  {
    Writers(cfg, s, p);
    PaysIff(cfg, p.q, p.o);
  }

  lemma ConsumedAfterStep(cfg: Config, s: State, p: Proc, id: OfferId)
    requires id in s.offers && s.offers[id].status == Consumed
    ensures var t := Step(cfg, s, p).0;
            && id in t.offers
            && (t.offers[id].status != Consumed <==> p.RevokeForce? && p.o.offerId == id)
  {
    Writers(cfg, s, p);
    match p
    case LodgeInsert(row) => assert Step(cfg, s, p).0 == InsertOffer(s, row).0;
    case ClaimCommit(q, o) =>
      assert Step(cfg, s, p).0 == ClaimTxn(s, o, q.proof.excess, KernelHeight(q), q.now).0;
    case _ =>
  }

  // ---------------------------------------------------------------------------
  // The same in every run

  lemma Reaching(cfg: Config, es: seq<Event>, e: Event)
    ensures var sys := Run(cfg, INITIAL, es);
            && Run(cfg, INITIAL, es + [e]) == Apply(cfg, sys, e) && Inv(cfg, sys)
            && (Reached(cfg, es + [e]) != Reached(cfg, es) ==> Mover(sys, e).Some?)
            && (Mover(sys, e).Some? ==> Reached(cfg, es + [e]) == Step(cfg, sys.state, Mover(sys, e).value).0)
  {
    assert (es + [e])[..|es|] == es;
    ReachedInv(cfg, es);
  }

  /** In every run, a key stops owning a name by a release of that name or by the commit of its sale. */
  lemma OwnershipLost(cfg: Config, es: seq<Event>, e: Event, n: Name, k: Pubkey)
    requires Owns(Reached(cfg, es), n, k) && !Owns(Reached(cfg, es + [e]), n, k)
    ensures var p := Mover(Run(cfg, INITIAL, es), e);
            && p.Some?
            && ((p.value.UnregRelease? && p.value.name == n)
                || (&& p.value.ClaimCommit? && p.value.o.name == n && p.value.o.seller == k
                    && p.value.o.offerId in Reached(cfg, es + [e]).transfers))
  {
    Reaching(cfg, es, e);
    NameLost(cfg, Reached(cfg, es), Mover(Run(cfg, INITIAL, es), e).value, n, k);
  }

  /**
   In every run, a transfer row comes from its buyer's claim, for an offer in the table, with
   a proof that pays it; it records the deal, the proof and the kernel.
   */
  lemma TransferIsPaid(cfg: Config, es: seq<Event>, e: Event, id: OfferId)
    requires id !in Reached(cfg, es).transfers && id in Reached(cfg, es + [e]).transfers
    ensures var p, t := Mover(Run(cfg, INITIAL, es), e), Reached(cfg, es + [e]).transfers[id];
            && p.Some? && p.value.ClaimCommit? && p.value.o.offerId == id
            && id in Reached(cfg, es).offers && SameTerms(p.value.o, Reached(cfg, es).offers[id])
            && p.value.q.auth == p.value.o.buyer && PaysFor(cfg, p.value.q.proof, p.value.q.kernel, p.value.o)
            && Honored(cfg, p.value.q.now, p.value.o)
            && Records(t, p.value.q, p.value.o)
  {
    Reaching(cfg, es, e);
    TransferAdded(cfg, Reached(cfg, es), Mover(Run(cfg, INITIAL, es), e).value, id);
  }

  /**
   Exactly one step can take `consumed` away from an offer: the unguarded update of a
   revocation that had read the offer as expired.
   */
  lemma ConsumedLostIff(cfg: Config, es: seq<Event>, e: Event, id: OfferId)
    requires id in Reached(cfg, es).offers && Reached(cfg, es).offers[id].status == Consumed
    ensures id in Reached(cfg, es + [e]).offers
    ensures Reached(cfg, es + [e]).offers[id].status != Consumed <==>
            var p := Mover(Run(cfg, INITIAL, es), e);
            p.Some? && p.value.RevokeForce? && p.value.o.offerId == id
  {
    Reaching(cfg, es, e);
    var p := Mover(Run(cfg, INITIAL, es), e);
    if p.Some? {
      ConsumedAfterStep(cfg, Reached(cfg, es), p.value, id);
    }
  }
}
