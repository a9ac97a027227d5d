/**
 The tables and the statements on them (name-authority/src/db.rs and the statements issued
 by the handlers). Each function is one statement under the database lock; a constraint of
 the schema that would be broken fails the statement and leaves the state alone.
 */
module Store {
  import opened Wrappers

  type Name = string
  type Pubkey = string
  type OfferId = string

  datatype NameRow = NameRow(pubkey: Pubkey, createdAt: int, releasedAt: Option<int>)

  datatype Status = Live | Expired | Revoked | Consumed

  datatype OfferRow = OfferRow(
    offerId: OfferId,
    name: Name,
    seller: Pubkey,
    buyer: Pubkey,
    price: int,
    proofAddress: string,
    expiration: int,
    status: Status,
    endHeight: Option<int>,
    stateChangedAt: Option<int>,
    createdAt: int)

  datatype TransferRow = TransferRow(
    offerId: OfferId,
    name: Name,
    seller: Pubkey,
    buyer: Pubkey,
    price: int,
    excess: string,
    kernelHeight: Option<int>,
    claimedAt: int)

  /** One recorded name-change operation, which starts the cooldown of its key. */
  datatype Arming = Arming(pubkey: Pubkey, at: int)

  datatype State = State(
    names: map<Name, NameRow>,
    offers: map<OfferId, OfferRow>,
    transfers: map<OfferId, TransferRow>,
    armed: seq<Arming>)

  const EMPTY: State := State(map[], map[], map[], [])

  datatype Violation = Violation

  /** How the claim transaction ends. */
  datatype TxResult = Committed | OwnerChanged | BuyerHasName | Reused

  // ---------------------------------------------------------------------------
  // Queries

  /** `name` is active and held by `key`. */
  predicate Owns(s: State, name: Name, key: Pubkey) {
    name in s.names && s.names[name].releasedAt.None? && s.names[name].pubkey == key
  }

  predicate Active(s: State, name: Name) {
    name in s.names && s.names[name].releasedAt.None?
  }

  /** `lookup`. */
  function Lookup(s: State, name: Name): Option<Pubkey> {
    if Active(s, name) then Some(s.names[name].pubkey) else None
  }

  /** `name_of(key)` finds a row. */
  predicate HasName(s: State, key: Pubkey) {
    exists n | n in s.names :: Owns(s, n, key)
  }

  /** `get_offer`. */
  function GetOffer(s: State, id: OfferId): Option<OfferRow> {
    if id in s.offers then Some(s.offers[id]) else None
  }

  predicate LiveAt(o: OfferRow, now: int) {
    o.status == Live && o.expiration >= now
  }

  /** `live_offer_for_name`. */
  predicate LiveForName(s: State, name: Name, now: int) {
    exists id | id in s.offers :: s.offers[id].name == name && LiveAt(s.offers[id], now)
  }

  /** `live_offer_binding`. */
  predicate LiveForAddress(s: State, address: string, now: int) {
    exists id | id in s.offers :: s.offers[id].proofAddress == address && LiveAt(s.offers[id], now)
  }

  /** `excess_used`. */
  predicate ExcessUsed(s: State, excess: string) {
    exists id | id in s.transfers :: s.transfers[id].excess == excess
  }

  /** `cooldown_active("namechange", key, window)` over the full log of operations. */
  predicate CoolingDown(s: State, key: Pubkey, now: int, window: int) {
    exists i | 0 <= i < |s.armed| :: s.armed[i].pubkey == key && now - s.armed[i].at < window
  }

  /** The partial unique index: making `key` hold `name` would give it a second active name. */
  predicate IndexBlocks(s: State, name: Name, key: Pubkey) {
    exists n | n in s.names :: n != name && Owns(s, n, key)
  }

  // ---------------------------------------------------------------------------
  // Statements

  /**
   The registering upsert: insert a new row, revive a released one, or touch nothing when
   the name is active. The conflict on the name is looked at first.
   */
  function UpsertName(s: State, name: Name, key: Pubkey, now: int): (State, Result<nat, Violation>) {
    if Active(s, name) then (s, Success(0))
    else if IndexBlocks(s, name, key) then (s, Failure(Violation))
    else (s.(names := s.names[name := NameRow(key, now, None)]), Success(1))
  }

  function ReleaseName(s: State, name: Name, now: int): State {
    if Active(s, name) then s.(names := s.names[name := s.names[name].(releasedAt := Some(now))]) else s
  }

  /** `insert_offer`. */
  function InsertOffer(s: State, row: OfferRow): (State, Result<nat, Violation>) {
    if row.offerId in s.offers then (s, Failure(Violation))
    else (s.(offers := s.offers[row.offerId := row]), Success(1))
  }

  /** `mark_offer_dead`: only a row that is still live changes. */
  function MarkOfferDead(s: State, id: OfferId, status: Status, endHeight: Option<int>, at: int): State {
    if id in s.offers && s.offers[id].status == Live then
      s.(offers := s.offers[id := s.offers[id].(status := status, endHeight := endHeight, stateChangedAt := Some(at))])
    else s
  }

  /** The revocation of an offer seen expired: the row changes whatever its status is now. */
  function ForceRevoke(s: State, id: OfferId): State {
    if id in s.offers then s.(offers := s.offers[id := s.offers[id].(status := Revoked)]) else s
  }

  /** The transfer row a claim writes from the offer row it read earlier. */
  function TransferOf(o: OfferRow, excess: string, kernelHeight: Option<int>, now: int): TransferRow {
    TransferRow(o.offerId, o.name, o.seller, o.buyer, o.price, excess, kernelHeight, now)
  }

  /** `run_claim_txn`: all three updates or none. */
  function ClaimTxn(s: State, o: OfferRow, excess: string, kernelHeight: Option<int>, now: int): (State, TxResult) {
    if !Owns(s, o.name, o.seller) then (s, OwnerChanged)
    else if IndexBlocks(s, o.name, o.buyer) then (s, BuyerHasName)
    else if o.offerId in s.transfers || ExcessUsed(s, excess) then (s, Reused)
    else
      (s.(names := s.names[o.name := s.names[o.name].(pubkey := o.buyer, createdAt := now)],
          transfers := s.transfers[o.offerId := TransferOf(o, excess, kernelHeight, now)],
          offers := if o.offerId in s.offers
                    then s.offers[o.offerId := s.offers[o.offerId].(status := Consumed)]
                    else s.offers),
       Committed)
  }

  /** `record_op("namechange", key)`. */
  function Arm(s: State, key: Pubkey, now: int): State {
    s.(armed := s.armed + [Arming(key, now)])
  }
}
