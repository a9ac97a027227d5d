/**
 Which offers pass the checks that need no table (name-authority/src/handlers/transfer.rs:
 146-195), exactly, and what the checks let through.
 */
module Offers {
  import opened Wrappers
  import opened Text
  import opened Proof
  import opened Store
  import opened Protocol
  import opened Tags
  import opened Amounts
  import Hex

  /** The expiration in the offer's tags, when there is a readable one. */
  function TaggedExpiration(e: OfferEvent): Option<int> {
    var tags := ReadOfferTags(e.tags);
    if tags.None? then None else ParseI64(Trim(tags.value.expiration))
  }

  function TaggedPrice(e: OfferEvent): Option<nat> {
    var tags := ReadOfferTags(e.tags);
    if tags.None? then None else ParseU64(Trim(tags.value.price))
  }

  /** Everything but the time: signature, kind, signer and the six tags. */
  predicate WellMade(cfg: Config, auth: Pubkey, e: OfferEvent) {
    var tags := ReadOfferTags(e.tags);
    && e.verified && e.isOffer && e.pubkey == auth && tags.Some?
    && ValidName(tags.value.name, cfg.nameMin, cfg.nameMax) && tags.value.domain == cfg.domain
    && Hex.ValidPubkey(Lower(tags.value.buyer)) && TaggedPrice(e).Some?
    && DecodeAddress(cfg.crypto, Normalize(tags.value.proofAddress)).Some? && TaggedExpiration(e).Some?
  }

  /** A well-made offer passes exactly when it expires after now and within the limit. */
  lemma ValidIff(cfg: Config, auth: Pubkey, e: OfferEvent, now: int)
    ensures ValidateOffer(cfg, auth, e, now).Success? <==>
            WellMade(cfg, auth, e) && now < TaggedExpiration(e).value <= now + cfg.maxOfferTtl
  {
  }

  /** The bound of the documentation, both ends included. */
  predicate WithinDocumented(cfg: Config, now: int, expiration: int) {
    now <= expiration <= now + cfg.maxOfferTtl
  }

  /** Code and documentation differ on a well-made offer exactly when it expires at once. */
  lemma DocumentedIff(cfg: Config, auth: Pubkey, e: OfferEvent, now: int)
    requires WellMade(cfg, auth, e)
    ensures (ValidateOffer(cfg, auth, e, now).Success? <==> WithinDocumented(cfg, now, TaggedExpiration(e).value))
            <==> !(TaggedExpiration(e) == Some(now) && cfg.maxOfferTtl >= 0)
  {
    ValidIff(cfg, auth, e, now);
  }

  // ---------------------------------------------------------------------------
  // The row of an accepted offer

  /** Letters, digits, and inside also the three marks. */
  ghost predicate WellNamed(name: string, min: nat, max: nat) {
    && name != "" && min <= |name| <= max
    && (forall i | 0 <= i < |name| ::
          'a' <= name[i] <= 'z' || '0' <= name[i] <= '9' || name[i] == '.' || name[i] == '_' || name[i] == '-')
    && name[0] != '.' && name[0] != '_' && name[0] != '-'
    && name[|name| - 1] != '.' && name[|name| - 1] != '_' && name[|name| - 1] != '-'
  }

  /** 64 lowercase hexadecimal digits. */
  ghost predicate IsHexKey(key: string) {
    |key| == 64 && forall i | 0 <= i < 64 :: '0' <= key[i] <= '9' || 'a' <= key[i] <= 'f'
  }

  /** A slatepack address, trimmed and lowercased, of a 32-byte key. */
  ghost predicate IsAddress(cfg: Config, address: string) {
    cfg.crypto.slatepackKey(address).Some? && |cfg.crypto.slatepackKey(address).value| == 32
  }

  ghost predicate PricedAt(e: OfferEvent, price: int) {
    exists x :: LastGiven(e.tags, "price", x) && ParseU64(Trim(x)).Some? && price == AsI64(ParseU64(Trim(x)).value)
  }

  ghost predicate NamesBuyer(e: OfferEvent, buyer: Pubkey) {
    exists x :: LastGiven(e.tags, "p", x) && buyer == Lower(x)
  }

  ghost predicate PaidAt(e: OfferEvent, address: string) {
    exists x :: LastGiven(e.tags, "proof_address", x) && address == Lower(Trim(x))
  }

  ghost predicate ExpiresAt(e: OfferEvent, expiration: int) {
    exists x :: LastGiven(e.tags, "expiration", x) && ParseI64(Trim(x)) == Some(expiration)
  }

  /** The event is a signed offer of the caller, and this is the row that its tags describe. */
  ghost predicate RowOf(cfg: Config, auth: Pubkey, e: OfferEvent, now: int, row: OfferRow) {
    && e.verified && e.isOffer && e.pubkey == auth
    && LastGiven(e.tags, "name", row.name) && WellNamed(row.name, cfg.nameMin, cfg.nameMax)
    && LastGiven(e.tags, "domain", cfg.domain)
    && NamesBuyer(e, row.buyer) && IsHexKey(row.buyer)
    && PricedAt(e, row.price)
    && PaidAt(e, row.proofAddress) && IsAddress(cfg, row.proofAddress)
    && ExpiresAt(e, row.expiration) && now < row.expiration <= now + cfg.maxOfferTtl
    && row.offerId == e.id && row.seller == auth && row.createdAt == now
    && row.status == Live && row.endHeight == None && row.stateChangedAt == None
  }

  lemma WellNamedIff(name: string, min: nat, max: nat)
    ensures ValidName(name, min, max) <==> WellNamed(name, min, max)
  {
  }

  lemma HexKeyIff(key: string)
    ensures Hex.ValidPubkey(key) <==> IsHexKey(key)
  {
  }

  lemma AddressIff(cfg: Config, given: string)
    ensures DecodeAddress(cfg.crypto, Normalize(given)).Some? <==> IsAddress(cfg, Lower(Trim(given)))
  {
    NormalTwice(given);
  }

  /** The tags decide each part of the row. */
  lemma TagsDecide(e: OfferEvent, t: OfferTags)
    requires ReadOfferTags(e.tags) == Some(t)
    ensures forall name :: LastGiven(e.tags, "name", name) <==> name == t.name
    ensures forall domain :: LastGiven(e.tags, "domain", domain) <==> domain == t.domain
    ensures forall buyer :: NamesBuyer(e, buyer) <==> buyer == Lower(t.buyer)
    ensures forall price :: PricedAt(e, price) <==>
              ParseU64(Trim(t.price)).Some? && price == AsI64(ParseU64(Trim(t.price)).value)
    ensures forall address :: PaidAt(e, address) <==> address == Lower(Trim(t.proofAddress))
    ensures forall expiration :: ExpiresAt(e, expiration) <==> ParseI64(Trim(t.expiration)) == Some(expiration)
  {
    forall key, value
      ensures LastGiven(e.tags, key, value) <==> LastTagValue(e.tags, key) == Some(value)
    {
      LastGivenIff(e.tags, key, value);
    }
  }

  lemma TagsNeeded(cfg: Config, auth: Pubkey, e: OfferEvent, now: int, row: OfferRow)
    requires RowOf(cfg, auth, e, now, row)
    ensures ReadOfferTags(e.tags).Some?
  {
    forall key, value
      ensures LastGiven(e.tags, key, value) <==> LastTagValue(e.tags, key) == Some(value)
    {
      LastGivenIff(e.tags, key, value);
    }
  }

  /** What the checks let through is exactly the row that the tags describe. */
  lemma RowIff(cfg: Config, auth: Pubkey, e: OfferEvent, now: int, row: OfferRow)
    ensures ValidateOffer(cfg, auth, e, now) == Success(row) <==> RowOf(cfg, auth, e, now, row)
  {
    if ReadOfferTags(e.tags).Some? {
      var t := ReadOfferTags(e.tags).value;
      TagsDecide(e, t);
      WellNamedIff(t.name, cfg.nameMin, cfg.nameMax);
      HexKeyIff(Lower(t.buyer));
      AddressIff(cfg, t.proofAddress);
    } else if RowOf(cfg, auth, e, now, row) {
      TagsNeeded(cfg, auth, e, now, row);
    }
  }

  // ---------------------------------------------------------------------------
  // Prices that can never be paid

  lemma LastTag(tags: seq<Tag>, tag: Tag, key: string)
    ensures LastTagValue(tags + [tag], key) == if HasKey(tag, key) then ValueOf(tag) else LastTagValue(tags, key)
  {
    assert (tags + [tag])[..|tags|] == tags;
  }

  /** Printed numbers read back. */
  lemma PrintedReads(n: nat)
    requires n < U64_LIMIT
    ensures ParseU64(Trim(PrintNat(n))) == Some(n)
    ensures n < I64_LIMIT ==> ParseI64(Trim(PrintNat(n))) == Some(n)
  {
    var s := PrintNat(n);
    assert IsDigit(s[0]) && IsDigit(s[|s| - 1]);
    TrimKeeps(s);
  }

  /** The offer with another price: its last price tag counts. */
  function Repriced(e: OfferEvent, price: nat): OfferEvent {
    e.(tags := e.tags + [["price", PrintNat(price)]])
  }

  lemma RepricedTags(e: OfferEvent, price: nat)
    requires ReadOfferTags(e.tags).Some?
    ensures ReadOfferTags(Repriced(e, price).tags) == Some(ReadOfferTags(e.tags).value.(price := PrintNat(price)))
  {
    var tag := ["price", PrintNat(price)];
    LastTag(e.tags, tag, "name");
    LastTag(e.tags, tag, "domain");
    LastTag(e.tags, tag, "p");
    LastTag(e.tags, tag, "price");
    LastTag(e.tags, tag, "proof_address");
    LastTag(e.tags, tag, "expiration");
  }

  /**
   Every accepted offer is accepted at every other 64-bit price too, and can then be paid if
   and only if that price is below 2^63.
   */
  lemma AnyPriceAccepted(cfg: Config, auth: Pubkey, e: OfferEvent, now: int, price: nat)
    requires ValidateOffer(cfg, auth, e, now).Success? && price < U64_LIMIT
    ensures ValidateOffer(cfg, auth, Repriced(e, price), now) ==
            Success(ValidateOffer(cfg, auth, e, now).value.(price := AsI64(price)))
    ensures Payable(ValidateOffer(cfg, auth, Repriced(e, price), now).value) <==> price < I64_LIMIT
  {
    RepricedTags(e, price);
    PrintedReads(price);
    var row := ValidateOffer(cfg, auth, Repriced(e, price), now).value;
    assert row.price == AsI64(price);
    PayableIff(row);
  }

  /** Some claim states the right amount. */
  ghost predicate Payable(o: OfferRow) {
    exists q :: AmountMatches(q, o)
  }

  lemma PayableIff(o: OfferRow)
    requires o.price < U64_LIMIT
    ensures Payable(o) <==> o.price >= 0
  {
    if o.price >= 0 {
      var proof := PaymentProof(o.price, "", "", "", "", "");
      assert AmountMatches(ClaimRequest("", "", proof, 0, None, None), o);
    }
  }

  /** A public key, 64 digits. */
  function SomeKey(): (s: string)
    ensures Hex.ValidPubkey(s) && Lower(s) == s
  {
    var s := seq(64, _ => '0');
    LowerIsCanonical(s);
    s
  }

  function SomeConfig(): Config {
    Config("d", 1, 64, 3600, 3600, 10, 600,
           Crypto(_ => Some(seq(32, _ => 0)), (key: seq<Byte>, msg: seq<Byte>, sig: seq<Byte>) => true))
  }

  function SomeOffer(now: nat): OfferEvent {
    OfferEvent("id", SomeKey(), true, true,
               [["name", "a"], ["domain", "d"], ["p", SomeKey()], ["price", "1"], ["proof_address", "x"],
                ["expiration", PrintNat(now + 1)]])
  }

  lemma LastTagAt(tags: seq<Tag>, key: string, i: nat)
    requires i < |tags| && |tags[i]| == 2 && tags[i][0] == key && forall j | i < j < |tags| :: !HasKey(tags[j], key)
    ensures LastTagValue(tags, key) == Some(tags[i][1])
  {
    assert GivenAt(tags, key, tags[i][1], i);
    LastGivenIff(tags, key, tags[i][1]);
  }

  lemma SomeOfferTags(now: nat)
    ensures ReadOfferTags(SomeOffer(now).tags) == Some(OfferTags("a", "d", SomeKey(), "1", "x", PrintNat(now + 1)))
  {
    var t := SomeOffer(now).tags;
    LastTagAt(t, "name", 0);
    LastTagAt(t, "domain", 1);
    LastTagAt(t, "p", 2);
    LastTagAt(t, "price", 3);
    LastTagAt(t, "proof_address", 4);
    LastTagAt(t, "expiration", 5);
  }

  lemma SomeOfferPasses(now: nat)
    requires now + 1 < I64_LIMIT
    ensures ValidateOffer(SomeConfig(), SomeKey(), SomeOffer(now), now).Success?
  {
    SomeOfferWellMade(now);
    ValidIff(SomeConfig(), SomeKey(), SomeOffer(now), now);
  }

  lemma SomeOfferWellMade(now: nat)
    requires now + 1 < I64_LIMIT
    ensures WellMade(SomeConfig(), SomeKey(), SomeOffer(now)) && TaggedExpiration(SomeOffer(now)) == Some(now + 1)
  {
    SomeOfferTags(now);
    PrintedReads(now + 1);
    OneReads();
  }

  lemma OneReads()
    ensures ParseU64(Trim("1")) == Some(1)
  {
    TrimKeeps("1");
  }

  /** One accepted event: an offer at 2^63 nanogrin, which no claim can ever pay. */
  lemma UnpayableOffer(now: nat)
    requires now + 1 < I64_LIMIT
    ensures var cfg, e := SomeConfig(), Repriced(SomeOffer(now), I64_LIMIT);
            && ValidateOffer(cfg, SomeKey(), e, now).Success?
            && !Payable(ValidateOffer(cfg, SomeKey(), e, now).value)
  {
    SomeOfferPasses(now);
    AnyPriceAccepted(SomeConfig(), SomeKey(), SomeOffer(now), now, I64_LIMIT);
  }
}
