# Verification of the floonet name authority and write policy

This project models the authority behind a floonet relay, which registers names, sells them
against Grin payments and sells paid access, and the relay plugin that asks it. It proves what the
protocol keeps under every interleaving of requests, what more holds when requests run one
after another, and that the hand-written decoders and arithmetic are exact.

Check everything with `dafny verify dfyconfig.toml`.

## How it is built

**Names and transfers.** `Store` has the three tables as one value, and each SQL statement as a
function that fails when a primary key, unique column or partial unique index would be broken.
`Protocol` writes every handler as a program of atomic steps, one step for each section under a
lock; a request in flight carries what it has read. Two levels are built on these steps.

* `Interleaving` and `Provenance`: steps of any number of requests in any order, with any clock
  and any answers of the node. Here hold uniqueness, single use, write-once death records and
  where every ownership comes from.
* `Sequential` and `Outcomes`: whole requests, one after another, with a clock that never goes
  back. Here hold timeliness of claims, one live offer for a name and for an address, success
  of every claim that passes its checks, and idempotent retries. `Outcomes.ServeIsInterleaving`
  shows that these runs are among the interleaved ones, so every fact of the first level holds
  here too.

What the handlers check between their steps is stated a second time in the fields themselves:
`Payment` for the rules of a claim, `Offers` for the row that a signed event becomes, `Outcomes`
for the tables. Each statement is proved equal to the check of the steps, and the results of
both levels are given in its terms.

`Races` says exactly when interleaving breaks what holds one request at a time, with runs in
which it does.

`Authority` is the program's own form: an object whose tables and limiter are changed in place
by statements in the order of the source. Each handler is proved equal to its steps run without
interruption, to keep the object valid under a clock that does not go back, and to succeed
exactly under the conditions its caller may expect.

**Paid grants.** `Grants` (steps, interleaved), `GrantRuns` (whole requests) and `GrantTable` (the
program's form) follow the same plan. A ledger remembers which invoices were issued and
reported paid, every promotion from pending to paid and every new registration. `GrantOutcomes` says
what each request comes to under every answer of the backend. `PaidCache` adds the relay plugin
with its cache in front of the authority.

**Windows.** `RateLimit` proves the pruned limiter and cooldowns equal, bucket by bucket, to a log
that only grows, as long as no cleanup drops the bucket within its own window; `Cleanup` proves
that this condition is exact. `Cooldowns` puts the limiter in place of the full log that the
steps of `Protocol` ask, and shows when the two agree. `Replay` treats NIP-98 event ids.

**Codecs.** `ExclusiveOr`, `Radix`, `Polymod` and `Npub` treat the bech32 decoder. `Bip173` proves its
checksum to be the code of BIP-173, by multiplication in GF(32) and the coefficients of the
generator polynomial, and `Nip19` follows the example of NIP-19 through the register and back to
its key. `Hex` and `Proof` treat the payment proof, `Amounts` the decimal amounts, `Tags` the two
loops over event tags.

## Where the code falls short of its documentation

* An offer that was consumed can become `revoked`: the update for an already expired offer does
  not look at the status again (`Interleaving.ConsumedLostIff`, `Races.RevocationRace`). The
  name, the transfer row and the single use of the payment are not affected.
* "At most one live offer per name" holds for requests run one after another. Under
  interleaving it breaks exactly when an offer is inserted after another that was not there
  when it was checked (`Races.LiveClashIff`, `Races.LodgingRace`).
* A release that was checked and not yet written can take the name from the key that has got it
  since (`Races.ForeignReleaseIff`, `Races.ReleaseRace`).
* A paid grant can be lost when two quotes for one key both find no grant
  (`Grants.PaidLostIff`, `Grants.QuoteRace`).
* A NIP-98 event dated exactly five seconds ahead can be accepted twice
  (`Replay.ReplayableIff`); one dated less far ahead cannot (`Replay.AcceptedOnce`).
* The cleanup of the limiter drops every bucket without a hit in the window of the call that
  runs it. A cooldown is then over too early (`Cooldowns.CooldownLostIff`,
  `Cleanup.FloodForgets`) and a limit can be exceeded (`Cleanup.OverrunIff`,
  `Cleanup.FloodOverruns`), exactly for buckets that are dropped within their own window.
* A price of 2^63 nanogrin or more is accepted at lodging, stored negative and can never be
  paid (`Offers.AnyPriceAccepted`, `Offers.UnpayableOffer`).
* name-authority/src/config.rs:100-101 allows an expiration equal to the present second; the
  code asks for a later one, and so does the model (`Offers.DocumentedIff`).
* An uppercase npub in which a K is written as the Kelvin sign is accepted, though bech32 is
  ASCII (`Npub.KelvinAccepted`).

## Model

| member | source | states |
|---|---|---|
| Interleaving.RunKeeps | name-authority/src/db.rs:21-77 | in every interleaving the table invariant holds, and no offer, transfer or recorded operation is ever taken back |
| Interleaving.TxnKeeps | name-authority/src/handlers/transfer.rs:354-415 | the claim transaction, run from an old snapshot of the offer, keeps the invariant of the tables as they are now |
| Interleaving.NamesAndKeysCorrespond | name-authority/src/db.rs:21-31 | in every reachable state two unreleased name rows are the same row if and only if they have the same key |
| Interleaving.IndexIff | name-authority/src/db.rs:28-31 | the partial unique index refuses exactly the rows that would give a key a second active name |
| Interleaving.FirstDeathStands | name-authority/src/db.rs:253-268 | of two attempts to mark an offer dead the first stands |
| Interleaving.NameGained | name-authority/src/handlers/transfer.rs:363-380 | a step makes K the owner of N only as K's registration of N while N is free, or as the commit of a claim by K that pays, field by field, an offer of N to K by its owner |
| Interleaving.ConsumedHasTransfer | name-authority/src/handlers/transfer.rs:382-412 | every consumed offer has exactly one transfer row, agreeing on name, parties and price |
| Interleaving.TransfersOnlyGrow | name-authority/src/db.rs:68-77 | a transfer row, once there, is there unchanged in every later state |
| Interleaving.ExcessPaysOnce | name-authority/src/handlers/transfer.rs:548-552 | different transfer rows decode to different 33-byte kernel excesses, whatever their spelling in the requests |
| Interleaving.TransferIsPaid | name-authority/src/handlers/transfer.rs:503-567 | in every run, a transfer row comes only from its buyer's claim of an offer in the table: each party's 32-byte key accepts its own 64-byte signature of the same 73 bytes, address, amount, depth, grace and death height are right, and the row records the deal, the excess, the kernel's height and the time |
| Interleaving.DeathWrittenOnce | name-authority/src/db.rs:253-268 | no offer returns to live, and of its death record at any three moments two agree: it is written at most once |
| Interleaving.ConsumedLostIff | name-authority/src/handlers/transfer.rs:327-334 | in every run, a step takes the consumed status away exactly when it is the unguarded revocation of that offer |
| Provenance.GainTraced | name-authority/src/handlers/registry.rs:217-223 | in every run, who becomes owner sent a registration for the free name, or a claim whose proof pays an offer lodged by the owner: an event signed by the owner whose last `p` tag names the gainer's key and whose last `name` tag the name |
| Provenance.HolderTraced | name-authority/src/handlers/transfer.rs:354-380 | every owner of a name in a reachable state goes back to such a moment of the run, which the lemma finds |
| Provenance.LossTraced | name-authority/src/handlers/registry.rs:301-306 | in every run a name is lost by a release that was asked for by a key that owned the name at some earlier moment, or by the recorded sale of the key that loses it |
| Sequential.HandleKeeps | name-authority/src/handlers/transfer.rs:466-596 | every whole request keeps the sequential invariant, offer status only climbs, and no claim ends in a failed transaction |
| Sequential.ConsumedInTime | name-authority/src/handlers/transfer.rs:480-547 | a consumed offer was claimed by its expiration, or died with a height no lower than the kernel's and was claimed within grace |
| Sequential.OneLiveOffer | name-authority/src/handlers/transfer.rs:191-225 | at any time at most one offer with status live and an expiration not past for a name and for a proof address, also when expired rows are still stored as live |
| Sequential.TransferExactlyWhenConsumed | name-authority/src/handlers/transfer.rs:382-412 | a transfer row exists for an offer if and only if that offer is consumed |
| Outcomes.ClaimSucceedsIff | name-authority/src/handlers/transfer.rs:459-596 | a claim is answered by the first of the documented rules that decides it, each stated in fields; it succeeds if and only if all hold of the settled offer, and then exactly one row of each table is new and the seller's cooldown is armed; otherwise nothing but a due expiry is written |
| Outcomes.ClaimDecided | name-authority/src/handlers/transfer.rs:418-597 | the same for every claim request: a malformed id or proof is a bad request, an unknown offer is not found, and any other is decided so |
| Payment.PaysIff | name-authority/src/handlers/transfer.rs:511-547 | rules 6 to 9 hold if and only if both have signed, the address and the price are the offer's, the kernel is deep enough, and for a dead offer no higher than the death height |
| Payment.ObjectionIs | name-authority/src/handlers/transfer.rs:511-547 | the refusal of a claim after the owner check is the first of these rules that fails, in order |
| Outcomes.ClaimRecords | name-authority/src/handlers/transfer.rs:564-588 | after a successful claim the buyer owns the name, the offer is consumed, the excess recorded and the seller's cooldown armed |
| Outcomes.RetryIsIdempotent | name-authority/src/handlers/transfer.rs:466-478 | after any later requests, a claim with the same offer and excess is given the same name and buyer and changes nothing |
| Cooldowns.LimitedRegistration | name-authority/src/handlers/registry.rs:100-263 | a registration is answered by the first rule that decides it, and succeeds exactly when the limiter's table holds no operation of the key younger than the cooldown, the key is entitled and without a name, and the name is free; it writes that row alone |
| Cooldowns.RunIsServe | name-authority/src/handlers/registry.rs:100-110 | in every run whose cleanups drop no key's bucket while it is cooling down, the tables are those of the steps, which ask the full log |
| Cooldowns.CooldownIff | name-authority/src/handlers/registry.rs:100-110 | if no cleanup of the run dropped the key's bucket too early, the key is refused for the cooldown exactly when it has a recorded operation younger than the cooldown |
| Cooldowns.CooldownHolds | name-authority/src/handlers/registry.rs:100-110 | under the same condition, an operation recorded at any moment of a run keeps its key from registering until the cooldown is over, whatever comes in between |
| Cooldowns.CooldownLostIff | name-authority/src/ratelimit.rs:26-35 | that condition is exact: after one more limiter call the key's cooldown is answered rightly at all later times if and only if the call's cleanup spares the key's bucket |
| Outcomes.RegisterIff | name-authority/src/handlers/registry.rs:154-263 | with the full log of operations in place of the limiter, a registration is answered by the first rule that decides it and succeeds exactly for an entitled key without an operation younger than the cooldown or a name, on a free name |
| Outcomes.LodgeIff | name-authority/src/handlers/transfer.rs:180-247 | a lodged row is the one that the event's tags describe: last name, lowercased last `p`, normalized last proof address, price and expiration as read; it is lodged exactly when the seller holds the name, neither name nor address is bound by a live unexpired offer and the id is new, and each refusal has its rule |
| Outcomes.RevokeIff | name-authority/src/handlers/transfer.rs:300-341 | exactly the seller can revoke, until the offer is consumed, and each refusal has its rule; an offer already dead keeps its death record, a live one gets the present one |
| Outcomes.ReadShows | name-authority/src/handlers/transfer.rs:257-273 | a read answers the status the offer is left with, live exactly for a live row not past its expiration, and writes nothing but a due expiry |
| Outcomes.ReleaseIff | name-authority/src/handlers/registry.rs:301-336 | exactly the owner can release a name, and each refusal has its rule; that row alone is marked released at this time and the key's cooldown is armed |
| Outcomes.PriceBound | name-authority/src/handlers/transfer.rs:518-522 | the stored price equals a 64-bit amount if and only if the last price tag reads as that amount and it is below 2^63 |
| Offers.ValidIff | name-authority/src/handlers/transfer.rs:146-195 | an offer passes the checks without a table exactly when well made and expiring after now and within the limit |
| Offers.RowIff | name-authority/src/handlers/transfer.rs:146-227 | the checks let through exactly the row that a verified event of the caller describes, tag by tag: name, buyer, price, proof address and expiration are what the last such tag gives |
| Offers.DocumentedIff | name-authority/src/config.rs:100-102 | on a well-made offer code and documented bound differ exactly when it expires in the present second |
| Offers.AnyPriceAccepted | name-authority/src/handlers/transfer.rs:180-182 | an accepted offer is accepted at every other 64-bit price too, and can then be paid if and only if that price is below 2^63 |
| Offers.UnpayableOffer | name-authority/src/handlers/transfer.rs:180-209 | one accepted event at 2^63 nanogrin, which no claim can pay |
| Outcomes.RequestFinishes | name-authority/src/handlers/transfer.rs:418-597 | a request that nothing disturbs is done after at most eight steps, with the result of the whole handler |
| Outcomes.ServeIsInterleaving | name-authority/src/handlers/transfer.rs:418-597 | every run of whole requests is one of the interleaved runs |
| Races.RevocationRace | name-authority/src/handlers/transfer.rs:327-334 | whenever an expired offer can still be claimed, a revocation around the claim leaves the paid offer revoked |
| Races.LiveClashIff | name-authority/src/handlers/transfer.rs:201-225 | in every interleaving, a step brings about a second live offer for a name or an address if and only if it inserts a lodged offer whose name or address a live offer has come to hold |
| Races.LodgingRace | name-authority/src/handlers/transfer.rs:197-225 | two requests to lodge offers for one name, each granted alone, arrive together and leave two offers live at one time |
| Races.ForeignReleaseIff | name-authority/src/handlers/registry.rs:301-309 | in every interleaving, a key loses a name by nothing of its own doing if and only if another key's release of that name is written |
| Races.ReleaseRace | name-authority/src/handlers/registry.rs:301-309 | an owner's second, late release takes the name from the key that registered it in between |
| Authority.App.RunClaimTxn | name-authority/src/handlers/transfer.rs:354-415 | the three updates in place equal the transaction, and an aborted one changes none of the tables |
| Authority.App.SettleExpiry | name-authority/src/handlers/transfer.rs:101-111 | an overdue live offer is marked expired with the node's height and read again; any other is left alone |
| Authority.App.RegisterName | name-authority/src/handlers/registry.rs:67-263 | the tables, limiter and answer of the registration; the object stays valid; the answer is the first rule's, success exactly under the conditions, and then that row alone is new |
| Authority.App.UnregisterName | name-authority/src/handlers/registry.rs:265-338 | the tables, limiter and answer of the release; the object stays valid; success exactly for the owner, and then the row is marked released and the operation recorded |
| Authority.App.LodgeOffer | name-authority/src/handlers/transfer.rs:114-249 | the tables and answer of the lodging; the object stays valid; the row inserted is the one the event's tags describe, and every answer is the first rule's |
| Authority.App.ReadOffer | name-authority/src/handlers/transfer.rs:252-274 | the tables and answer of the read; the object stays valid; only a due expiry is written, and the status told is the stored one |
| Authority.App.RevokeOffer | name-authority/src/handlers/transfer.rs:277-341 | the tables and answer of the revocation; the object stays valid; success exactly for the seller of an offer not consumed, and then that row alone changes, with the death record stated |
| Authority.App.ClaimName | name-authority/src/handlers/transfer.rs:418-597 | the tables, limiter and answer of the claim; the object stays valid; never a failed transaction; every claim is decided by the documented rules in fields, both signatures among them, and a success changes exactly the stated rows |
| Authority.App.FinishClaim | name-authority/src/handlers/transfer.rs:466-510 | the same tables, limiter and answer as the claim steps from the settled offer on |
| Authority.App.CheckPayment | name-authority/src/handlers/transfer.rs:511-547 | no objection exactly when the proof pays the offer in fields, both signatures over the 73 bytes included, otherwise the first broken rule's |
| Authority.App.CommitClaim | name-authority/src/handlers/transfer.rs:548-596 | the same tables, limiter and answer as the claim steps from the excess check on |
| Protocol.ValidateOffer | name-authority/src/handlers/transfer.rs:146-195 | an offer that passes is live, undead, the caller's own, expires after now and within the limit, at a price of 64 signed bits; only a signer other than the caller is refused as the wrong key (`Offers.RowIff` pins every field) |
| Tags.ExtractOfferTags | name-authority/src/handlers/transfer.rs:52-83 | the loop returns exactly the six values that the last tags with these keys give, and nothing when one is missing |
| Tags.CheckAuthTags | name-authority/src/auth.rs:51-88 | the loop accepts exactly when the last url and method tags with a value match, slashes at the end and case aside, and the last payload tag's value is the body's hash, or without one the body is empty |
| Text.SignedReads | name-authority/src/handlers/transfer.rs:180-188 | digits are read as their decimal value if it fits, a plus before them is passed over, and a minus negates a signed number |
| Proof.PaymentProofMessage | name-authority/src/proof.rs:58-72 | the buffer holds the signed message, exactly for an excess of 33 bytes; its 73 bytes are, by position, the eight base-256 digits of the amount from the highest down, the excess and the sender's key |
| Proof.BigEndianIff | name-authority/src/proof.rs:49-53 | eight bytes encode the amount if and only if they are its base-256 digits, highest first |
| Proof.SignedBytesIff | name-authority/src/proof.rs:55-72 | 73 bytes are the signed message if and only if they hold amount, excess and sender key at their positions |
| Proof.SignaturesIff | name-authority/src/proof.rs:131-167 | a proof verifies if and only if both trimmed and lowercased addresses decode to 32-byte keys and each key accepts its own 64-byte signature of those bytes |
| Proof.ParsedIff | name-authority/src/proof.rs:95-129 | a JSON object is read as a proof if and only if its six members are the proof's, with the hexadecimal ones lowercased and the amount a number or a decimal text of 64 bits |
| Proof.MessageInjective | name-authority/src/proof.rs:49-72 | the 73 bytes determine amount, excess and sender key |
| Proof.AcceptedIsCanonical | name-authority/src/proof.rs:100-151 | an accepted proof carries lowercase hex of 33 bytes |
| Proof.CanonicalIsUnique | name-authority/src/proof.rs:116-123 | two stored spellings decode to the same excess if and only if they are equal |
| Proof.AcceptedBinds | name-authority/src/proof.rs:131-151 | two accepted proofs have the same signed bytes if and only if they agree on amount, stored excess and sender key |
| Hex.DecodeInjective | name-authority/src/proof.rs:63 | texts decode to the same bytes if and only if they differ at most in case |
| Hex.EncodeSpells | plugin/floonet_writepolicy.py:190 | each byte is spelled by two characters of 0123456789abcdef, the higher digit first |
| Hex.DecodeInvertsEncode | plugin/floonet_writepolicy.py:190 | decoding undoes encoding for all bytes |
| Hex.EncodeInvertsDecode | name-authority/src/proof.rs:63 | encoding undoes decoding for all lowercase texts that decode |
| Polymod.BechPolymod | plugin/floonet_writepolicy.py:148-156 | the loops compute the absorbed register, which stays below 2^30 for data of any length (`Bip173.AbsorbIsRemainder` says what the register is) |
| Bip173.FeedbackIsProduct | plugin/floonet_writepolicy.py:149 | the five generator words add up, bit by bit, to the product in GF(32) of the top symbol and the coefficients 29, 22, 20, 21, 29, 18 |
| Bip173.ShiftIsNext | plugin/floonet_writepolicy.py:152-155 | one round of the program is one step of long division by the generator polynomial of BIP-173 |
| Bip173.AbsorbIsRemainder | plugin/floonet_writepolicy.py:148-156 | the register is the remainder: the symbols after a leading 1 are a multiple of the generator polynomial plus the six symbols it holds |
| Nip19.RoundIsNext | plugin/floonet_writepolicy.py:151-155 | the same round in shifts, masks and exclusive ors of 30-bit words |
| Nip19.Example | plugin/floonet_writepolicy.py:148-190 | the register ends at 1 on the expanded symbols of the npub in NIP-19's example, and that npub is the encoding of its key |
| Polymod.ShiftLinear | plugin/floonet_writepolicy.py:152-155 | one round is linear over exclusive or, in register and symbol together |
| Polymod.ShiftInjective | plugin/floonet_writepolicy.py:152-155 | one round loses nothing: different registers stay different |
| Polymod.BurstDetected | plugin/floonet_writepolicy.py:148-156 | sequences that differ only within a stretch of at most six symbols, one symbol included, never have the same checksum |
| Polymod.ChecksumUnique | plugin/floonet_writepolicy.py:175-177 | after any data exactly one choice of six checksum symbols is accepted |
| Npub.Regroup | plugin/floonet_writepolicy.py:178-185 | the accumulator loop keeps the value of the symbols read: bytes put out, then fewer than eight bits left |
| Npub.KeyOfSymbols | plugin/floonet_writepolicy.py:175-189 | symbols give a key exactly when checksum, zero padding and length are right, and it is the key they carry |
| Npub.Symbols | plugin/floonet_writepolicy.py:171-174 | the characters' symbols, or nothing when a character is none of the charset |
| Npub.SymbolIsPosition | plugin/floonet_writepolicy.py:138 | a symbol's character stands at its position in the character set of BIP-173 |
| Npub.EncodingIff | plugin/floonet_writepolicy.py:175-189 | a spelling is the encoding of a key if and only if its symbols carry the key: regrouped value, zero padding, checksum |
| Npub.NpubToHex | plugin/floonet_writepolicy.py:159-190 | a text of one case is accepted exactly when, lowercased, it is the specification's encoding of a 32-byte key, and the result is that key (the checksum is pinned by `Bip173.AbsorbIsRemainder` and `Nip19.Example`) |
| Npub.MixedIff | plugin/floonet_writepolicy.py:162-164 | the mixed-case check refuses exactly the texts with a lowercase and an uppercase letter, the Kelvin sign counting as uppercase |
| Npub.AcceptedIsAsciiIff | plugin/floonet_writepolicy.py:162-164 | an accepted text is ASCII unless it contains the Kelvin sign, and then it is uppercase |
| Npub.KelvinAccepted | plugin/floonet_writepolicy.py:162-164 | every uppercase encoding with a K written as the Kelvin sign is accepted |
| Npub.EncodeIsLower | plugin/floonet_writepolicy.py:162-164 | every encoding is lowercase, so it passes the mixed-case check unchanged |
| Amounts.ParseIsExact | name-authority/src/config.rs:131-162 | parsing succeeds with n exactly for decimals of at most nine places whose exact value is n nanogrin and fits 64 bits |
| Amounts.TooManyIff | name-authority/src/config.rs:143-145 | exactly the decimals of more than nine places are refused for their places |
| Amounts.NoIntermediateOverflow | name-authority/src/config.rs:157 | the unchecked rescaling of the fraction never overflows |
| Amounts.ParseInvertsPrint | name-authority/src/config.rs:165-174 | parsing what is printed for any 64-bit amount gives that amount |
| Amounts.PrintedShort | name-authority/src/config.rs:165-174 | whole GRIN are printed without a dot, and a fraction never ends in a zero |
| Grants.PaidIsBacked | name-authority/src/paid.rs:281-315 | in every interleaving a paid grant, and every promotion, stands on an invoice the backend itself reported paid |
| Grants.PaidGained | name-authority/src/paid.rs:218-230 | in every interleaving a row becomes paid only by a promotion of the very invoice it holds, already reported paid, and keeps its price |
| Grants.PromotionTouchesOnly | name-authority/src/paid.rs:220-230 | a promotion changes no row that holds another invoice; for a replaced invoice it changes nothing |
| Grants.PaidLostIff | name-authority/src/paid.rs:198-216 | a step takes a paid grant away exactly when it stores a rolled invoice over it or consumes it after a registration |
| Grants.QuoteRace | name-authority/src/paid.rs:317-333 | two interleaved quotes and a webhook lose a paid grant with nothing registered for it |
| GrantRuns.RegistrationsMatchPromotions | name-authority/src/handlers/registry.rs:179-233 | in name mode, for every key, registrations plus one while a paid grant is held equal the promotions, whatever the backend answers |
| GrantRuns.RegistrationsArePaidFor | name-authority/src/paid.rs:264-340 | with fresh invoice ids there are never more registrations than distinct invoices reported paid |
| GrantRuns.PaidGrantSpentIff | name-authority/src/handlers/registry.rs:228-233 | a paid name grant goes exactly when its owner is registered with it |
| GrantRuns.WriteGrantStays | name-authority/src/paid.rs:281-315 | in write mode no request ever takes a paid grant away |
| GrantRuns.AnswersAreTrue | name-authority/src/paid.rs:274-315 | "paid" is answered only of a grant that stands paid, a price only with the pending grant that carries it, "unavailable" only while nothing is paid |
| GrantRuns.HandleKeeps | name-authority/src/paid.rs:264-340 | every request keeps paid grants backed and promotions balanced, and with a fresh invoice id each invoice promoted at most once |
| GrantRuns.RegistrationCounted | name-authority/src/handlers/registry.rs:224-233 | a registration is counted exactly when it is answered so, and in name mode leaves its key without a grant |
| GrantRuns.HookReadsIff | name-authority/src/handlers/paidapi.rs:217-220 | with distinct invoices a webhook is polled exactly when a pending grant holds its invoice |
| GrantOutcomes.CallerTakesOver | name-authority/src/paid.rs:274-315 | `ensure_paid` does the same for every caller; only what follows differs |
| GrantOutcomes.EnsureOutcome | name-authority/src/paid.rs:274-340 | what `ensure_paid` comes to under every answer: no grant is invoiced at the resource's price, a paid one is paid, a throttled one is left and quoted without a poll, and of a polled one "paid" settles every row of its invoice, "expired" replaces it, anything else leaves it due |
| GrantOutcomes.PaidIffReported | name-authority/src/paid.rs:281-310 | a pending grant that is not throttled becomes paid if and only if the backend says paid, and exactly then the outcome is paid |
| GrantOutcomes.QuoteOutcome | name-authority/src/handlers/paidapi.rs:128-174 | a quote comes to exactly that for what is sold under the setting, and is refused without effect for anything else |
| GrantOutcomes.StatusOutcome | name-authority/src/handlers/paidapi.rs:50-74 | a status asks for the payment only of an existing write grant; a key without one is not paid and nothing is created |
| GrantOutcomes.RegisterOutcome | name-authority/src/handlers/registry.rs:174-233 | a registration in name mode asks for the payment and goes on exactly when it is paid; made, it is counted and its grant deleted |
| GrantOutcomes.WebhookOutcome | name-authority/src/handlers/paidapi.rs:217-246 | with distinct invoices, a signed webhook settles the invoice exactly when a pending grant holds it and the backend says paid, and else changes nothing |
| GrantTable.App.MarkGrantPaid | name-authority/src/paid.rs:220-230 | exactly the pending rows of the invoice become paid, and the result says whether the table changed |
| GrantTable.App.EnsurePaid | name-authority/src/paid.rs:274-315 | statement by statement, the same table and outcome as the steps, and the case that the backend's answer calls for |
| GrantTable.App.NewGrant | name-authority/src/paid.rs:317-340 | the same table and outcome as the creating steps: a pending grant with the new invoice at the resource's own price, or nothing and unavailable |
| GrantTable.App.PaidStatus | name-authority/src/handlers/paidapi.rs:50-74 | the table of the status steps; the object stays valid; every case of the answer and the table it leaves; a malformed key is told nothing |
| GrantTable.App.QuoteResource | name-authority/src/handlers/paidapi.rs:128-174 | the table and answer of the quote; the object stays valid; refused exactly when not for sale, else the case that the backend's answer calls for, with "paid" promoting the grant |
| GrantTable.App.RegisterName | name-authority/src/handlers/registry.rs:174-233 | the table and answer of the paying part; the object stays valid; it goes on exactly when paid, and a registration is counted once and, in name mode, takes the grant, which is lost in no other way |
| GrantTable.App.GoblinpayWebhook | name-authority/src/handlers/paidapi.rs:217-246 | the table and answer of the webhook; the object stays valid; with distinct invoices it settles an awaited, paid invoice and else changes nothing; only rows of the invoice change |
| PaidCache.Gate.CheckPaid | plugin/floonet_writepolicy.py:335-361 | cache, authority and verdict case by case: pass untouched when write access is not for sale, else a key of 64 characters is asked for, a remembered verdict counts, and a lookup decides otherwise and is remembered for the TTL, or ten seconds at most when it failed |
| PaidCache.CheckJudges | plugin/floonet_writepolicy.py:335-361 | the specified verdict, cache and log are these cases, with the status question's own cases inside |
| PaidCache.VerdictIff | plugin/floonet_writepolicy.py:340-361 | in every world: authentication is asked for if and only if write access is for sale and no 64-character key is given; the status is unavailable if and only if nothing valid is remembered and no answer comes back |
| PaidCache.Gate.PaidLookup | plugin/floonet_writepolicy.py:325-332 | the authority's verdict if its answer arrives, and the table as serving the question leaves it |
| PaidCache.PassIsPaid | plugin/floonet_writepolicy.py:345-361 | with write access for sale, every publication let through belongs to a key whose grant is paid in the table now |
| PaidCache.RefusalIsFresh | plugin/floonet_writepolicy.py:346-360 | a refusal rests on the last lookup of the key, made now or younger than the TTL, ten seconds at most after a failure; an answered one was true when made |
| PaidCache.LookupsAreSpaced | plugin/floonet_writepolicy.py:347-357 | lookups of one key lie at least as far apart as the earlier one may be remembered |
| PaidCache.PaidIsLetThrough | plugin/floonet_writepolicy.py:345-361 | a paid key that reaches the authority is refused exactly while an older refusal is remembered, or when it is no well-formed key |
| RateLimit.Limiter.AllowCall | name-authority/src/ratelimit.rs:44-59 | table and answer of the limiter, cleanup included |
| RateLimit.Limiter.Cooling | name-authority/src/ratelimit.rs:26-35 | table and answer of the cooldown check |
| RateLimit.Limiter.Record | name-authority/src/ratelimit.rs:38-41 | the operation is added to its bucket and nothing else changes |
| RateLimit.BucketKeysDistinct | name-authority/src/ratelimit.rs:27 | buckets named without a colon never share a key |
| RateLimit.AnswersMatchLog | name-authority/src/ratelimit.rs:26-59 | every call on a bucket is answered as a log that only grows would answer it, provided no cleanup of the run drops the bucket within its own window |
| RateLimit.WideCleanupsSpare | name-authority/src/ratelimit.rs:55-57 | that proviso holds when every call that cleans has a window no smaller than the bucket's |
| Cleanup.CleanupHarmlessIff | name-authority/src/ratelimit.rs:55-57 | a cleanup leaves all later answers of a bucket unchanged if and only if it keeps the bucket or no hit is in the bucket's window |
| Cleanup.CleanupSafeIff | name-authority/src/ratelimit.rs:55-57 | a bucket is safe from a cleanup whatever its history if and only if its window is no larger than the cleaning one |
| Cleanup.CooldownKeptIff | name-authority/src/ratelimit.rs:26-35 | after a run that was right about a bucket, one more call keeps every later cooldown answer right if and only if its cleanup spares the bucket |
| Cleanup.FloodForgets | name-authority/src/ratelimit.rs:55-57 | a run in which a recorded name change is forgotten before its cooldown is over |
| RateLimit.WindowBound | name-authority/src/ratelimit.rs:43-59 | of the calls that the program accepts on a bucket, no half-open window of its length holds more than its maximum, provided no cleanup of the run drops the bucket within its own window |
| RateLimit.AllowedIff | name-authority/src/ratelimit.rs:44-59 | under the same proviso a call is accepted if and only if fewer than the maximum were accepted in the half-open window that ends with it |
| RateLimit.CleansIff | name-authority/src/ratelimit.rs:55-57 | the table is cleaned exactly after an accepted call that leaves more than 50000 buckets |
| Cleanup.OverrunIff | name-authority/src/ratelimit.rs:43-59 | after a run that kept the bound, one more call lets later calls break it if and only if its cleanup drops the bucket within its own window |
| Cleanup.FloodOverruns | name-authority/src/ratelimit.rs:43-59 | a run that lets one call and as many more as the maximum through within one window |
| Replay.Guard.AuthEventFresh | name-authority/src/ratelimit.rs:11-21 | outdated ids are dropped, and the id is new exactly when it is not remembered from less than the age limit and five seconds ago |
| Replay.Guard.Admit | name-authority/src/auth.rs:43-49 | an event is admitted exactly when authentic, of an age from -5 to the limit, and not remembered from less than the limit and five seconds ago |
| Replay.AcceptedIff | name-authority/src/auth.rs:43-49 | in every run an event is accepted if and only if it is authentic, its age is from -5 to the limit, and no acceptance of it lies less than the limit and five seconds back |
| Replay.AcceptedOnce | name-authority/src/auth.rs:43-49 | an event accepted at age -4 seconds or more is accepted once in any run, whatever is pruned in between |
| Replay.ReplayAges | name-authority/src/ratelimit.rs:11-21 | a second acceptance needs the ages at their two limits |
| Replay.ReplayableIff | name-authority/src/auth.rs:47-49 | an event just accepted can be accepted again if and only if its age was exactly -5 seconds |

## Left out

- HTTP, JSON and routing: requests arrive parsed, and answers are success or kind of rejection only; CORS, logging and rate limits in front of the handlers are not part of the steps.
- Node, GoblinPay and clock: their answers are values carried by the request and may be anything.
- Schnorr, ed25519, HMAC, SHA-256, base64 and the bech32 crate: uninterpreted functions or outcomes carried by the request; an event id determines the event.
- Paywall inside the name machine, and name table inside the grant machine: each is an arbitrary outcome for the other.
- The name-change cooldown in `Store` reads the full log of operations; `Cooldowns` proves of whole requests when the limiter agrees with it, while interleaved requests ask the full log.
- The limiter's clock and the stored times are taken to be one clock, counted in one unit.
- Throttle of status polls: its outcome is part of the request and may be anything.
- Creation and payment times of grants, the event text of offers, and names repeated in error bodies: stored or shown, never read by a decision.
- Database failures other than broken constraints, and restarts, which empty the limiter and the replay set.
- Lowercasing is that of ASCII letters, and of the Kelvin sign in the npub decoder; other cased letters are not modelled, and in that decoder lead to refusal either way.
- Negative or overflowing settings: maximal age, windows and limits are natural numbers, and times do not overflow.
- PaidCache.LookupsAreSpaced: asks for a TTL that is not negative, since a negative one remembers nothing; times are real numbers, not floating-point ones.
- PaidCache.PassIsPaid: for requests run to completion, since the races of `Grants` can take a paid grant away.
- Character rules and folding of names beyond `valid_name`, reserved names, profiles and well-known files: single-branch predicates and reads.
- The other checks of the plugin (kinds, authors, gift wraps, AUTH) and the hexadecimal branch of `_normalize_pubkey`: they would add easy members only.
- Setup, environment loading, deployment scripts and the live check client.
