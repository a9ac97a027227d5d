/**
 Grin payment proofs: parsing, canonical forms and the signed message
 (name-authority/src/proof.rs). Address decoding and ed25519 are oracles.
 */
module Proof {
  import opened Wrappers
  import opened Text
  import opened Radix
  import Hex

  type Byte = Hex.Byte

  /** The parts of a JSON value the parser looks at. */
  datatype Json = JString(text: string) | JNumber(number: int) | JObject(fields: map<string, Json>) | JOther

  datatype PaymentProof = PaymentProof(
    amount: U64,
    excess: string,
    recipientAddress: string,
    recipientSig: string,
    senderAddress: string,
    senderSig: string)

  /** The foreign code a proof is checked with. */
  datatype Crypto = Crypto(
    slatepackKey: string -> Option<seq<Byte>>,
    ed25519: (seq<Byte>, seq<Byte>, seq<Byte>) -> bool)

  function FieldText(fields: map<string, Json>, key: string): Option<string> {
    if key in fields && fields[key].JString? then Some(fields[key].text) else None
  }

  function ParseAmount(v: Json): Option<U64> {
    match v
    case JNumber(n) => if 0 <= n < U64_LIMIT then Some(n) else None
    case JString(s) => ParseU64(Trim(s))
    case _ => None
  }

  /** `parse_payment_proof`: all six fields, hex fields lowercased. */
  function ParsePaymentProof(value: Json): Option<PaymentProof> {
    if !value.JObject? || "amount" !in value.fields then None
    else
      var f := value.fields;
      var excess, amount := FieldText(f, "excess"), ParseAmount(f["amount"]);
      var recipient, recipientSig := FieldText(f, "recipient_address"), FieldText(f, "recipient_sig");
      var sender, senderSig := FieldText(f, "sender_address"), FieldText(f, "sender_sig");
      if excess.None? || recipient.None? || recipientSig.None? || sender.None? || senderSig.None? || amount.None? then
        None
      else
        Some(PaymentProof(amount.value, Lower(excess.value), recipient.value, Lower(recipientSig.value),
                          sender.value, Lower(senderSig.value)))
  }

  /** The member of a JSON object with this name is this text. */
  predicate HasText(v: Json, key: string, text: string) {
    v.JObject? && key in v.fields && v.fields[key] == JString(text)
  }

  /** The object states this amount, as a number or as a decimal in a text. */
  predicate HasAmount(v: Json, amount: U64) {
    && v.JObject? && "amount" in v.fields
    && (v.fields["amount"] == JNumber(amount)
        || (v.fields["amount"].JString? && ParseU64(Trim(v.fields["amount"].text)) == Some(amount)))
  }

  /** The object's six members are the proof's, hexadecimal ones in either case. */
  ghost predicate ProofOf(v: Json, p: PaymentProof) {
    && HasAmount(v, p.amount)
    && HasText(v, "recipient_address", p.recipientAddress) && HasText(v, "sender_address", p.senderAddress)
    && (exists x :: HasText(v, "excess", x) && p.excess == Lower(x))
    && (exists x :: HasText(v, "recipient_sig", x) && p.recipientSig == Lower(x))
    && (exists x :: HasText(v, "sender_sig", x) && p.senderSig == Lower(x))
  }

  lemma ParsedIff(v: Json, p: PaymentProof)
    ensures ParsePaymentProof(v) == Some(p) <==> ProofOf(v, p)
  {
    if ParsePaymentProof(v) == Some(p) {
      assert HasText(v, "excess", v.fields["excess"].text);
      assert HasText(v, "recipient_sig", v.fields["recipient_sig"].text);
      assert HasText(v, "sender_sig", v.fields["sender_sig"].text);
    }
  }

  /** `normalize_grin_address`. */
  function Normalize(address: string): string {
    Lower(Trim(address))
  }

  /** `decode_grin_address`: normalized, then decoded to exactly 32 bytes. */
  function DecodeAddress(c: Crypto, address: string): (r: Option<seq<Byte>>)
    ensures r.Some? ==> |r.value| == 32
  {
    var key := c.slatepackKey(Normalize(address));
    if key.Some? && |key.value| == 32 then key else None
  }

  /** `amount_to_be_u64`: eight bytes, most significant first. */
  function BigEndian(amount: nat): (bs: seq<Byte>)
    ensures |bs| == 8
  {
    var ds := Digits(256, 8, amount);
    seq(8, i requires 0 <= i < 8 => ds[i])
  }

  /** The layout of the signed message: amount, excess, sender key. */
  function Message(amount: nat, excess: seq<Byte>, sender: seq<Byte>): seq<Byte> {
    BigEndian(amount) + excess + sender
  }

  /** `payment_proof_message`, appending to a buffer; nothing unless the excess is 33 bytes. */
  method PaymentProofMessage(amount: U64, excessHex: string, sender: seq<Byte>) returns (r: Option<seq<Byte>>)
    ensures r == SignedMessage(amount, excessHex, sender)
    ensures r.Some? <==> Hex.Decode(excessHex).Some? && |Hex.Decode(excessHex).value| == 33
    ensures r.Some? && |sender| == 32 ==> SignedBytes(r.value, amount, Hex.Decode(excessHex).value, sender)
  {
    var excess := Hex.Decode(excessHex);
    if excess.None? || |excess.value| != 33 {
      return None;
    }
    var msg: seq<Byte> := [];
    msg := msg + BigEndian(amount);
    msg := msg + excess.value;
    msg := msg + sender;
    assert msg == Message(amount, excess.value, sender);
    if |sender| == 32 {
      SignedBytesIff(msg, amount, excess.value, sender);
    }
    return Some(msg);
  }

  function SignedMessage(amount: nat, excessHex: string, sender: seq<Byte>): Option<seq<Byte>> {
    var excess := Hex.Decode(excessHex);
    if excess.Some? && |excess.value| == 33 then Some(Message(amount, excess.value, sender)) else None
  }

  /** `verify_signatures`: both signatures, over the same message. */
  predicate VerifySignatures(c: Crypto, p: PaymentProof) {
    var (recipient, sender) := (DecodeAddress(c, p.recipientAddress), DecodeAddress(c, p.senderAddress));
    && recipient.Some? && sender.Some?
    && var msg := SignedMessage(p.amount, p.excess, sender.value);
    && msg.Some?
    && var (recipientSig, senderSig) := (Hex.Decode(p.recipientSig), Hex.Decode(p.senderSig));
    && recipientSig.Some? && senderSig.Some?
    && Signed(c, recipient.value, msg.value, recipientSig.value)
    && Signed(c, sender.value, msg.value, senderSig.value)
  }

  /** `verify_ed25519`: a 64-byte signature that the key accepts. */
  predicate Signed(c: Crypto, key: seq<Byte>, msg: seq<Byte>, sig: seq<Byte>) {
    |sig| == 64 && c.ed25519(key, msg, sig)
  }

  // ---------------------------------------------------------------------------
  // Properties

  /** The 73 bytes determine the amount, the excess and the sender. */
  lemma MessageInjective(a: U64, x: seq<Byte>, s: seq<Byte>, b: U64, y: seq<Byte>, t: seq<Byte>)
    requires |x| == |y| == 33 && |s| == |t| == 32
    ensures |Message(a, x, s)| == 73
    ensures Message(a, x, s) == Message(b, y, t) <==> a == b && x == y && s == t
  {
    var m, n := Message(a, x, s), Message(b, y, t);
    if m == n {
      assert BigEndian(a) == m[..8] && BigEndian(b) == n[..8];
      assert x == m[8..41] && y == n[8..41];
      assert s == m[41..] && t == n[41..];
      BigEndianInjective(a, b);
    }
  }

  lemma BigEndianInjective(a: U64, b: U64)
    requires BigEndian(a) == BigEndian(b)
    ensures a == b
  {
    BigEndianValue(a);
    BigEndianValue(b);
  }

  lemma EightBytes()
    ensures Pow(256, 8) == U64_LIMIT
  {
    assert Pow(256, 2) == 0x1_0000;
    assert Pow(256, 4) == 0x1_0000_0000;
    assert Pow(256, 6) == 0x1_0000_0000_0000;
  }

  lemma BigEndianValue(a: U64)
    ensures BigEndian(a) == Digits(256, 8, a) && Val(256, BigEndian(a)) == a
  {
    EightBytes();
    ValOfDigits(256, 8, a);
    assert BigEndian(a) == Digits(256, 8, a);
  }

  /** The amount as eight base-256 digits, highest first. */
  ghost predicate IsAmount(bs: seq<nat>, amount: U64)
    requires |bs| >= 8
  {
    amount ==
    ((((((bs[0] * 256 + bs[1]) * 256 + bs[2]) * 256 + bs[3]) * 256 + bs[4]) * 256 + bs[5]) * 256 + bs[6]) * 256 + bs[7]
  }

  lemma ValOfEight(bs: seq<nat>)
    requires |bs| == 8
    ensures Val(256, bs) ==
            ((((((bs[0] * 256 + bs[1]) * 256 + bs[2]) * 256 + bs[3]) * 256 + bs[4]) * 256 + bs[5]) * 256 + bs[6]) * 256
            + bs[7]
  {
    assert bs[..7][..6] == bs[..6] && bs[..6][..5] == bs[..5] && bs[..5][..4] == bs[..4] && bs[..4][..3] == bs[..3];
    assert bs[..3][..2] == bs[..2] && bs[..2][..1] == bs[..1] && bs[..1][..0] == [];
    assert Val(256, bs[..1]) == bs[0];
    assert Val(256, bs[..2]) == Val(256, bs[..1]) * 256 + bs[1];
    assert Val(256, bs[..3]) == Val(256, bs[..2]) * 256 + bs[2];
    assert Val(256, bs[..4]) == Val(256, bs[..3]) * 256 + bs[3];
    assert Val(256, bs[..5]) == Val(256, bs[..4]) * 256 + bs[4];
    assert Val(256, bs[..6]) == Val(256, bs[..5]) * 256 + bs[5];
    assert Val(256, bs[..7]) == Val(256, bs[..6]) * 256 + bs[6];
  }

  /** The encoding of an amount is its eight digits, highest first. */
  lemma BigEndianIff(bs: seq<Byte>, amount: U64)
    requires |bs| == 8
    ensures bs == BigEndian(amount) <==> IsAmount(bs, amount)
  {
    BigEndianValue(amount);
    ValOfEight(bs);
    if IsAmount(bs, amount) {
      ValInjective(256, bs, BigEndian(amount));
    }
  }

  /** The 73 bytes by position: eight of the amount, 33 of the excess, 32 of the sender's key. */
  ghost predicate SignedBytes(msg: seq<Byte>, amount: U64, excess: seq<Byte>, sender: seq<Byte>) {
    && |msg| == 73 && |excess| == 33 && |sender| == 32
    && IsAmount(msg, amount)
    && (forall i | 0 <= i < 33 :: msg[8 + i] == excess[i])
    && (forall i | 0 <= i < 32 :: msg[41 + i] == sender[i])
  }

  lemma SignedBytesIff(msg: seq<Byte>, amount: U64, excess: seq<Byte>, sender: seq<Byte>)
    requires |excess| == 33 && |sender| == 32
    ensures SignedBytes(msg, amount, excess, sender) <==> msg == Message(amount, excess, sender)
  {
    if |msg| == 73 {
      BigEndianIff(msg[..8], amount);
      assert msg == msg[..8] + msg[8..41] + msg[41..];
      assert Message(amount, excess, sender)[..8] == BigEndian(amount);
      assert Message(amount, excess, sender)[8..41] == excess;
      assert Message(amount, excess, sender)[41..] == sender;
    }
  }

  /**
   Both keys are decoded from the trimmed and lowercased addresses, and each accepts its own
   64-byte signature of the same 73 bytes.
   */
  ghost predicate BothSigned(c: Crypto, p: PaymentProof) {
    var recipient := c.slatepackKey(Lower(Trim(p.recipientAddress)));
    var sender := c.slatepackKey(Lower(Trim(p.senderAddress)));
    var (recipientSig, senderSig) := (Hex.Decode(p.recipientSig), Hex.Decode(p.senderSig));
    && recipient.Some? && |recipient.value| == 32 && sender.Some? && |sender.value| == 32
    && recipientSig.Some? && |recipientSig.value| == 64 && senderSig.Some? && |senderSig.value| == 64
    && Hex.Decode(p.excess).Some?
    && exists msg ::
         && SignedBytes(msg, p.amount, Hex.Decode(p.excess).value, sender.value)
         && c.ed25519(recipient.value, msg, recipientSig.value) && c.ed25519(sender.value, msg, senderSig.value)
  }

  /** A proof verifies exactly when both parties have signed. */
  lemma SignaturesIff(c: Crypto, p: PaymentProof)
    ensures VerifySignatures(c, p) <==> BothSigned(c, p)
  {
    var sender, excess := DecodeAddress(c, p.senderAddress), Hex.Decode(p.excess);
    if sender.Some? && excess.Some? && |excess.value| == 33 {
      var msg := Message(p.amount, excess.value, sender.value);
      SignedBytesIff(msg, p.amount, excess.value, sender.value);
      forall other | SignedBytes(other, p.amount, excess.value, sender.value)
        ensures other == msg
      {
        SignedBytesIff(other, p.amount, excess.value, sender.value);
      }
    }
  }

  /** An excess as the claim path stores it: lowercase hex of 33 bytes. */
  ghost predicate Canonical(excess: string) {
    IsLower(excess) && Hex.Decode(excess).Some? && |Hex.Decode(excess).value| == 33
  }

  /** The claim path only ever stores canonical spellings. */
  lemma AcceptedIsCanonical(c: Crypto, value: Json)
    requires ParsePaymentProof(value).Some? && VerifySignatures(c, ParsePaymentProof(value).value)
    ensures Canonical(ParsePaymentProof(value).value.excess)
  {
    LowerIsCanonical(FieldText(value.fields, "excess").value);
  }

  /** Canonical spellings of one excess are equal, whatever the request wrote. */
  lemma CanonicalIsUnique(a: string, b: string)
    requires Canonical(a) && Canonical(b)
    ensures Hex.Decode(a) == Hex.Decode(b) <==> a == b
  {
    Hex.DecodeInjective(a, b);
    LowerIsCanonical(a);
    LowerIsCanonical(b);
  }

  /** The bytes both parties sign. */
  function BytesSigned(c: Crypto, p: PaymentProof): Option<seq<Byte>> {
    var sender := DecodeAddress(c, p.senderAddress);
    if sender.None? then None else SignedMessage(p.amount, p.excess, sender.value)
  }

  /** Accepted proofs with the same signed bytes agree on amount, stored excess and sender key. */
  lemma AcceptedBinds(c: Crypto, v: Json, w: Json)
    requires ParsePaymentProof(v).Some? && VerifySignatures(c, ParsePaymentProof(v).value)
    requires ParsePaymentProof(w).Some? && VerifySignatures(c, ParsePaymentProof(w).value)
    ensures var p, q := ParsePaymentProof(v).value, ParsePaymentProof(w).value;
            BytesSigned(c, p) == BytesSigned(c, q) <==>
            && p.amount == q.amount && p.excess == q.excess
            && DecodeAddress(c, p.senderAddress) == DecodeAddress(c, q.senderAddress)
  {
    var p, q := ParsePaymentProof(v).value, ParsePaymentProof(w).value;
    AcceptedIsCanonical(c, v);
    AcceptedIsCanonical(c, w);
    MessageInjective(p.amount, Hex.Decode(p.excess).value, DecodeAddress(c, p.senderAddress).value,
                     q.amount, Hex.Decode(q.excess).value, DecodeAddress(c, q.senderAddress).value);
    CanonicalIsUnique(p.excess, q.excess);
  }
}
