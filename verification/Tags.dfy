/**
 Event tags: the six tags of a transfer offer (name-authority/src/handlers/transfer.rs,
 `extract_offer_tags`) and the tag checks of NIP-98 authorization
 (name-authority/src/auth.rs, `verify_nip98`).
 */
module Tags {
  import opened Wrappers
  import opened Text

  type Tag = seq<string>

  predicate HasKey(tag: Tag, key: string) {
    tag != [] && tag[0] == key
  }

  function ValueOf(tag: Tag): Option<string> {
    if |tag| > 1 then Some(tag[1]) else None
  }

  /** The value of the last tag with this key; a last tag without a value hides earlier ones. */
  function LastTagValue(tags: seq<Tag>, key: string): Option<string> {
    if tags == [] then None
    else if HasKey(tags[|tags| - 1], key) then ValueOf(tags[|tags| - 1])
    else LastTagValue(tags[..|tags| - 1], key)
  }

  /** The last value given under this key; tags without a value are passed over. */
  function LastValue(tags: seq<Tag>, key: string): Option<string> {
    if tags == [] then None
    else if HasKey(tags[|tags| - 1], key) && |tags[|tags| - 1]| > 1 then Some(tags[|tags| - 1][1])
    else LastValue(tags[..|tags| - 1], key)
  }

  /** The tag at `i` is the last with this key, and gives this value. */
  ghost predicate GivenAt(tags: seq<Tag>, key: string, value: string, i: int) {
    && 0 <= i < |tags| && |tags[i]| > 1 && tags[i][0] == key && tags[i][1] == value
    && forall j | i < j < |tags| :: tags[j] == [] || tags[j][0] != key
  }

  ghost predicate LastGiven(tags: seq<Tag>, key: string, value: string) {
    exists i :: GivenAt(tags, key, value, i)
  }

  lemma {:induction false} LastGivenIff(tags: seq<Tag>, key: string, value: string)
    ensures LastTagValue(tags, key) == Some(value) <==> LastGiven(tags, key, value)
  {
    if tags != [] {
      var n := |tags| - 1;
      LastGivenIff(tags[..n], key, value);
      if HasKey(tags[n], key) {
        assert ValueOf(tags[n]) == Some(value) ==> GivenAt(tags, key, value, n);
      } else {
        LastGivenBefore(tags, key, value);
      }
    }
  }

  lemma LastGivenBefore(tags: seq<Tag>, key: string, value: string)
    requires tags != [] && !HasKey(tags[|tags| - 1], key)
    ensures LastGiven(tags, key, value) <==> LastGiven(tags[..|tags| - 1], key, value)
  {
    var before := tags[..|tags| - 1];
    forall i
      ensures GivenAt(tags, key, value, i) <==> GivenAt(before, key, value, i)
    {
    }
  }

  datatype OfferTags = OfferTags(
    name: string,
    domain: string,
    buyer: string,
    price: string,
    proofAddress: string,
    expiration: string)

  /** All six tags, each as last written. */
  function ReadOfferTags(tags: seq<Tag>): Option<OfferTags> {
    var name, domain := LastTagValue(tags, "name"), LastTagValue(tags, "domain");
    var buyer, price := LastTagValue(tags, "p"), LastTagValue(tags, "price");
    var address, expiration := LastTagValue(tags, "proof_address"), LastTagValue(tags, "expiration");
    if name.None? || domain.None? || buyer.None? || price.None? || address.None? || expiration.None? then None
    else Some(OfferTags(name.value, domain.value, buyer.value, price.value, address.value, expiration.value))
  }

  /** Each field is what the last tag with its key gives. */
  ghost predicate TaggedWith(tags: seq<Tag>, t: OfferTags) {
    && LastGiven(tags, "name", t.name) && LastGiven(tags, "domain", t.domain) && LastGiven(tags, "p", t.buyer)
    && LastGiven(tags, "price", t.price) && LastGiven(tags, "proof_address", t.proofAddress)
    && LastGiven(tags, "expiration", t.expiration)
  }

  lemma TaggedIff(tags: seq<Tag>, t: OfferTags)
    ensures ReadOfferTags(tags) == Some(t) <==> TaggedWith(tags, t)
  {
    LastGivenIff(tags, "name", t.name);
    LastGivenIff(tags, "domain", t.domain);
    LastGivenIff(tags, "p", t.buyer);
    LastGivenIff(tags, "price", t.price);
    LastGivenIff(tags, "proof_address", t.proofAddress);
    LastGivenIff(tags, "expiration", t.expiration);
  }

  /** `extract_offer_tags`. */
  method ExtractOfferTags(tags: seq<Tag>) returns (r: Option<OfferTags>)
    ensures r == ReadOfferTags(tags)
    ensures forall t :: r == Some(t) <==> TaggedWith(tags, t)
  {
    var name: Option<string>, domain: Option<string>, buyer: Option<string> := None, None, None;
    var price: Option<string>, proofAddress: Option<string>, expiration: Option<string> := None, None, None;
    for i := 0 to |tags|
      invariant name == LastTagValue(tags[..i], "name") && domain == LastTagValue(tags[..i], "domain")
      invariant buyer == LastTagValue(tags[..i], "p") && price == LastTagValue(tags[..i], "price")
      invariant proofAddress == LastTagValue(tags[..i], "proof_address")
      invariant expiration == LastTagValue(tags[..i], "expiration")
    {
      assert tags[..i + 1][..i] == tags[..i];
      var parts := tags[i];
      if parts == [] {
        continue;
      }
      var key, val := parts[0], ValueOf(parts);
      if key == "name" {
        name := val;
      } else if key == "domain" {
        domain := val;
      } else if key == "p" {
        buyer := val;
      } else if key == "price" {
        price := val;
      } else if key == "proof_address" {
        proofAddress := val;
      } else if key == "expiration" {
        expiration := val;
      }
    }
    assert tags[..|tags|] == tags;
    forall t
      ensures ReadOfferTags(tags) == Some(t) <==> TaggedWith(tags, t)
    {
      TaggedIff(tags, t);
    }
    if name.None? || domain.None? || buyer.None? || price.None? || proofAddress.None? || expiration.None? {
      return None;
    }
    return Some(OfferTags(name.value, domain.value, buyer.value, price.value, proofAddress.value, expiration.value));
  }

  function TrimSlashes(s: string): (r: string)
    ensures r != "" ==> r[|r| - 1] != '/'
    ensures |r| <= |s| && s[..|r|] == r && forall i | |r| <= i < |s| :: s[i] == '/'
  {
    if s != "" && s[|s| - 1] == '/' then TrimSlashes(s[..|s| - 1]) else s
  }

  /** The tag at `i` is the last with this key and a value, and gives this value. */
  ghost predicate ValuedAt(tags: seq<Tag>, key: string, value: string, i: int) {
    && 0 <= i < |tags| && |tags[i]| > 1 && tags[i][0] == key && tags[i][1] == value
    && forall j | i < j < |tags| :: |tags[j]| < 2 || tags[j][0] != key
  }

  ghost predicate LastValued(tags: seq<Tag>, key: string, value: string) {
    exists i :: ValuedAt(tags, key, value, i)
  }

  lemma {:induction false} LastValuedIff(tags: seq<Tag>, key: string, value: string)
    ensures LastValue(tags, key) == Some(value) <==> LastValued(tags, key, value)
  {
    if tags != [] {
      var n := |tags| - 1;
      LastValuedIff(tags[..n], key, value);
      if HasKey(tags[n], key) && |tags[n]| > 1 {
        assert tags[n][1] == value ==> ValuedAt(tags, key, value, n);
      } else {
        LastValuedBefore(tags, key, value);
      }
    }
  }

  lemma LastValuedBefore(tags: seq<Tag>, key: string, value: string)
    requires tags != [] && (|tags[|tags| - 1]| < 2 || tags[|tags| - 1][0] != key)
    ensures LastValued(tags, key, value) <==> LastValued(tags[..|tags| - 1], key, value)
  {
    var before := tags[..|tags| - 1];
    forall i
      ensures ValuedAt(tags, key, value, i) <==> ValuedAt(before, key, value, i)
    {
    }
  }

  /** What a request must match. */
  datatype Expected = Expected(url: string, verb: string, bodyHash: string, bodyEmpty: bool)

  /**
   The tag checks of NIP-98: the last given url and method must match, and the last payload
   tag, if it has a value, must be the body's hash; a body needs one.
   */
  ghost predicate Authorizes(tags: seq<Tag>, want: Expected) {
    var (url, verb, payload) := (LastValue(tags, "u"), LastValue(tags, "method"), LastTagValue(tags, "payload"));
    && url.Some? && TrimSlashes(url.value) == TrimSlashes(want.url)
    && verb.Some? && Lower(verb.value) == Lower(want.verb)
    && if payload.Some? then Lower(payload.value) == Lower(want.bodyHash) else want.bodyEmpty
  }

  /**
   The same by position: the last url and method tags with a value match, and the value of
   the last payload tag is the body's hash; without such a value the body is empty.
   */
  ghost predicate Authorized(tags: seq<Tag>, want: Expected) {
    && (exists url :: LastValued(tags, "u", url) && TrimSlashes(url) == TrimSlashes(want.url))
    && (exists verb :: LastValued(tags, "method", verb) && Lower(verb) == Lower(want.verb))
    && (forall hash :: LastGiven(tags, "payload", hash) ==> Lower(hash) == Lower(want.bodyHash))
    && (want.bodyEmpty || exists hash :: LastGiven(tags, "payload", hash))
  }

  lemma AuthorizedIff(tags: seq<Tag>, want: Expected)
    ensures Authorizes(tags, want) <==> Authorized(tags, want)
  {
    forall url
      ensures LastValue(tags, "u") == Some(url) <==> LastValued(tags, "u", url)
    {
      LastValuedIff(tags, "u", url);
    }
    forall verb
      ensures LastValue(tags, "method") == Some(verb) <==> LastValued(tags, "method", verb)
    {
      LastValuedIff(tags, "method", verb);
    }
    forall hash
      ensures LastTagValue(tags, "payload") == Some(hash) <==> LastGiven(tags, "payload", hash)
    {
      LastGivenIff(tags, "payload", hash);
    }
  }

  /** The tag loop of `verify_nip98` and the three checks after it. */
  method CheckAuthTags(tags: seq<Tag>, want: Expected) returns (ok: bool)
    ensures ok <==> Authorized(tags, want)
  {
    var urlOk, verbOk := false, false;
    var payload: Option<string> := None;
    for i := 0 to |tags|
      invariant urlOk <==> var v := LastValue(tags[..i], "u"); v.Some? && TrimSlashes(v.value) == TrimSlashes(want.url)
      invariant verbOk <==> var v := LastValue(tags[..i], "method"); v.Some? && Lower(v.value) == Lower(want.verb)
      invariant payload == LastTagValue(tags[..i], "payload")
    {
      assert tags[..i + 1][..i] == tags[..i];
      var parts := tags[i];
      if parts != [] && parts[0] == "u" {
        if |parts| > 1 {
          urlOk := TrimSlashes(parts[1]) == TrimSlashes(want.url);
        }
      } else if parts != [] && parts[0] == "method" {
        if |parts| > 1 {
          verbOk := Lower(parts[1]) == Lower(want.verb);
        }
      } else if parts != [] && parts[0] == "payload" {
        payload := ValueOf(parts);
      }
    }
    assert tags[..|tags|] == tags;
    AuthorizedIff(tags, want);
    if !urlOk || !verbOk {
      return false;
    }
    if payload.Some? {
      return Lower(payload.value) == Lower(want.bodyHash);
    }
    return want.bodyEmpty;
  }
}
