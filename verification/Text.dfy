/**
 Text as the authority reads it: trimming, ASCII lowercasing, and decimal numbers
 with the standard library's `parse::<u64>` and `parse::<i64>` conventions.
 */
module Text {
  import opened Wrappers

  const U64_LIMIT: int := 0x1_0000_0000_0000_0000
  const I64_LIMIT: int := 0x8000_0000_0000_0000

  type U64 = u: nat | u < U64_LIMIT

  predicate IsDigit(c: char) {
    '0' <= c <= '9'
  }

  predicate AllDigits(s: string) {
    forall i | 0 <= i < |s| :: IsDigit(s[i])
  }

  function DigitValue(c: char): (d: nat)
    requires IsDigit(c)
    ensures d < 10
  {
    c as int - '0' as int
  }

  function DigitChar(d: nat): (c: char)
    requires d < 10
    ensures IsDigit(c) && DigitValue(c) == d
  {
    ('0' as int + d) as char
  }

  /** The number a run of decimal digits denotes; the empty run denotes zero. */
  function DecimalValue(s: string): nat
    requires AllDigits(s)
  {
    if s == "" then 0 else DecimalValue(s[..|s| - 1]) * 10 + DigitValue(s[|s| - 1])
  }

  /** `str::parse::<u64>`: one optional `+`, at least one digit, and a value that fits. */
  function ParseU64(s: string): (r: Option<nat>)
    ensures r.Some? ==> r.value < 0x1_0000_0000_0000_0000
  {
    var digits := if |s| > 0 && s[0] == '+' then s[1..] else s;
    if digits == "" || !AllDigits(digits) || DecimalValue(digits) >= U64_LIMIT then None
    else Some(DecimalValue(digits))
  }

  /** `str::parse::<i64>`: one optional sign, at least one digit, and a value that fits. */
  function ParseI64(s: string): Option<int> {
    var negative := |s| > 0 && s[0] == '-';
    var digits := if |s| > 0 && (s[0] == '+' || s[0] == '-') then s[1..] else s;
    if digits == "" || !AllDigits(digits) then None
    else if negative then
      var value: int := 0 - (DecimalValue(digits) as int);
      if -I64_LIMIT <= value then Some(value) else None
    else
      var value: int := DecimalValue(digits);
      if value < I64_LIMIT then Some(value) else None
  }

  /** Rust's `u64 as i64`: the upper half wraps to the negative numbers. */
  function AsI64(u: nat): (i: int)
    requires u < U64_LIMIT
    ensures -0x8000_0000_0000_0000 <= i < 0x8000_0000_0000_0000
    ensures i == u || i == u - 0x1_0000_0000_0000_0000
  {
    if u < I64_LIMIT then u else u - U64_LIMIT
  }

  /** The characters with the Unicode White_Space property. */
  predicate IsSpace(c: char) {
    || '\U{0009}' <= c <= '\U{000D}'
    || c in {'\U{0020}', '\U{0085}', '\U{00A0}', '\U{1680}', '\U{2028}', '\U{2029}', '\U{202F}', '\U{205F}', '\U{3000}'}
    || '\U{2000}' <= c <= '\U{200A}'
  }

  /** The white space of Unicode, one character after another. */
  const SPACES: string :=
    "\U{0009}\U{000A}\U{000B}\U{000C}\U{000D}\U{0020}\U{0085}\U{00A0}\U{1680}" +
    "\U{2000}\U{2001}\U{2002}\U{2003}\U{2004}\U{2005}\U{2006}\U{2007}\U{2008}\U{2009}\U{200A}" +
    "\U{2028}\U{2029}\U{202F}\U{205F}\U{3000}"

  lemma SpacesAre(c: char)
    ensures IsSpace(c) <==> c in SPACES
  {
  }

  function TrimStart(s: string): string {
    if s != "" && IsSpace(s[0]) then TrimStart(s[1..]) else s
  }

  function TrimEnd(s: string): string {
    if s != "" && IsSpace(s[|s| - 1]) then TrimEnd(s[..|s| - 1]) else s
  }

  /** `str::trim`. */
  function Trim(s: string): string {
    TrimEnd(TrimStart(s))
  }

  /** The digits are those of the decimal system, in order. */
  lemma DigitIs(c: char)
    ensures IsDigit(c) <==> c in "0123456789"
    ensures IsDigit(c) ==> "0123456789"[DigitValue(c)] == c
  {
  }

  /** A text of digits behind a sign: a plus is passed over, a minus negates; nothing else is read. */
  lemma SignedReads(digits: string)
    requires AllDigits(digits) && digits != ""
    ensures var v: int := DecimalValue(digits) as int;
            && ParseI64(digits) == ParseI64("+" + digits) == (if v < 0x8000_0000_0000_0000 then Some(v) else None)
            && ParseI64("-" + digits) == (if v <= 0x8000_0000_0000_0000 then Some(0 - v) else None)
            && ParseU64(digits) == ParseU64("+" + digits) ==
               (if v < 0x1_0000_0000_0000_0000 then Some(DecimalValue(digits)) else None)
  {
    assert ("+" + digits)[1..] == digits && ("-" + digits)[1..] == digits;
    assert IsDigit(digits[0]);
  }

  /** Only digits are read, behind one sign at most; without a minus for unsigned numbers. */
  lemma SignedNeeded(s: string)
    ensures ParseI64(s).Some? ==>
              exists d :: AllDigits(d) && d != "" && (s == d || s == "+" + d || s == "-" + d)
    ensures ParseU64(s).Some? ==>
              exists d :: AllDigits(d) && d != "" && (s == d || s == "+" + d)
  {
    if s != "" {
      assert s == [s[0]] + s[1..];
    }
  }

  predicate AllSpace(s: string) {
    forall i | 0 <= i < |s| :: IsSpace(s[i])
  }

  /** No space at either end. */
  predicate Tight(s: string) {
    s != "" ==> !IsSpace(s[0]) && !IsSpace(s[|s| - 1])
  }

  lemma {:induction false} TrimStartSplits(s: string) returns (a: string)
    ensures s == a + TrimStart(s) && AllSpace(a)
    ensures TrimStart(s) != "" ==> !IsSpace(TrimStart(s)[0])
  {
    a := "";
    if s != "" && IsSpace(s[0]) {
      a := TrimStartSplits(s[1..]);
      a := [s[0]] + a;
    }
  }

  lemma {:induction false} TrimEndSplits(s: string) returns (b: string)
    ensures s == TrimEnd(s) + b && AllSpace(b)
    ensures TrimEnd(s) != "" ==> !IsSpace(TrimEnd(s)[|TrimEnd(s)| - 1])
  {
    b := "";
    if s != "" && IsSpace(s[|s| - 1]) {
      b := TrimEndSplits(s[..|s| - 1]);
      assert s == s[..|s| - 1] + [s[|s| - 1]];
      b := b + [s[|s| - 1]];
    }
  }

  /** Trimming takes spaces from both ends and leaves none there. */
  lemma TrimSplits(s: string) returns (a: string, b: string)
    ensures s == a + Trim(s) + b && AllSpace(a) && AllSpace(b) && Tight(Trim(s))
  {
    a := TrimStartSplits(s);
    b := TrimEndSplits(TrimStart(s));
    if Trim(s) != "" {
      assert TrimStart(s)[0] == Trim(s)[0];
    }
  }

  /** A text with no space at either end is left alone. */
  lemma TrimKeeps(s: string)
    requires Tight(s)
    ensures Trim(s) == s
  {
  }

  predicate IsUpper(c: char) {
    'A' <= c <= 'Z'
  }

  function LowerChar(c: char): char {
    if IsUpper(c) then (c as int + 32) as char else c
  }

  /** Lowercasing of the ASCII letters. */
  function Lower(s: string): (r: string)
    ensures |r| == |s|
    ensures forall i | 0 <= i < |s| :: r[i] == LowerChar(s[i])
  {
    seq(|s|, i requires 0 <= i < |s| => LowerChar(s[i]))
  }

  predicate IsLower(s: string) {
    forall i | 0 <= i < |s| :: !IsUpper(s[i])
  }

  lemma LowerIsCanonical(s: string)
    ensures IsLower(Lower(s))
    ensures IsLower(s) <==> Lower(s) == s
  {
    if Lower(s) == s {
      forall i | 0 <= i < |s| ensures !IsUpper(s[i]) {
        assert Lower(s)[i] == LowerChar(s[i]);
      }
    }
  }

  lemma LowerKeepsSpaces(c: char)
    ensures IsSpace(LowerChar(c)) == IsSpace(c)
  {
  }

  /** What has been trimmed and lowercased stays as it is. */
  lemma NormalTwice(s: string)
    ensures Lower(Trim(Lower(Trim(s)))) == Lower(Trim(s))
  {
    var t := Lower(Trim(s));
    var _, _ := TrimSplits(s);
    if t != "" {
      LowerKeepsSpaces(Trim(s)[0]);
      LowerKeepsSpaces(Trim(s)[|t| - 1]);
    }
    TrimKeeps(t);
    LowerIsCanonical(Trim(s));
    LowerIsCanonical(t);
  }
}
