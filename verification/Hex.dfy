/** Bytes and their hexadecimal spelling. */
module Hex {
  import opened Wrappers
  import opened Text

  type Byte = b: nat | b < 256

  function DigitOf(c: char): (d: Option<nat>)
    ensures d.Some? ==> d.value < 16
  {
    if '0' <= c <= '9' then Some(c as int - '0' as int)
    else if 'a' <= c <= 'f' then Some(c as int - 'a' as int + 10)
    else if 'A' <= c <= 'F' then Some(c as int - 'A' as int + 10)
    else None
  }

  /** `valid_pubkey_hex`: 64 lowercase digits. */
  predicate ValidPubkey(key: string) {
    |key| == 64 && forall i | 0 <= i < 64 :: DigitOf(key[i]).Some? && !IsUpper(key[i])
  }

  function CharOf(d: nat): (c: char)
    requires d < 16
    ensures DigitOf(c) == Some(d) && !IsUpper(c)
  {
    if d < 10 then ('0' as int + d) as char else ('a' as int + d - 10) as char
  }

  /** Lowercase hexadecimal, two digits a byte. */
  function Encode(bs: seq<Byte>): (s: string)
    ensures |s| == 2 * |bs|
  {
    if bs == [] then ""
    else Encode(bs[..|bs| - 1]) + [CharOf(bs[|bs| - 1] / 16), CharOf(bs[|bs| - 1] % 16)]
  }

  /** The byte spelled by two digits. */
  function ByteOf(hi: char, lo: char): Option<Byte> {
    if DigitOf(hi).Some? && DigitOf(lo).Some? then Some(16 * DigitOf(hi).value + DigitOf(lo).value) else None
  }

  /** `hex::decode`: an even number of hexadecimal digits of either case. */
  function Decode(s: string): (r: Option<seq<Byte>>)
    ensures r.Some? ==> |s| == 2 * |r.value|
  {
    if s == "" then Some([])
    else if |s| == 1 then None
    else Append(Decode(s[..|s| - 2]), ByteOf(s[|s| - 2], s[|s| - 1]))
  }

  function Append(bs: Option<seq<Byte>>, b: Option<Byte>): Option<seq<Byte>> {
    if bs.Some? && b.Some? then Some(bs.value + [b.value]) else None
  }

  lemma {:induction false} DecodeInvertsEncode(bs: seq<Byte>)
    ensures Decode(Encode(bs)) == Some(bs)
  {
    if bs != [] {
      var n := |bs| - 1;
      DecodeInvertsEncode(bs[..n]);
      assert Encode(bs)[..2 * n] == Encode(bs[..n]);
      assert bs == bs[..n] + [bs[n]];
    }
  }

  const DIGITS: string := "0123456789abcdef"

  lemma CharOfIs(d: nat)
    requires d < 16
    ensures CharOf(d) == DIGITS[d]
  {
  }

  /** Two lowercase digits a byte, the higher one first. */
  lemma {:induction false} EncodeSpells(bs: seq<Byte>, i: nat)
    requires i < |bs|
    ensures Encode(bs)[2 * i] == DIGITS[bs[i] / 16] && Encode(bs)[2 * i + 1] == DIGITS[bs[i] % 16]
  {
    var n := |bs| - 1;
    if i < n {
      EncodeSpells(bs[..n], i);
    } else {
      CharOfIs(bs[n] / 16);
      CharOfIs(bs[n] % 16);
    }
  }

  lemma EncodeSnoc(bs: seq<Byte>, b: Byte)
    ensures Encode(bs + [b]) == Encode(bs) + [CharOf(b / 16), CharOf(b % 16)]
  {
    assert (bs + [b])[..|bs|] == bs;
  }

  lemma DecodeSnoc(s: string, c: char, d: char)
    ensures Decode(s + [c, d]) == Append(Decode(s), ByteOf(c, d))
  {
    var t := s + [c, d];
    assert t[..|t| - 2] == s && t[|t| - 2] == c && t[|t| - 1] == d;
  }

  /** A byte has one lowercase spelling. */
  lemma ByteSpelling(c: char, d: char)
    requires !IsUpper(c) && !IsUpper(d) && ByteOf(c, d).Some?
    ensures CharOf(ByteOf(c, d).value / 16) == c && CharOf(ByteOf(c, d).value % 16) == d
  {
    ByteDigits(DigitOf(c).value, DigitOf(d).value);
    LowerDigit(c);
    LowerDigit(d);
  }

  lemma {:induction false} EncodeInvertsDecode(s: string)
    requires IsLower(s) && Decode(s).Some?
    ensures Encode(Decode(s).value) == s
  {
    if s != "" {
      var n := |s| - 2;
      var head, c, d := s[..n], s[n], s[n + 1];
      assert s == head + [c, d];
      DecodeSnoc(head, c, d);
      EncodeInvertsDecode(head);
      EncodeSnoc(Decode(head).value, ByteOf(c, d).value);
      ByteSpelling(c, d);
    }
  }

  lemma ByteDigits(hi: nat, lo: nat)
    requires lo < 16
    ensures (16 * hi + lo) / 16 == hi && (16 * hi + lo) % 16 == lo
  {
  }

  lemma LowerDigit(c: char)
    requires !IsUpper(c) && DigitOf(c).Some?
    ensures CharOf(DigitOf(c).value) == c
  {
  }

  /** Case does not matter to what a spelling decodes to. */
  lemma {:induction false} DecodeIgnoresCase(s: string)
    ensures Decode(Lower(s)) == Decode(s)
  {
    if |s| > 1 {
      var n := |s| - 2;
      DecodeIgnoresCase(s[..n]);
      assert Lower(s)[..n] == Lower(s[..n]);
      assert DigitOf(LowerChar(s[n])) == DigitOf(s[n]);
      assert DigitOf(LowerChar(s[n + 1])) == DigitOf(s[n + 1]);
    } else if |s| == 1 {
      assert |Lower(s)| == 1;
    } else {
      assert Lower(s) == s;
    }
  }

  /** Lowercasing makes the spelling canonical: decoding is injective on lowercased hex. */
  lemma DecodeInjective(s: string, t: string)
    requires Decode(s).Some?
    ensures Decode(s) == Decode(t) <==> Lower(s) == Lower(t)
  {
    LowerIsCanonical(s);
    LowerIsCanonical(t);
    DecodeIgnoresCase(s);
    DecodeIgnoresCase(t);
    if Decode(s) == Decode(t) {
      EncodeInvertsDecode(Lower(s));
      EncodeInvertsDecode(Lower(t));
    }
  }
}
