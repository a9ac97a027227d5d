/**
 The relay plugin's npub decoder (plugin/floonet_writepolicy.py, `_npub_to_hex`), against
 the encoding of BIP-173 and NIP-19.
 */
module Npub {
  import opened Wrappers
  import opened Text
  import opened Radix
  import opened Polymod
  import Hex

  const HRP: string := "npub"

  /** The human-readable part, expanded for the checksum: high bits, zero, low bits. */
  const EXPANDED: seq<nat> := [3, 3, 3, 3, 0, 14, 16, 21, 2]

  function Upper(s: string): (r: string)
    ensures |r| == |s|
    ensures forall i | 0 <= i < |s| :: r[i] == UpperChar(s[i])
  {
    seq(|s|, i requires 0 <= i < |s| => UpperChar(s[i]))
  }

  function UpperChar(c: char): char {
    if 'a' <= c <= 'z' then (c as int - 32) as char else c
  }

  /** The Kelvin sign, the one character beyond ASCII that lowercases to a single ASCII letter. */
  const KELVIN: char := '\U{212A}'

  function FoldChar(c: char): char {
    if c == KELVIN then 'k' else LowerChar(c)
  }

  /**
   Python's `lower`, as far as a decoder can tell: no other character beyond ASCII becomes
   ASCII alone, so a text with one is refused, however it is lowercased.
   */
  function Fold(s: string): (r: string)
    ensures |r| == |s|
    ensures forall i | 0 <= i < |s| :: r[i] == FoldChar(s[i])
  {
    seq(|s|, i requires 0 <= i < |s| => FoldChar(s[i]))
  }

  predicate IsAscii(s: string) {
    forall i | 0 <= i < |s| :: s[i] < '\U{0080}'
  }

  predicate MixedCase(s: string) {
    s != Fold(s) && s != Upper(s)
  }

  /** A lowercase and an uppercase letter of the ASCII, the Kelvin sign counting as uppercase. */
  ghost predicate TwoCases(s: string) {
    && (exists i | 0 <= i < |s| :: 'A' <= s[i] <= 'Z' || s[i] == KELVIN)
    && (exists i | 0 <= i < |s| :: 'a' <= s[i] <= 'z')
  }

  lemma MixedIff(s: string)
    ensures MixedCase(s) <==> TwoCases(s)
  {
    if s != Fold(s) {
      var i :| 0 <= i < |s| && s[i] != Fold(s)[i];
    }
    if s != Upper(s) {
      var i :| 0 <= i < |s| && s[i] != Upper(s)[i];
    }
    if i :| 0 <= i < |s| && ('A' <= s[i] <= 'Z' || s[i] == KELVIN) {
      assert Fold(s)[i] != s[i];
    }
    if i :| 0 <= i < |s| && 'a' <= s[i] <= 'z' {
      assert Upper(s)[i] != s[i];
    }
  }

  /** Lowercasing moves the 26 letters by 32 places and the Kelvin sign to k, and nothing else. */
  lemma FoldIs(c: char)
    ensures 'A' <= c <= 'Z' ==> FoldChar(c) as int == c as int + 32
    ensures c == KELVIN ==> FoldChar(c) == 'k'
    ensures !('A' <= c <= 'Z') && c != KELVIN ==> FoldChar(c) == c
  {
  }

  /** The character at a position of the bech32 character set. */
  function CharAt(v: nat): (c: char)
    requires v < 32
    ensures SymbolOf(c) == Some(v)
  {
    match v
    case 0 => 'q' case 1 => 'p' case 2 => 'z' case 3 => 'r'
    case 4 => 'y' case 5 => '9' case 6 => 'x' case 7 => '8'
    case 8 => 'g' case 9 => 'f' case 10 => '2' case 11 => 't'
    case 12 => 'v' case 13 => 'd' case 14 => 'w' case 15 => '0'
    case 16 => 's' case 17 => '3' case 18 => 'j' case 19 => 'n'
    case 20 => '5' case 21 => '4' case 22 => 'k' case 23 => 'h'
    case 24 => 'c' case 25 => 'e' case 26 => '6' case 27 => 'm'
    case 28 => 'u' case 29 => 'a' case 30 => '7' case 31 => 'l'
  }

  /** `_BECH32_CHARSET.index(c)`, or nothing for a foreign character. */
  function SymbolOf(c: char): (r: Option<nat>)
    ensures r.Some? ==> r.value < 32
  {
    match c
    case 'q' => Some(0) case 'p' => Some(1) case 'z' => Some(2) case 'r' => Some(3)
    case 'y' => Some(4) case '9' => Some(5) case 'x' => Some(6) case '8' => Some(7)
    case 'g' => Some(8) case 'f' => Some(9) case '2' => Some(10) case 't' => Some(11)
    case 'v' => Some(12) case 'd' => Some(13) case 'w' => Some(14) case '0' => Some(15)
    case 's' => Some(16) case '3' => Some(17) case 'j' => Some(18) case 'n' => Some(19)
    case '5' => Some(20) case '4' => Some(21) case 'k' => Some(22) case 'h' => Some(23)
    case 'c' => Some(24) case 'e' => Some(25) case '6' => Some(26) case 'm' => Some(27)
    case 'u' => Some(28) case 'a' => Some(29) case '7' => Some(30) case 'l' => Some(31)
    case _ => None
  }

  const CHARSET: string := "qpzry9x8gf2tvdw0s3jn54khce6mua7l"

  /** The symbols are the positions in the character set of BIP-173. */
  lemma SymbolIsPosition(v: nat)
    requires v < 32
    ensures CharAt(v) == CHARSET[v]
  {
  }

  lemma CharAtInverts(c: char)
    requires SymbolOf(c).Some?
    ensures CharAt(SymbolOf(c).value) == c
  {
  }

  // ---------------------------------------------------------------------------
  // The encoding

  /** The bits of the key, four zero bits of padding, cut into 52 five-bit symbols. */
  function KeySymbols(key: seq<nat>): (d: seq<nat>)
    requires |key| == 32
    ensures |d| == 52 && IsSymbols(d)
  {
    assert Pow(2, 5) == 32 by { PowTwo(); }
    Group(5, 52, Bits(8, key) + [0, 0, 0, 0])
  }

  function Spell(d: seq<nat>): (s: string)
    requires IsSymbols(d)
    ensures |s| == |d| && forall i | 0 <= i < |d| :: s[i] == CharAt(d[i])
  {
    seq(|d|, i requires 0 <= i < |d| => CharAt(d[i]))
  }

  /** The npub of a 32-byte key. */
  function Encode(key: seq<nat>): string
    requires |key| == 32
  {
    HRP + "1" + Spell(KeySymbols(key) + Checksum(EXPANDED + KeySymbols(key)))
  }

  ghost predicate IsKey(key: seq<nat>) {
    |key| == 32 && IsDigits(256, key)
  }

  lemma EncodeShape(key: seq<nat>)
    requires IsKey(key)
    ensures var d := KeySymbols(key) + Checksum(EXPANDED + KeySymbols(key));
            |d| == 58 && Encode(key) == HRP + "1" + Spell(d)
  {
  }

  lemma SpellInjective(c: seq<nat>, d: seq<nat>)
    requires IsSymbols(c) && IsSymbols(d) && Spell(c) == Spell(d)
    ensures c == d
  {
    assert |c| == |d|;
    forall i | 0 <= i < |c| ensures c[i] == d[i] {
      assert Spell(c)[i] == Spell(d)[i];
      assert SymbolOf(Spell(c)[i]) == Some(c[i]) && SymbolOf(Spell(d)[i]) == Some(d[i]);
    }
  }

  /** The key symbols are the 52 base-32 digits of sixteen times the key's number. */
  lemma KeySymbolsAre(key: seq<nat>, d: seq<nat>)
    requires IsKey(key) && |d| == 52 && IsSymbols(d)
    ensures d == KeySymbols(key) <==> Val(32, d) == Val(256, key) * 16
  {
    PowTwo();
    var bs := Bits(8, key) + [0, 0, 0, 0];
    BitsOfGroup(5, 52, bs);
    BitsKeepValue(5, KeySymbols(key));
    BitsKeepValue(8, key);
    ValConcat(2, Bits(8, key), [0, 0, 0, 0]);
    assert Val(2, [0, 0, 0, 0]) == 0 by { ValOfZeros(); }
    assert Val(32, KeySymbols(key)) == Val(256, key) * 16;
    if Val(32, d) == Val(256, key) * 16 {
      ValInjective(32, d, KeySymbols(key));
    }
  }

  lemma ValOfZeros()
    ensures Val(2, [0, 0, 0, 0]) == 0
  {
    ValOfOne(2, 0);
    ValConcat(2, [0], [0]);
    ValConcat(2, [0, 0], [0, 0]);
    assert [0] + [0] == [0, 0] && [0, 0] + [0, 0] == [0, 0, 0, 0];
  }

  /** Which spelled symbols are the encoding of which key. */
  lemma EncodingIff(d: seq<nat>, key: seq<nat>)
    requires IsSymbols(d) && IsKey(key)
    ensures HRP + "1" + Spell(d) == Encode(key) <==>
              Carries(d, key)
  {
    var ks := KeySymbols(key);
    var e := ks + Checksum(EXPANDED + ks);
    EncodeShape(key);
    var t, u := HRP + "1" + Spell(d), HRP + "1" + Spell(e);
    if t == u {
      assert t[5..] == Spell(d) && u[5..] == Spell(e);
      SpellInjective(d, e);
    }
    if |d| == 58 {
      KeySymbolsAre(key, d[..52]);
      CheckedIff(d);
      assert d == e <==> d[..52] == e[..52] && d[52..] == e[52..] by {
        assert d == d[..52] + d[52..] && e == e[..52] + e[52..];
      }
    }
  }

  /** The last six symbols are the checksum of the others, or the register does not end at 1. */
  lemma CheckedIff(d: seq<nat>)
    requires |d| == 58 && IsSymbols(d)
    ensures Absorb(1, EXPANDED + d) == 1 <==> d[52..] == Checksum(EXPANDED + d[..52])
  {
    assert EXPANDED + d == (EXPANDED + d[..52]) + d[52..];
    ChecksumUnique(EXPANDED + d[..52], d[52..]);
  }

  // ---------------------------------------------------------------------------
  // The decoder

  /** `s.rfind(c)`. */
  function RFind(s: string, c: char): (i: int)
    ensures -1 <= i < |s|
    ensures i >= 0 ==> s[i] == c
    ensures forall j | i < j < |s| :: s[j] != c
  {
    if s == "" then -1 else if s[|s| - 1] == c then |s| - 1 else RFind(s[..|s| - 1], c)
  }

  /** `[ord(c) >> 5 for c in hrp] + [0] + [ord(c) & 31 for c in hrp]`. */
  function Expand(hrp: string): seq<nat> {
    seq(|hrp|, i requires 0 <= i < |hrp| => hrp[i] as int / 32) + [0]
    + seq(|hrp|, i requires 0 <= i < |hrp| => hrp[i] as int % 32)
  }

  /** `1 << k`, for the few bits the loop holds back. */
  function Two(k: nat): (p: nat)
    requires k <= 12
    ensures p > 0
  {
    match k
    case 0 => 1 case 1 => 2 case 2 => 4 case 3 => 8 case 4 => 16 case 5 => 32 case 6 => 64
    case 7 => 128 case 8 => 256 case 9 => 512 case 10 => 1024 case 11 => 2048 case 12 => 4096
  }

  /** Every character's charset index, or nothing if one is foreign. */
  method Symbols(text: string) returns (r: Option<seq<nat>>)
    ensures r.Some? ==> IsSymbols(r.value) && Spell(r.value) == text
    ensures r.None? ==> exists i | 0 <= i < |text| :: SymbolOf(text[i]).None?
  {
    var data: seq<nat> := [];
    for i := 0 to |text|
      invariant IsSymbols(data) && |data| == i && Spell(data) == text[..i]
    {
      var index := SymbolOf(text[i]);
      if index.None? {
        return None;
      }
      CharAtInverts(text[i]);
      data := data + [index.value];
      assert text[..i + 1] == text[..i] + [text[i]];
    }
    assert text[..|text|] == text;
    return Some(data);
  }

  lemma Spread(whole: nat, p: nat, low: nat, v: nat)
    ensures (whole * p + low) * 32 + v == whole * (32 * p) + (low * 32 + v)
  {
  }

  lemma TwoSteps(bits: nat)
    requires bits < 8
    ensures Two(bits + 5) == 32 * Two(bits)
    ensures bits >= 3 ==> 32 * Two(bits) == 256 * Two(bits - 3) && Two(bits - 3) <= 16
  {
  }

  lemma ByteOut(whole: nat, low: nat, p: nat)
    requires p > 0 && low < 256 * p
    ensures var acc := whole * (256 * p) + low;
            acc == (whole * 256 + acc / p % 256) * p + acc % p && acc % p < p
  {
    var q, r := low / p, low % p;
    DivLess(low, p, 256);
    DivMod(low, p);
    Gather(whole, q, p);
    Quotient(whole * (256 * p) + low, whole * 256 + q, r, p);
    LowByte(whole, q);
  }

  lemma DivMod(n: nat, p: nat)
    requires p > 0
    ensures n == n / p * p + n % p && n % p < p
  {
  }

  lemma Quotient(n: nat, q: nat, r: nat, p: nat)
    requires r < p && n == q * p + r
    ensures n / p == q && n % p == r
  {
    DivMod(n, p);
    DivUnique(n / p, n % p, q, r, p);
  }

  lemma LowByte(whole: nat, q: nat)
    requires q < 256
    ensures (whole * 256 + q) % 256 == q
  {
  }

  lemma Gather(whole: nat, q: nat, p: nat)
    ensures whole * (256 * p) + q * p == (whole * 256 + q) * p
  {
  }

  /** `for value in data[:-6]`: five bits in, eight bits out. */
  method Regroup(data: seq<nat>) returns (acc: nat, bits: nat, out: seq<nat>)
    requires IsSymbols(data)
    ensures bits < 8 && 8 * |out| + bits == 5 * |data| && IsDigits(256, out)
    ensures acc == Val(32, data)
    ensures acc == Val(256, out) * Two(bits) + acc % Two(bits)
  {
    acc, bits, out := 0, 0, [];
    ghost var low: nat := 0;
    for n := 0 to |data|
      invariant bits < 8 && 8 * |out| + bits == 5 * n && IsDigits(256, out)
      invariant acc == Val(32, data[..n])
      invariant low < Two(bits) && acc == Val(256, out) * Two(bits) + low
    {
      NextSymbol(acc, Val(256, out), low, bits, data[n]);
      ReadOne(data, n);
      acc := acc * 32 + data[n];
      low := low * 32 + data[n];
      bits := bits + 5;
      if bits >= 8 {
        bits := bits - 8;
        var byte := acc / Two(bits) % 256;
        PutOne(out, byte);
        out := out + [byte];
        low := acc % Two(bits);
      }
    }
    assert data[..|data|] == data;
    Remainder(Val(256, out), Two(bits), low);
  }

  /**
   One turn of the loop. The bytes put out so far and the bits held back together spell
   the number read so far.
   */
  lemma NextSymbol(acc: nat, whole: nat, low: nat, bits: nat, v: Symbol)
    requires bits < 8 && low < Two(bits) && acc == whole * Two(bits) + low
    ensures bits < 3 ==> acc * 32 + v == whole * Two(bits + 5) + (low * 32 + v) && low * 32 + v < Two(bits + 5)
    ensures bits >= 3 ==>
              var (next, p) := (acc * 32 + v, Two(bits - 3));
              next == (whole * 256 + next / p % 256) * p + next % p && next % p < p
  {
    Spread(whole, Two(bits), low, v);
    TwoSteps(bits);
    if bits >= 3 {
      ByteOut(whole, low * 32 + v, Two(bits - 3));
    }
  }

  lemma ReadOne(data: seq<nat>, n: nat)
    requires n < |data|
    ensures Val(32, data[..n + 1]) == Val(32, data[..n]) * 32 + data[n]
  {
    assert data[..n + 1][..n] == data[..n];
  }

  lemma PutOne(out: seq<nat>, byte: nat)
    requires IsDigits(256, out) && byte < 256
    ensures Val(256, out + [byte]) == Val(256, out) * 256 + byte && IsDigits(256, out + [byte])
  {
    assert (out + [byte])[..|out|] == out;
  }

  lemma Remainder(q: nat, p: nat, low: nat)
    requires low < p
    ensures (q * p + low) % p == low
  {
    var a := q * p + low;
    assert a == a / p * p + a % p;
    DivUnique(q, low, a / p, a % p, p);
  }

  /** The symbols after the separator are those of the npub of `key`. */
  ghost predicate Carries(d: seq<nat>, key: seq<nat>) {
    |d| == 58 && Absorb(1, EXPANDED + d) == 1 && Val(32, d[..52]) == Val(256, key) * 16
  }

  /** Checksum, regrouping and padding: the second half of `_npub_to_hex`. */
  method KeyOfSymbols(data: seq<nat>) returns (r: Option<seq<nat>>)
    requires IsSymbols(data) && |data| >= 6
    ensures r.Some? ==> IsKey(r.value) && Carries(data, r.value)
    ensures forall key | IsKey(key) && Carries(data, key) :: r == Some(key)
  {
    assert Expand(HRP) == EXPANDED;
    var chk := BechPolymod(Expand(HRP) + data);
    if chk != 1 {
      return None;
    }
    var acc, bits, out := Regroup(data[..|data| - 6]);
    forall key | IsKey(key) && Carries(data, key)
      ensures bits == 4 && |out| == 32 && acc % 16 == 0 && out == key
    {
      Remainder(Val(256, key), 16, 0);
      DivUnique(Val(256, key), 0, Val(256, out), acc % 16, 16);
      ValInjective(256, key, out);
    }
    if bits >= 5 || acc % Two(bits) != 0 {
      return None;
    }
    if |out| != 32 {
      return None;
    }
    return Some(out);
  }

  /**
   `_npub_to_hex`. The text is accepted exactly when, lowercased, it is the npub of a
   32-byte key, in one case throughout; the result is that key in lowercase hex.
   */
  method NpubToHex(text: string) returns (r: Option<string>)
    ensures r.Some? ==> !TwoCases(text) && IsNpubOf(Fold(text), r.value)
    ensures !TwoCases(text) ==>
      forall key | IsKey(key) && Fold(text) == Encode(key) :: r == Some(Hex.Encode(key))
  {
    MixedIff(text);
    if MixedCase(text) {
      return None;
    }
    var s := Fold(text);
    forall key | IsKey(key) && s == Encode(key)
      ensures |s| == 63 && RFind(s, '1') == 4 && s[..4] == HRP
      ensures forall i | 5 <= i < 63 :: SymbolOf(s[i]).Some?
    {
      EncodedText(key);
    }
    var pos := RFind(s, '1');
    if pos < 1 || pos + 7 > |s| {
      return None;
    }
    var hrp, dataPart := s[..pos], s[pos + 1..];
    if hrp != HRP {
      return None;
    }
    var symbols := Symbols(dataPart);
    if symbols.None? {
      return None;
    }
    var data := symbols.value;
    assert s == HRP + "1" + Spell(data);
    forall key | IsKey(key)
      ensures s == Encode(key) <==> Carries(data, key)
    {
      EncodingIff(data, key);
    }
    var key := KeyOfSymbols(data);
    return if key.None? then None else Some(Hex.Encode(key.value));
  }

  /** `s` is the npub of the key that `hex` spells. */
  ghost predicate IsNpubOf(s: string, hex: string) {
    exists key :: IsKey(key) && s == Encode(key) && hex == Hex.Encode(key)
  }

  lemma EncodedText(key: seq<nat>)
    requires IsKey(key)
    ensures var s := Encode(key);
            && |s| == 63 && s[..4] == HRP && RFind(s, '1') == 4
            && forall i | 5 <= i < 63 :: SymbolOf(s[i]).Some?
  {
    var d := KeySymbols(key) + Checksum(EXPANDED + KeySymbols(key));
    var s := Encode(key);
    EncodeShape(key);
    forall i | 5 <= i < 63 ensures SymbolOf(s[i]).Some? {
      assert s[i] == Spell(d)[i - 5];
    }
    assert s[4] == '1' && s[..4] == HRP;
  }

  /** An npub is its own lowercasing, so decoding it as it stands gives back the key. */
  lemma EncodeIsLower(key: seq<nat>)
    requires IsKey(key)
    ensures Fold(Encode(key)) == Encode(key) && !MixedCase(Encode(key))
  {
    var s := Encode(key);
    EncodedText(key);
    forall i | 0 <= i < |s| ensures !IsUpper(s[i]) {
      if i < 5 {
        assert s[i] == "npub1"[i];
      } else {
        assert SymbolOf(s[i]).Some?;
      }
    }
    LowerIsCanonical(s);
  }

  /** What is accepted is ASCII unless it spells a K as the Kelvin sign, and then it is uppercase. */
  lemma AcceptedIsAsciiIff(text: string, key: seq<nat>)
    requires IsKey(key) && !MixedCase(text) && Fold(text) == Encode(key)
    ensures IsAscii(text) <==> KELVIN !in text
    ensures IsAscii(text) ==> Fold(text) == Lower(text)
    ensures KELVIN in text ==> text == Upper(text)
  {
    EncodedIsAscii(key);
    forall i | 0 <= i < |text|
      ensures text[i] < '\U{0080}' || text[i] == KELVIN
    {
      assert Fold(text)[i] == FoldChar(text[i]);
    }
    if KELVIN in text {
      var i :| 0 <= i < |text| && text[i] == KELVIN;
      assert Fold(text)[i] != text[i];
    }
  }

  /** The decoder takes such texts: an uppercase npub with any K so spelled. */
  lemma KelvinAccepted(key: seq<nat>, i: nat)
    requires IsKey(key) && i < |Encode(key)| && Encode(key)[i] == 'k'
    ensures var text := Upper(Encode(key))[i := KELVIN];
            !IsAscii(text) && !MixedCase(text) && Fold(text) == Encode(key)
  {
    var s := Encode(key);
    var text := Upper(s)[i := KELVIN];
    EncodedIsAscii(key);
    EncodeIsLower(key);
    assert text[i] == KELVIN;
    forall j | 0 <= j < |text|
      ensures Upper(text)[j] == text[j] && Fold(text)[j] == s[j]
    {
      assert Fold(s)[j] == s[j];
    }
    assert Upper(text) == text && Fold(text) == s;
  }

  lemma EncodedIsAscii(key: seq<nat>)
    requires IsKey(key)
    ensures IsAscii(Encode(key))
  {
    EncodeShape(key);
    var d := KeySymbols(key) + Checksum(EXPANDED + KeySymbols(key));
    assert forall v: nat | v < 32 :: CharAt(v) < '\U{0080}';
    forall i | 0 <= i < |Encode(key)|
      ensures Encode(key)[i] < '\U{0080}'
    {
      if i >= 5 {
        assert Encode(key)[i] == Spell(d)[i - 5];
      }
    }
  }
}
