/**
 The worked example of NIP-19, symbol by symbol. Its register is followed in 30-bit words,
 with the shifts, masks and exclusive ors of plugin/floonet_writepolicy.py:148-156.
 */
module Nip19 {
  import opened Bip173
  import opened Radix
  import Npub
  import Polymod

  type Word = bv30

  // ---------------------------------------------------------------------------
  // The register as a word

  /** The element that the five low bits stand for. */
  function LowSymbol(x: Word): Element {
    Element(x & 16 != 0, x & 8 != 0, x & 4 != 0, x & 2 != 0, x & 1 != 0)
  }

  type Place = k: nat | k <= 25

  /** The symbol that starts at a place. */
  function SymbolAt(x: Word, k: Place): Element {
    LowSymbol(x >> k)
  }

  function SixBy(symbolAt: (Word, Place) -> Element, x: Word): Six {
    Six(symbolAt(x, 25), symbolAt(x, 20), symbolAt(x, 15), symbolAt(x, 10), symbolAt(x, 5), symbolAt(x, 0))
  }

  function Unpack(x: Word): Six {
    SixBy(SymbolAt, x)
  }

  function Xored(a: Word, b: Word): Word {
    a ^ b
  }

  /** The sum of the words chosen by the bits of an element, lowest bit first. */
  function Chosen<T>(t: Element, w0: T, w1: T, w2: T, w3: T, w4: T, add: (T, T) -> T, zero: T): T {
    add(if t.b0 then w0 else zero, add(if t.b1 then w1 else zero, add(if t.b2 then w2 else zero,
      add(if t.b3 then w3 else zero, add(if t.b4 then w4 else zero, zero)))))
  }

  function Moved(x: Word, v: Word): Word {
    ((x & 0x1FF_FFFF) << 5) ^ v
  }

  /** The five top bits. */
  function Top(x: Word): Element {
    Element(x & 0x2000_0000 != 0, x & 0x1000_0000 != 0, x & 0x800_0000 != 0, x & 0x400_0000 != 0, x & 0x200_0000 != 0)
  }

  /** The generator words of the five top bits. */
  function Fed(x: Word): Word {
    Chosen(Top(x), 0x3B6A57B2, 0x26508E6D, 0x1EA119FA, 0x3D4233DD, 0x2A1462B3, Xored, 0)
  }

  function RoundBy(add: (Word, Word) -> Word, moved: (Word, Word) -> Word, fed: Word -> Word, x: Word, v: Word): Word {
    add(moved(x, v), fed(x))
  }

  /** One turn of the loop in `_bech32_polymod`. */
  function Round(x: Word, v: Word): Word {
    RoundBy(Xored, Moved, Fed, x, v)
  }

  lemma MaskXor(a: Word, b: Word, mask: Word)
    requires mask & (mask - 1) == 0
    ensures ((a ^ b) & mask != 0) == ((a & mask != 0) != (b & mask != 0))
  {
  }

  lemma LowSymbolXor(a: Word, b: Word)
    ensures LowSymbol(a ^ b) == Plus(LowSymbol(a), LowSymbol(b))
  {
    MaskXor(a, b, 16);
    MaskXor(a, b, 8);
    MaskXor(a, b, 4);
    MaskXor(a, b, 2);
    MaskXor(a, b, 1);
  }

  lemma SymbolAtXor(a: Word, b: Word, k: Place)
    ensures SymbolAt(Xored(a, b), k) == Plus(SymbolAt(a, k), SymbolAt(b, k))
  {
    ShiftedXor(a, b, k);
    LowSymbolXor(a >> k, b >> k);
  }

  lemma ShiftedXor(a: Word, b: Word, k: Place)
    ensures (a ^ b) >> k == (a >> k) ^ (b >> k)
  {
  }

  ghost predicate LinearAt(add: (Word, Word) -> Word, symbolAt: (Word, Place) -> Element) {
    forall a, b, k :: symbolAt(add(a, b), k) == Plus(symbolAt(a, k), symbolAt(b, k))
  }

  lemma SymbolsLinear()
    ensures LinearAt(Xored, SymbolAt)
  {
    forall a: Word, b: Word, k: Place
      ensures SymbolAt(Xored(a, b), k) == Plus(SymbolAt(a, k), SymbolAt(b, k))
    {
      SymbolAtXor(a, b, k);
    }
  }

  lemma SixByXor(add: (Word, Word) -> Word, symbolAt: (Word, Place) -> Element, a: Word, b: Word)
    requires LinearAt(add, symbolAt)
    ensures SixBy(symbolAt, add(a, b)) == Sum(SixBy(symbolAt, a), SixBy(symbolAt, b))
  {
  }

  ghost predicate Linear<T(!new)>(add: (T, T) -> T, unpack: T -> Six) {
    forall a, b :: unpack(add(a, b)) == Sum(unpack(a), unpack(b))
  }

  lemma UnpackLinear()
    ensures Linear(Xored, Unpack)
  {
    forall a: Word, b: Word
      ensures Unpack(Xored(a, b)) == Sum(Unpack(a), Unpack(b))
    {
      SymbolsLinear();
      SixByXor(Xored, SymbolAt, a, b);
    }
  }

  lemma UnpackMoved(x: Word, v: Word)
    requires v < 32
    ensures var a := Unpack(x); Unpack(Moved(x, v)) == Six(a.c4, a.c3, a.c2, a.c1, a.c0, LowSymbol(v))
  {
  }

  lemma UnpackWords()
    ensures Unpack(0) == NOTHING && Unpack(1) == START && Unpack(0x3B6A57B2) == First()
    ensures Unpack(0x26508E6D) == Second() && Unpack(0x1EA119FA) == Third()
    ensures Unpack(0x3D4233DD) == Fourth() && Unpack(0x2A1462B3) == Fifth()
  {
  }

  lemma TopUnpacked(x: Word)
    ensures Unpack(x).c5 == Top(x)
  {
  }

  lemma ChosenUnpacked<T(!new)>(t: Element, w: seq<T>, g: seq<Six>, add: (T, T) -> T, zero: T, unpack: T -> Six)
    requires Linear(add, unpack) && unpack(zero) == NOTHING && |w| == |g| == 5
    requires forall i | 0 <= i < 5 :: unpack(w[i]) == g[i]
    ensures unpack(Chosen(t, w[0], w[1], w[2], w[3], w[4], add, zero)) ==
            Chosen(t, g[0], g[1], g[2], g[3], g[4], Sum, NOTHING)
  {
  }

  lemma ChosenIsScale(t: Element, g0: Six, g1: Six, g2: Six, g3: Six, g4: Six)
    requires g1 == ScaleX(g0) && g2 == ScaleX(g1) && g3 == ScaleX(g2) && g4 == ScaleX(g3)
    ensures Chosen(t, g0, g1, g2, g3, g4, Sum, NOTHING) == Scale(t, g0)
  {
    ScaleOfWords(t, g0, g1, g2, g3, g4);
  }

  lemma FiveUnpacked() returns (g0: Six, g1: Six, g2: Six, g3: Six, g4: Six)
    ensures g0 == COEFFICIENTS && g1 == ScaleX(g0) && g2 == ScaleX(g1) && g3 == ScaleX(g2) && g4 == ScaleX(g3)
    ensures Unpack(0x3B6A57B2) == g0 && Unpack(0x26508E6D) == g1 && Unpack(0x1EA119FA) == g2
    ensures Unpack(0x3D4233DD) == g3 && Unpack(0x2A1462B3) == g4 && Unpack(0) == NOTHING
  {
    g0, g1, g2, g3, g4 := First(), Second(), Third(), Fourth(), Fifth();
    UnpackWords();
    FirstTimesX();
    SecondTimesX();
    ThirdTimesX();
    FourthTimesX();
  }

  lemma FedIsProduct(x: Word)
    ensures Unpack(Fed(x)) == Scale(Top(x), COEFFICIENTS)
  {
    var g0, g1, g2, g3, g4 := FiveUnpacked();
    UnpackLinear();
    ChosenUnpacked(Top(x), [0x3B6A57B2, 0x26508E6D, 0x1EA119FA, 0x3D4233DD, 0x2A1462B3], [g0, g1, g2, g3, g4],
                   Xored, 0, Unpack);
    ChosenIsScale(Top(x), g0, g1, g2, g3, g4);
  }

  lemma RoundByIsNext(unpack: Word -> Six, add: (Word, Word) -> Word, moved: (Word, Word) -> Word, fed: Word -> Word,
                      x: Word, v: Word, e: Element)
    requires Linear(add, unpack) && unpack(fed(x)) == Scale(unpack(x).c5, COEFFICIENTS)
    requires var a := unpack(x); unpack(moved(x, v)) == Six(a.c4, a.c3, a.c2, a.c1, a.c0, e)
    ensures unpack(RoundBy(add, moved, fed, x, v)) == Next(unpack(x), e)
  {
  }

  /** The round on words is the round of the specification. */
  lemma RoundIsNext(x: Word, v: Word)
    requires v < 32
    ensures Unpack(Round(x, v)) == Next(Unpack(x), LowSymbol(v))
  {
    UnpackLinear();
    UnpackMoved(x, v);
    TopUnpacked(x);
    FedIsProduct(x);
    RoundByIsNext(Unpack, Xored, Moved, Fed, x, v, LowSymbol(v));
  }

  // ---------------------------------------------------------------------------
  // Runs of symbols

  /** A symbol as a word. */
  function WordOf(v: nat): (w: Word)
    requires v < 32
  {
    match v
    case 0 => 0 case 1 => 1 case 2 => 2 case 3 => 3 case 4 => 4 case 5 => 5 case 6 => 6 case 7 => 7
    case 8 => 8 case 9 => 9 case 10 => 10 case 11 => 11 case 12 => 12 case 13 => 13 case 14 => 14 case 15 => 15
    case 16 => 16 case 17 => 17 case 18 => 18 case 19 => 19 case 20 => 20 case 21 => 21 case 22 => 22 case 23 => 23
    case 24 => 24 case 25 => 25 case 26 => 26 case 27 => 27 case 28 => 28 case 29 => 29 case 30 => 30 case 31 => 31
  }

  lemma SymbolsFrom0(v: nat)
    requires 0 <= v < 8
    ensures WordOf(v) < 32 && Num(LowSymbol(WordOf(v))) == v
  {
  }

  lemma SymbolsFrom8(v: nat)
    requires 8 <= v < 16
    ensures WordOf(v) < 32 && Num(LowSymbol(WordOf(v))) == v
  {
  }

  lemma SymbolsFrom16(v: nat)
    requires 16 <= v < 24
    ensures WordOf(v) < 32 && Num(LowSymbol(WordOf(v))) == v
  {
  }

  lemma SymbolsFrom24(v: nat)
    requires 24 <= v < 32
    ensures WordOf(v) < 32 && Num(LowSymbol(WordOf(v))) == v
  {
  }

  lemma WordOfSymbol(v: nat)
    requires v < 32
    ensures WordOf(v) < 32 && Num(LowSymbol(WordOf(v))) == v
  {
    if v < 8 {
      SymbolsFrom0(v);
    } else if v < 16 {
      SymbolsFrom8(v);
    } else if v < 24 {
      SymbolsFrom16(v);
    } else {
      SymbolsFrom24(v);
    }
  }

  function Words(vs: seq<nat>): (ws: seq<Word>)
    requires Polymod.IsSymbols(vs)
    ensures |ws| == |vs| && forall i | 0 <= i < |vs| :: ws[i] == WordOf(vs[i])
  {
    seq(|vs|, i requires 0 <= i < |vs| => WordOf(vs[i]))
  }

  /** The 30-bit register that the word holds. */
  function Packed(x: Word): nat {
    Pack(Unpack(x))
  }

  lemma RoundIsShift(x: Word, v: nat)
    requires v < 32
    ensures Packed(Round(x, WordOf(v))) == Polymod.Shift(Packed(x), v)
  {
    WordOfSymbol(v);
    RoundIsNext(x, WordOf(v));
    ShiftIsNext(Unpack(x), LowSymbol(WordOf(v)));
  }

  /** What a run of words leads to, whatever a round is. */
  function Rounds<T, V>(round: (T, V) -> T, x: T, ws: seq<V>): T {
    if ws == [] then x else round(Rounds(round, x, ws[..|ws| - 1]), ws[|ws| - 1])
  }

  lemma {:induction false} RoundsConcat<T, V>(round: (T, V) -> T, x: T, us: seq<V>, vs: seq<V>)
    ensures Rounds(round, x, us + vs) == Rounds(round, Rounds(round, x, us), vs)
  {
    if vs == [] {
      assert us + vs == us;
    } else {
      RoundsConcat(round, x, us, vs[..|vs| - 1]);
      assert (us + vs)[..|us + vs| - 1] == us + vs[..|vs| - 1];
    }
  }

  lemma RoundsSnoc<T, V>(round: (T, V) -> T, x: T, ws: seq<V>, w: V)
    ensures Rounds(round, x, ws + [w]) == round(Rounds(round, x, ws), w)
  {
    assert (ws + [w])[..|ws|] == ws;
  }

  lemma FourRounds<T, V>(round: (T, V) -> T, x: T, a: V, b: V, c: V, d: V)
    ensures Rounds(round, x, [a, b, c, d]) == round(round(round(round(x, a), b), c), d)
  {
    RoundsSnoc(round, x, [], a);
    RoundsSnoc(round, x, [a], b);
    RoundsSnoc(round, x, [a, b], c);
    RoundsSnoc(round, x, [a, b, c], d);
    assert [] + [a] == [a] && [a] + [b] == [a, b] && [a, b] + [c] == [a, b, c] && [a, b, c] + [d] == [a, b, c, d];
  }

  lemma EightRounds<T, V>(round: (T, V) -> T, x: T, a: V, b: V, c: V, d: V,
                       y: T, e: V, f: V, g: V, h: V, z: T)
    requires round(round(round(round(x, a), b), c), d) == y && round(round(round(round(y, e), f), g), h) == z
    ensures Rounds(round, x, [a, b, c, d, e, f, g, h]) == z
  {
    FourRounds(round, x, a, b, c, d);
    FourRounds(round, y, e, f, g, h);
    RoundsConcat(round, x, [a, b, c, d], [e, f, g, h]);
    assert [a, b, c, d] + [e, f, g, h] == [a, b, c, d, e, f, g, h];
  }

  lemma TwoRounds<T, V>(round: (T, V) -> T, x: T, a: V, b: V, y: T)
    requires round(round(x, a), b) == y
    ensures Rounds(round, x, [a, b]) == y
  {
    RoundsSnoc(round, x, [], a);
    RoundsSnoc(round, x, [a], b);
    assert [] + [a] == [a] && [a] + [b] == [a, b];
  }

  lemma EightWords(x: Word, a: Word, b: Word, c: Word, d: Word, y: Word, e: Word, f: Word, g: Word, h: Word, z: Word)
    requires Round(Round(Round(Round(x, a), b), c), d) == y
    requires Round(Round(Round(Round(y, e), f), g), h) == z
    ensures Rounds(Round, x, [a, b, c, d, e, f, g, h]) == z
  {
    EightRounds(Round, x, a, b, c, d, y, e, f, g, h, z);
  }

  lemma WordsConcat(us: seq<nat>, vs: seq<nat>)
    requires Polymod.IsSymbols(us) && Polymod.IsSymbols(vs)
    ensures Words(us + vs) == Words(us) + Words(vs)
  {
  }

  lemma WordsSnoc(vs: seq<nat>)
    requires Polymod.IsSymbols(vs) && vs != []
    ensures Words(vs) == Words(vs[..|vs| - 1]) + [WordOf(vs[|vs| - 1])]
  {
  }

  /** Rounds on words are the program's rounds if one is. */
  lemma {:induction false} RoundsAreShifts<T(!new)>(round: (T, Word) -> T, pack: T -> nat, x: T, vs: seq<nat>)
    requires Polymod.IsSymbols(vs)
    requires forall y, v: Polymod.Symbol :: pack(round(y, WordOf(v))) == Polymod.Shift(pack(y), v)
    ensures Polymod.Absorb(pack(x), vs) == pack(Rounds(round, x, Words(vs)))
  {
    if vs != [] {
      var n := |vs| - 1;
      RoundsAreShifts(round, pack, x, vs[..n]);
      RoundsSnoc(round, x, Words(vs[..n]), WordOf(vs[n]));
      WordsSnoc(vs);
    }
  }

  /** The program's register is kept in the word, as six packed symbols. */
  lemma RoundsAreAbsorb(x: Word, vs: seq<nat>)
    requires Polymod.IsSymbols(vs)
    ensures Polymod.Absorb(Packed(x), vs) == Packed(Rounds(Round, x, Words(vs)))
  {
    forall y: Word, v: Polymod.Symbol
      ensures Packed(Round(y, WordOf(v))) == Polymod.Shift(Packed(y), v)
    {
      RoundIsShift(y, v);
    }
    RoundsAreShifts(Round, Packed, x, vs);
  }

  // ---------------------------------------------------------------------------
  // Stretches of eight symbols and five bytes

  lemma ValSnoc(base: nat, ds: seq<nat>, d: nat)
    ensures Val(base, ds + [d]) == Val(base, ds) * base + d
  {
    assert (ds + [d])[..|ds|] == ds;
  }

  lemma ValOfFive(base: nat, a: nat, b: nat, c: nat, d: nat, e: nat)
    ensures Val(base, [a, b, c, d, e]) == (((a * base + b) * base + c) * base + d) * base + e
  {
    ValOfOne(base, a);
    ValSnoc(base, [a], b);
    ValSnoc(base, [a, b], c);
    ValSnoc(base, [a, b, c], d);
    ValSnoc(base, [a, b, c, d], e);
    assert [a] + [b] == [a, b] && [a, b] + [c] == [a, b, c] && [a, b, c] + [d] == [a, b, c, d];
    assert [a, b, c, d] + [e] == [a, b, c, d, e];
  }

  lemma ValOfEight(a: nat, b: nat, c: nat, d: nat, e: nat, f: nat, g: nat, h: nat)
    ensures Val(32, [a, b, c, d, e, f, g, h]) ==
            (((((((a * 32 + b) * 32 + c) * 32 + d) * 32 + e) * 32 + f) * 32 + g) * 32) + h
  {
    ValOfFive(32, a, b, c, d, e);
    ValSnoc(32, [a, b, c, d, e], f);
    ValSnoc(32, [a, b, c, d, e, f], g);
    ValSnoc(32, [a, b, c, d, e, f, g], h);
    assert [a, b, c, d, e] + [f] == [a, b, c, d, e, f] && [a, b, c, d, e, f] + [g] == [a, b, c, d, e, f, g];
    assert [a, b, c, d, e, f, g] + [h] == [a, b, c, d, e, f, g, h];
  }

  lemma ValOfFour(a: nat, b: nat, c: nat, d: nat)
    ensures Val(32, [a, b, c, d]) == ((a * 32 + b) * 32 + c) * 32 + d
  {
    ValOfOne(32, a);
    ValSnoc(32, [a], b);
    ValSnoc(32, [a, b], c);
    ValSnoc(32, [a, b, c], d);
    assert [a] + [b] == [a, b] && [a, b] + [c] == [a, b, c] && [a, b, c] + [d] == [a, b, c, d];
  }

  lemma ValOfTwo(a: nat, b: nat)
    ensures Val(256, [a, b]) == a * 256 + b
  {
    ValOfOne(256, a);
    ValSnoc(256, [a], b);
    assert [a] + [b] == [a, b];
  }

  lemma FortyBits()
    ensures Pow(32, 8) == Pow(256, 5) == 0x100_0000_0000
  {
    assert Pow(32, 4) == 0x10_0000 && Pow(32, 6) == 0x4000_0000;
    assert Pow(256, 2) == 0x1_0000 && Pow(256, 4) == 0x1_0000_0000;
  }

  lemma SpellConcat(c: seq<nat>, d: seq<nat>)
    requires Polymod.IsSymbols(c) && Polymod.IsSymbols(d)
    ensures Polymod.IsSymbols(c + d) && Npub.Spell(c + d) == Npub.Spell(c) + Npub.Spell(d)
  {
  }

  /** Eight symbols lead from one word to another. */
  ghost predicate Leads<T(!new)>(round: (T, Word) -> T, x: T, vs: seq<nat>, y: T) {
    Polymod.IsSymbols(vs) && Rounds(round, x, Words(vs)) == y
  }

  /** Eight symbols spell a text and carry five bytes. */
  ghost predicate Carries(c: seq<nat>, bytes: seq<nat>, text: string) {
    |c| == 8 && |bytes| == 5 && Polymod.IsSymbols(c) && SameNumber(c, bytes) && Npub.Spell(c) == text
  }

  /** The symbols spell the text and lead to a word, after the expansion of "npub". */
  ghost predicate Spells<T(!new)>(round: (T, Word) -> T, one: T, d: seq<nat>, text: string, x: T) {
    Polymod.IsSymbols(d) && Leads(round, one, Npub.EXPANDED + d, x) && Npub.Spell(d) == text
  }

  ghost predicate SameNumber(d: seq<nat>, key: seq<nat>) {
    IsDigits(256, key) && Val(32, d) == Val(256, key)
  }

  /** What has been read so far. */
  ghost predicate Reads<T(!new)>(round: (T, Word) -> T, one: T, d: seq<nat>, key: seq<nat>, text: string, x: T) {
    Spells(round, one, d, text, x) && SameNumber(d, key)
  }

  lemma NumberGrows(d: seq<nat>, key: seq<nat>, c: seq<nat>, bytes: seq<nat>)
    requires SameNumber(d, key) && SameNumber(c, bytes) && |c| == 8 && |bytes| == 5
    ensures SameNumber(d + c, key + bytes)
  {
    ValConcat(32, d, c);
    ValConcat(256, key, bytes);
    FortyBits();
  }

  lemma SpellOn<T(!new)>(round: (T, Word) -> T, one: T, d: seq<nat>, text: string, x: T, c: seq<nat>, s: string, y: T)
    requires Spells(round, one, d, text, x) && Leads(round, x, c, y) && Npub.Spell(c) == s
    ensures Spells(round, one, d + c, text + s, y)
  {
    LeadsFar(round, one, Npub.EXPANDED + d, x, c, y);
    assert Npub.EXPANDED + (d + c) == (Npub.EXPANDED + d) + c;
    SpellConcat(d, c);
  }

  lemma ReadOn<T(!new)>(round: (T, Word) -> T, one: T, d: seq<nat>, key: seq<nat>, text: string, x: T,
                        c: seq<nat>, bytes: seq<nat>, s: string, y: T)
    requires Reads(round, one, d, key, text, x) && Leads(round, x, c, y) && Carries(c, bytes, s)
    ensures Reads(round, one, d + c, key + bytes, text + s, y)
  {
    SpellOn(round, one, d, text, x, c, s, y);
    NumberGrows(d, key, c, bytes);
  }

  lemma LeadsFar<T(!new)>(round: (T, Word) -> T, x: T, us: seq<nat>, y: T, vs: seq<nat>, z: T)
    requires Leads(round, x, us, y) && Leads(round, y, vs, z)
    ensures Leads(round, x, us + vs, z)
  {
    RoundsConcat(round, x, Words(us), Words(vs));
    WordsConcat(us, vs);
  }


  // ---------------------------------------------------------------------------
  // The example

  lemma Expansion()
    ensures Leads(Round, 0x1, [3, 3, 3, 3, 0, 14, 16, 21], 0x3DC6A358)
  {
    EightWords(0x1, 3, 3, 3, 3, 0x118C63, 0, 14, 16, 21, 0x3DC6A358);
    assert Words([3, 3, 3, 3, 0, 14, 16, 21]) == [3, 3, 3, 3, 0, 14, 16, 21];
  }

  lemma Round0()
    ensures Leads(Round, 0x1773ADFB, [15, 25, 31, 9, 24, 16, 21, 9], 0x36FBDF76)
  {
    EightWords(0x1773ADFB, 15, 25, 31, 9, 0x75B4350, 24, 16, 21, 9, 0x36FBDF76);
    assert Words([15, 25, 31, 9, 24, 16, 21, 9]) == [15, 25, 31, 9, 24, 16, 21, 9];
  }

  lemma Stretch0()
    ensures Carries([15, 25, 31, 9, 24, 16, 21, 9], [0x7e, 0x7e, 0x9c, 0x42, 0xa9], "0elfcs4f")
  {
    ValOfEight(15, 25, 31, 9, 24, 16, 21, 9);
    ValOfFive(256, 0x7e, 0x7e, 0x9c, 0x42, 0xa9);
  }

  lemma Round1()
    ensures Leads(Round, 0x36FBDF76, [3, 15, 31, 15, 3, 7, 29, 9], 0x2E7BEA3D)
  {
    EightWords(0x36FBDF76, 3, 15, 31, 15, 0xD4A65DE, 3, 7, 29, 9, 0x2E7BEA3D);
    assert Words([3, 15, 31, 15, 3, 7, 29, 9]) == [3, 15, 31, 15, 3, 7, 29, 9];
  }

  lemma Stretch1()
    ensures Carries([3, 15, 31, 15, 3, 7, 29, 9], [0x1b, 0xfe, 0xf1, 0x9f, 0xa9], "r0l0r8af")
  {
    ValOfEight(3, 15, 31, 15, 3, 7, 29, 9);
    ValOfFive(256, 0x1b, 0xfe, 0xf1, 0x9f, 0xa9);
  }

  lemma Round2()
    ensures Leads(Round, 0x2E7BEA3D, [5, 7, 18, 31, 27, 8, 13, 23], 0x200F3231)
  {
    EightWords(0x2E7BEA3D, 5, 7, 18, 31, 0x6523AEA, 27, 8, 13, 23, 0x200F3231);
    assert Words([5, 7, 18, 31, 27, 8, 13, 23]) == [5, 7, 18, 31, 27, 8, 13, 23];
  }

  lemma Stretch2()
    ensures Carries([5, 7, 18, 31, 27, 8, 13, 23], [0x29, 0xe5, 0xfd, 0xa1, 0xb7], "98jlmgdh")
  {
    ValOfEight(5, 7, 18, 31, 27, 8, 13, 23);
    ValOfFive(256, 0x29, 0xe5, 0xfd, 0xa1, 0xb7);
  }

  lemma Round3()
    ensures Leads(Round, 0x200F3231, [5, 24, 7, 11, 24, 6, 18, 12], 0x3417E7C6)
  {
    EightWords(0x200F3231, 5, 24, 7, 11, 0x8764DF5, 24, 6, 18, 12, 0x3417E7C6);
    assert Words([5, 24, 7, 11, 24, 6, 18, 12]) == [5, 24, 7, 11, 24, 6, 18, 12];
  }

  lemma Stretch3()
    ensures Carries([5, 24, 7, 11, 24, 6, 18, 12], [0x2e, 0x0e, 0xbc, 0x1a, 0x4c], "9c8tcxjv")
  {
    ValOfEight(5, 24, 7, 11, 24, 6, 18, 12);
    ValOfFive(256, 0x2e, 0x0e, 0xbc, 0x1a, 0x4c);
  }

  lemma Round4()
    ensures Leads(Round, 0x3417E7C6, [2, 5, 0, 22, 14, 15, 17, 7], 0x265B04A0)
  {
    EightWords(0x3417E7C6, 2, 5, 0, 22, 0x124212BF, 14, 15, 17, 7, 0x265B04A0);
    assert Words([2, 5, 0, 22, 14, 15, 17, 7]) == [2, 5, 0, 22, 14, 15, 17, 7];
  }

  lemma Stretch4()
    ensures Carries([2, 5, 0, 22, 14, 15, 17, 7], [0x11, 0x41, 0x67, 0x3e, 0x27], "z9qkw038")
  {
    ValOfEight(2, 5, 0, 22, 14, 15, 17, 7);
    ValOfFive(256, 0x11, 0x41, 0x67, 0x3e, 0x27);
  }

  lemma Round5()
    ensures Leads(Round, 0x265B04A0, [18, 16, 17, 20, 27, 1, 21, 13], 0x157B499)
  {
    EightWords(0x265B04A0, 18, 16, 17, 20, 0x1FEED492, 27, 1, 21, 13, 0x157B499);
    assert Words([18, 16, 17, 20, 27, 1, 21, 13]) == [18, 16, 17, 20, 27, 1, 21, 13];
  }

  lemma Stretch5()
    ensures Carries([18, 16, 17, 20, 27, 1, 21, 13], [0x94, 0x23, 0x4d, 0x86, 0xad], "js35mp4d")
  {
    ValOfEight(18, 16, 17, 20, 27, 1, 21, 13);
    ValOfFive(256, 0x94, 0x23, 0x4d, 0x86, 0xad);
  }

  lemma Round6()
    ensures Leads(Round, 0x157B499, [27, 29, 7, 0, 2, 12, 18, 1], 0x371E491B)
  {
    EightWords(0x157B499, 27, 29, 7, 0, 0x18DBC70A, 2, 12, 18, 1, 0x371E491B);
    assert Words([27, 29, 7, 0, 2, 12, 18, 1]) == [27, 29, 7, 0, 2, 12, 18, 1];
  }

  lemma Round7()
    ensures Leads(Round, 0x371E491B, [11, 8], 1)
  {
    TwoRounds(Round, 0x371E491B, 11, 8, 1);
    assert Words([11, 8]) == [11, 8];
  }

  /** The last key symbols carry the last two bytes and four zero bits. */
  lemma Ending()
    ensures Val(32, [27, 29, 7, 0]) == Val(256, [0xdf, 0x4e]) * 16
  {
    ValOfFour(27, 29, 7, 0);
    ValOfTwo(0xdf, 0x4e);
  }

  lemma EndingSpelled()
    ensures Npub.Spell([27, 29, 7, 0, 2, 12, 18, 1]) == "ma8qzvjp" && Npub.Spell([11, 8]) == "tg"
  {
  }

  lemma Expanded()
    ensures Leads(Round, 1, Npub.EXPANDED, 0x1773ADFB)
  {
    Expansion();
    RoundsSnoc(Round, 1, Words([3, 3, 3, 3, 0, 14, 16, 21]), 2);
    assert Words(Npub.EXPANDED) == Words([3, 3, 3, 3, 0, 14, 16, 21]) + [2];
  }

  lemma NothingRead()
    ensures Reads(Round, 1, [], [], "", 0x1773ADFB)
  {
    Expanded();
    assert Npub.EXPANDED + [] == Npub.EXPANDED;
  }

  lemma Read0(d: seq<nat>, key: seq<nat>, text: string) returns (e: seq<nat>)
    requires Reads(Round, 1, d, key, text, 0x1773ADFB)
    ensures Reads(Round, 1, e, key + [0x7e, 0x7e, 0x9c, 0x42, 0xa9], text + "0elfcs4f", 0x36FBDF76) && |e| == |d| + 8
  {
    Round0();
    Stretch0();
    e := d + [15, 25, 31, 9, 24, 16, 21, 9];
    ReadOn(Round, 1, d, key, text, 0x1773ADFB, [15, 25, 31, 9, 24, 16, 21, 9],
           [0x7e, 0x7e, 0x9c, 0x42, 0xa9], "0elfcs4f", 0x36FBDF76);
  }

  lemma Read1(d: seq<nat>, key: seq<nat>, text: string) returns (e: seq<nat>)
    requires Reads(Round, 1, d, key, text, 0x36FBDF76)
    ensures Reads(Round, 1, e, key + [0x1b, 0xfe, 0xf1, 0x9f, 0xa9], text + "r0l0r8af", 0x2E7BEA3D) && |e| == |d| + 8
  {
    Round1();
    Stretch1();
    e := d + [3, 15, 31, 15, 3, 7, 29, 9];
    ReadOn(Round, 1, d, key, text, 0x36FBDF76, [3, 15, 31, 15, 3, 7, 29, 9],
           [0x1b, 0xfe, 0xf1, 0x9f, 0xa9], "r0l0r8af", 0x2E7BEA3D);
  }

  lemma Read2(d: seq<nat>, key: seq<nat>, text: string) returns (e: seq<nat>)
    requires Reads(Round, 1, d, key, text, 0x2E7BEA3D)
    ensures Reads(Round, 1, e, key + [0x29, 0xe5, 0xfd, 0xa1, 0xb7], text + "98jlmgdh", 0x200F3231) && |e| == |d| + 8
  {
    Round2();
    Stretch2();
    e := d + [5, 7, 18, 31, 27, 8, 13, 23];
    ReadOn(Round, 1, d, key, text, 0x2E7BEA3D, [5, 7, 18, 31, 27, 8, 13, 23],
           [0x29, 0xe5, 0xfd, 0xa1, 0xb7], "98jlmgdh", 0x200F3231);
  }

  lemma Read3(d: seq<nat>, key: seq<nat>, text: string) returns (e: seq<nat>)
    requires Reads(Round, 1, d, key, text, 0x200F3231)
    ensures Reads(Round, 1, e, key + [0x2e, 0x0e, 0xbc, 0x1a, 0x4c], text + "9c8tcxjv", 0x3417E7C6) && |e| == |d| + 8
  {
    Round3();
    Stretch3();
    e := d + [5, 24, 7, 11, 24, 6, 18, 12];
    ReadOn(Round, 1, d, key, text, 0x200F3231, [5, 24, 7, 11, 24, 6, 18, 12],
           [0x2e, 0x0e, 0xbc, 0x1a, 0x4c], "9c8tcxjv", 0x3417E7C6);
  }

  lemma Read4(d: seq<nat>, key: seq<nat>, text: string) returns (e: seq<nat>)
    requires Reads(Round, 1, d, key, text, 0x3417E7C6)
    ensures Reads(Round, 1, e, key + [0x11, 0x41, 0x67, 0x3e, 0x27], text + "z9qkw038", 0x265B04A0) && |e| == |d| + 8
  {
    Round4();
    Stretch4();
    e := d + [2, 5, 0, 22, 14, 15, 17, 7];
    ReadOn(Round, 1, d, key, text, 0x3417E7C6, [2, 5, 0, 22, 14, 15, 17, 7],
           [0x11, 0x41, 0x67, 0x3e, 0x27], "z9qkw038", 0x265B04A0);
  }

  lemma Read5(d: seq<nat>, key: seq<nat>, text: string) returns (e: seq<nat>)
    requires Reads(Round, 1, d, key, text, 0x265B04A0)
    ensures Reads(Round, 1, e, key + [0x94, 0x23, 0x4d, 0x86, 0xad], text + "js35mp4d", 0x157B499) && |e| == |d| + 8
  {
    Round5();
    Stretch5();
    e := d + [18, 16, 17, 20, 27, 1, 21, 13];
    ReadOn(Round, 1, d, key, text, 0x265B04A0, [18, 16, 17, 20, 27, 1, 21, 13],
           [0x94, 0x23, 0x4d, 0x86, 0xad], "js35mp4d", 0x157B499);
  }

  lemma FirstHalf() returns (d: seq<nat>, key: seq<nat>, text: string)
    ensures Reads(Round, 1, d, key, text, 0x200F3231) && |d| == 24
    ensures key == [0x7e, 0x7e, 0x9c, 0x42, 0xa9] + [0x1b, 0xfe, 0xf1, 0x9f, 0xa9] + [0x29, 0xe5, 0xfd, 0xa1, 0xb7]
    ensures text == "0elfcs4f" + "r0l0r8af" + "98jlmgdh"
  {
    NothingRead();
    d, key, text := [], [], "";
    d := Read0(d, key, text);
    key, text := key + [0x7e, 0x7e, 0x9c, 0x42, 0xa9], text + "0elfcs4f";
    d := Read1(d, key, text);
    key, text := key + [0x1b, 0xfe, 0xf1, 0x9f, 0xa9], text + "r0l0r8af";
    d := Read2(d, key, text);
    key, text := key + [0x29, 0xe5, 0xfd, 0xa1, 0xb7], text + "98jlmgdh";
  }

  lemma SecondHalf(d0: seq<nat>, key0: seq<nat>, text0: string) returns (d: seq<nat>, key: seq<nat>, text: string)
    requires Reads(Round, 1, d0, key0, text0, 0x200F3231)
    ensures Reads(Round, 1, d, key, text, 0x157B499) && |d| == |d0| + 24
    ensures key == key0 + [0x2e, 0x0e, 0xbc, 0x1a, 0x4c] + [0x11, 0x41, 0x67, 0x3e, 0x27]
                        + [0x94, 0x23, 0x4d, 0x86, 0xad]
    ensures text == text0 + "9c8tcxjv" + "z9qkw038" + "js35mp4d"
  {
    d, key, text := d0, key0, text0;
    d := Read3(d, key, text);
    key, text := key + [0x2e, 0x0e, 0xbc, 0x1a, 0x4c], text + "9c8tcxjv";
    d := Read4(d, key, text);
    key, text := key + [0x11, 0x41, 0x67, 0x3e, 0x27], text + "z9qkw038";
    d := Read5(d, key, text);
    key, text := key + [0x94, 0x23, 0x4d, 0x86, 0xad], text + "js35mp4d";
  }

  lemma PaddedNumber(d: seq<nat>, key: seq<nat>, c: seq<nat>, bytes: seq<nat>)
    requires SameNumber(d, key) && |c| == 4 && |bytes| == 2 && Val(32, c) == Val(256, bytes) * 16
    ensures Val(32, d + c) == Val(256, key + bytes) * 16
  {
    ValConcat(32, d, c);
    ValConcat(256, key, bytes);
    TwentyBits();
  }

  lemma TwentyBits()
    ensures Pow(32, 4) == 0x10_0000 && Pow(256, 2) == 0x1_0000
  {
    assert Pow(32, 2) == 0x400;
  }

  lemma Assembled(d: seq<nat>, key: seq<nat>, most: seq<nat>, first: seq<nat>, c: seq<nat>, bytes: seq<nat>)
    requires SameNumber(most, first) && |most| == 48 && |first| == 30
    requires |c| == 4 && |bytes| == 2 && IsDigits(256, bytes)
    requires Val(32, c) == Val(256, bytes) * 16 && |d| == 58 && d[..52] == most + c && key == first + bytes
    requires Polymod.IsSymbols(d) && Polymod.Absorb(1, Npub.EXPANDED + d) == 1
    ensures Npub.IsKey(key) && Npub.Encode(key) == Npub.HRP + "1" + Npub.Spell(d)
  {
    PaddedNumber(most, first, c, bytes);
    Npub.EncodingIff(d, key);
  }

  lemma RegisterAtOne()
    ensures Packed(1) == 1
  {
    UnpackWords();
    PackOfStart();
  }

  /** Symbols that lead from 1 to 1 pass the checksum. */
  lemma Checked(d: seq<nat>, text: string)
    requires Spells(Round, 1, d, text, 1)
    ensures Polymod.Absorb(1, Npub.EXPANDED + d) == 1
  {
    RoundsAreAbsorb(1, Npub.EXPANDED + d);
    RegisterAtOne();
  }

  lemma Finished(d: seq<nat>, text: string) returns (all: seq<nat>)
    requires Spells(Round, 1, d, text, 0x157B499)
    ensures Spells(Round, 1, all, text + "ma8qzvjp" + "tg", 1) && all == d + [27, 29, 7, 0, 2, 12, 18, 1] + [11, 8]
  {
    Round6();
    Round7();
    EndingSpelled();
    SpellOn(Round, 1, d, text, 0x157B499, [27, 29, 7, 0, 2, 12, 18, 1], "ma8qzvjp", 0x371E491B);
    all := d + [27, 29, 7, 0, 2, 12, 18, 1] + [11, 8];
    SpellOn(Round, 1, d + [27, 29, 7, 0, 2, 12, 18, 1], text + "ma8qzvjp", 0x371E491B, [11, 8], "tg", 1);
  }

  lemma HalvesJoined()
    ensures "0elfcs4f" + "r0l0r8af" + "98jlmgdh" == "0elfcs4fr0l0r8af98jlmgdh"
    ensures "9c8tcxjv" + "z9qkw038" + "js35mp4d" == "9c8tcxjvz9qkw038js35mp4d"
  {
  }

  lemma TextJoined()
    ensures "0elfcs4f" + "r0l0r8af" + "98jlmgdh" + "9c8tcxjv" + "z9qkw038" + "js35mp4d" + "ma8qzvjp" + "tg" ==
            "0elfcs4fr0l0r8af98jlmgdh9c8tcxjvz9qkw038js35mp4dma8qzvjptg"
  {
    HalvesJoined();
    assert "ma8qzvjp" + "tg" == "ma8qzvjptg";
    assert "0elfcs4fr0l0r8af98jlmgdh" + "9c8tcxjvz9qkw038js35mp4d" ==
           "0elfcs4fr0l0r8af98jlmgdh9c8tcxjvz9qkw038js35mp4d";
    assert "0elfcs4fr0l0r8af98jlmgdh9c8tcxjvz9qkw038js35mp4d" + "ma8qzvjptg" ==
           "0elfcs4fr0l0r8af98jlmgdh9c8tcxjvz9qkw038js35mp4dma8qzvjptg";
  }

  lemma KeyJoined()
    ensures [0x7e, 0x7e, 0x9c, 0x42, 0xa9] + [0x1b, 0xfe, 0xf1, 0x9f, 0xa9] + [0x29, 0xe5, 0xfd, 0xa1, 0xb7]
            + [0x2e, 0x0e, 0xbc, 0x1a, 0x4c] + [0x11, 0x41, 0x67, 0x3e, 0x27] + [0x94, 0x23, 0x4d, 0x86, 0xad]
            + [0xdf, 0x4e] ==
            [0x7e, 0x7e, 0x9c, 0x42, 0xa9, 0x1b, 0xfe, 0xf1, 0x9f, 0xa9, 0x29, 0xe5, 0xfd, 0xa1, 0xb7, 0x2e]
            + [0x0e, 0xbc, 0x1a, 0x4c, 0x11, 0x41, 0x67, 0x3e, 0x27, 0x94, 0x23, 0x4d, 0x86, 0xad, 0xdf, 0x4e]
  {
  }

  /** The symbols of the example. */
  lemma Symbols() returns (most: seq<nat>, first: seq<nat>, d: seq<nat>)
    ensures SameNumber(most, first) && |most| == 48 && |first| == 30
    ensures d == most + [27, 29, 7, 0, 2, 12, 18, 1] + [11, 8]
    ensures first + [0xdf, 0x4e] ==
            [0x7e, 0x7e, 0x9c, 0x42, 0xa9, 0x1b, 0xfe, 0xf1, 0x9f, 0xa9, 0x29, 0xe5, 0xfd, 0xa1, 0xb7, 0x2e]
            + [0x0e, 0xbc, 0x1a, 0x4c, 0x11, 0x41, 0x67, 0x3e, 0x27, 0x94, 0x23, 0x4d, 0x86, 0xad, 0xdf, 0x4e]
    ensures Spells(Round, 1, d, "0elfcs4fr0l0r8af98jlmgdh9c8tcxjvz9qkw038js35mp4dma8qzvjptg", 1)
  {
    var d0, key0, text0 := FirstHalf();
    var text;
    most, first, text := SecondHalf(d0, key0, text0);
    d := Finished(most, text);
    TextJoined();
    KeyJoined();
  }

  /** The key of the example and its npub. */
  lemma Example(key: seq<nat>) returns (d: seq<nat>)
    requires key ==
             [0x7e, 0x7e, 0x9c, 0x42, 0xa9, 0x1b, 0xfe, 0xf1, 0x9f, 0xa9, 0x29, 0xe5, 0xfd, 0xa1, 0xb7, 0x2e]
             + [0x0e, 0xbc, 0x1a, 0x4c, 0x11, 0x41, 0x67, 0x3e, 0x27, 0x94, 0x23, 0x4d, 0x86, 0xad, 0xdf, 0x4e]
    ensures Npub.IsKey(key)
    ensures Npub.Encode(key) == "npub1" + "0elfcs4fr0l0r8af98jlmgdh9c8tcxjvz9qkw038js35mp4dma8qzvjptg"
    ensures |d| == 58 && Polymod.IsSymbols(d)
    ensures Npub.Spell(d) == "0elfcs4fr0l0r8af98jlmgdh9c8tcxjvz9qkw038js35mp4dma8qzvjptg"
    ensures Polymod.Absorb(1, Npub.EXPANDED + d) == 1
  {
    var most, first;
    most, first, d := Symbols();
    Checked(d, "0elfcs4fr0l0r8af98jlmgdh9c8tcxjvz9qkw038js35mp4dma8qzvjptg");
    Ending();
    Parted(most, d);
    Assembled(d, key, most, first, [27, 29, 7, 0], [0xdf, 0x4e]);
    assert Npub.HRP + "1" == "npub1";
  }

  lemma Parted(most: seq<nat>, d: seq<nat>)
    requires |most| == 48 && d == most + [27, 29, 7, 0, 2, 12, 18, 1] + [11, 8]
    ensures |d| == 58 && d[..52] == most + [27, 29, 7, 0]
  {
  }
}
