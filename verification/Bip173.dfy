/**
 The checksum of BIP-173 as the specification has it: a code over the field GF(32), with
 the six lower coefficients of its generator polynomial. The words of the program's
 `_bech32_polymod` (plugin/floonet_writepolicy.py:149) are proved to be this code.
 */
module Bip173 {
  import opened ExclusiveOr
  import opened Radix
  import opened Polymod

  // ---------------------------------------------------------------------------
  // The field

  /** An element of GF(32): a polynomial over GF(2) modulo x^5 + x^3 + 1, by its coefficients. */
  datatype Element = Element(b4: bool, b3: bool, b2: bool, b1: bool, b0: bool)

  const ZERO: Element := Element(false, false, false, false, false)
  const ONE: Element := Element(false, false, false, false, true)

  function Plus(a: Element, b: Element): Element {
    Element(a.b4 != b.b4, a.b3 != b.b3, a.b2 != b.b2, a.b1 != b.b1, a.b0 != b.b0)
  }

  /** Multiplication by x, where x^5 is x^3 + 1. */
  function TimesX(a: Element): Element {
    Element(a.b3, a.b2 != a.b4, a.b1, a.b0, a.b4)
  }

  function If(b: bool, a: Element): Element {
    if b then a else ZERO
  }

  function Times(a: Element, b: Element): Element {
    var b1 := TimesX(b);
    var b2 := TimesX(b1);
    var b3 := TimesX(b2);
    var b4 := TimesX(b3);
    Plus(If(a.b0, b), Plus(If(a.b1, b1), Plus(If(a.b2, b2), Plus(If(a.b3, b3), Plus(If(a.b4, b4), ZERO)))))
  }

  function Digit(b: bool): (d: nat)
    ensures d < 2
  {
    if b then 1 else 0
  }

  function High2(a: Element): (v: nat)
    ensures v < 4
  {
    2 * Digit(a.b4) + Digit(a.b3)
  }

  function High3(a: Element): (v: nat)
    ensures v < 8
  {
    2 * High2(a) + Digit(a.b2)
  }

  function High4(a: Element): (v: nat)
    ensures v < 16
  {
    2 * High3(a) + Digit(a.b1)
  }

  /** The symbol that stands for an element. */
  function Num(a: Element): (v: nat)
    ensures v < 32
  {
    2 * High4(a) + Digit(a.b0)
  }

  /** An element by its coefficients, 1 or 0. */
  function Bits(p4: nat, p3: nat, p2: nat, p1: nat, p0: nat): Element {
    Element(p4 == 1, p3 == 1, p2 == 1, p1 == 1, p0 == 1)
  }

  lemma XorDigit(u: nat, v: nat, p: bool, q: bool)
    ensures Xor(2 * u + Digit(p), 2 * v + Digit(q)) == 2 * Xor(u, v) + Digit(p != q)
  {
    assert (2 * u + Digit(p)) / 2 == u && (2 * v + Digit(q)) / 2 == v;
  }

  lemma High2Plus(a: Element, b: Element)
    ensures Xor(High2(a), High2(b)) == High2(Plus(a, b))
  {
    XorDigit(0, 0, a.b4, b.b4);
    XorDigit(Digit(a.b4), Digit(b.b4), a.b3, b.b3);
  }

  lemma High3Plus(a: Element, b: Element)
    ensures Xor(High3(a), High3(b)) == High3(Plus(a, b))
  {
    High2Plus(a, b);
    XorDigit(High2(a), High2(b), a.b2, b.b2);
  }

  lemma High4Plus(a: Element, b: Element)
    ensures Xor(High4(a), High4(b)) == High4(Plus(a, b))
  {
    High3Plus(a, b);
    XorDigit(High3(a), High3(b), a.b1, b.b1);
  }

  /** Addition in the field is exclusive or of the symbols. */
  lemma NumPlus(a: Element, b: Element)
    ensures Xor(Num(a), Num(b)) == Num(Plus(a, b))
  {
    High4Plus(a, b);
    XorDigit(High4(a), High4(b), a.b0, b.b0);
  }

  // ---------------------------------------------------------------------------
  // The register

  /** The lower coefficients of a polynomial of degree 6, highest first. */
  datatype Six = Six(c5: Element, c4: Element, c3: Element, c2: Element, c1: Element, c0: Element)

  /** x^6 + {29}x^5 + {22}x^4 + {20}x^3 + {21}x^2 + {29}x + {18}. */
  const COEFFICIENTS: Six :=
    Six(Bits(1, 1, 1, 0, 1), Bits(1, 0, 1, 1, 0), Bits(1, 0, 1, 0, 0),
        Bits(1, 0, 1, 0, 1), Bits(1, 1, 1, 0, 1), Bits(1, 0, 0, 1, 0))

  function Sum(a: Six, b: Six): Six {
    Six(Plus(a.c5, b.c5), Plus(a.c4, b.c4), Plus(a.c3, b.c3), Plus(a.c2, b.c2), Plus(a.c1, b.c1), Plus(a.c0, b.c0))
  }

  function Scale(t: Element, a: Six): Six {
    Six(Times(t, a.c5), Times(t, a.c4), Times(t, a.c3), Times(t, a.c2), Times(t, a.c1), Times(t, a.c0))
  }

  function ScaleX(a: Six): Six {
    Six(TimesX(a.c5), TimesX(a.c4), TimesX(a.c3), TimesX(a.c2), TimesX(a.c1), TimesX(a.c0))
  }

  const NOTHING: Six := Six(ZERO, ZERO, ZERO, ZERO, ZERO, ZERO)

  function When(b: bool, a: Six): Six {
    if b then a else NOTHING
  }

  function Top2(a: Six): nat {
    Num(a.c5) * 32 + Num(a.c4)
  }

  function Top3(a: Six): nat {
    Top2(a) * 32 + Num(a.c3)
  }

  function Top4(a: Six): nat {
    Top3(a) * 32 + Num(a.c2)
  }

  function Top5(a: Six): nat {
    Top4(a) * 32 + Num(a.c1)
  }

  /** The 30-bit register that holds six symbols, highest first. */
  function Pack(a: Six): nat {
    Top5(a) * 32 + Num(a.c0)
  }

  lemma SymbolSum(p: nat, q: nat, a: Element, b: Element)
    ensures Xor(p * 32 + Num(a), q * 32 + Num(b)) == Xor(p, q) * 32 + Num(Plus(a, b))
  {
    Xor32(p, q, Num(a), Num(b));
    NumPlus(a, b);
  }

  lemma Top3Sum(a: Six, b: Six)
    ensures Xor(Top3(a), Top3(b)) == Top3(Sum(a, b))
  {
    NumPlus(a.c5, b.c5);
    SymbolSum(Num(a.c5), Num(b.c5), a.c4, b.c4);
    SymbolSum(Top2(a), Top2(b), a.c3, b.c3);
  }

  lemma Top4Sum(a: Six, b: Six)
    ensures Xor(Top4(a), Top4(b)) == Top4(Sum(a, b))
  {
    Top3Sum(a, b);
    SymbolSum(Top3(a), Top3(b), a.c2, b.c2);
  }

  lemma Top5Sum(a: Six, b: Six)
    ensures Xor(Top5(a), Top5(b)) == Top5(Sum(a, b))
  {
    Top4Sum(a, b);
    SymbolSum(Top4(a), Top4(b), a.c1, b.c1);
  }

  lemma PackSum(a: Six, b: Six)
    ensures Xor(Pack(a), Pack(b)) == Pack(Sum(a, b))
  {
    Top5Sum(a, b);
    SymbolSum(Top5(a), Top5(b), a.c0, b.c0);
  }

  // ---------------------------------------------------------------------------
  // The generator words

  function First(): Six {
    Six(Bits(1, 1, 1, 0, 1), Bits(1, 0, 1, 1, 0), Bits(1, 0, 1, 0, 0),
            Bits(1, 0, 1, 0, 1), Bits(1, 1, 1, 0, 1), Bits(1, 0, 0, 1, 0))
  }

  lemma FirstPacked()
    ensures Pack(First()) == 0x3B6A57B2
  {
  }

  function Second(): Six {
    Six(Bits(1, 0, 0, 1, 1), Bits(0, 0, 1, 0, 1), Bits(0, 0, 0, 0, 1),
            Bits(0, 0, 0, 1, 1), Bits(1, 0, 0, 1, 1), Bits(0, 1, 1, 0, 1))
  }

  lemma SecondPacked()
    ensures Pack(Second()) == 0x26508E6D
  {
  }

  function Third(): Six {
    Six(Bits(0, 1, 1, 1, 1), Bits(0, 1, 0, 1, 0), Bits(0, 0, 0, 1, 0),
            Bits(0, 0, 1, 1, 0), Bits(0, 1, 1, 1, 1), Bits(1, 1, 0, 1, 0))
  }

  lemma ThirdPacked()
    ensures Pack(Third()) == 0x1EA119FA
  {
  }

  function Fourth(): Six {
    Six(Bits(1, 1, 1, 1, 0), Bits(1, 0, 1, 0, 0), Bits(0, 0, 1, 0, 0),
            Bits(0, 1, 1, 0, 0), Bits(1, 1, 1, 1, 0), Bits(1, 1, 1, 0, 1))
  }

  lemma FourthPacked()
    ensures Pack(Fourth()) == 0x3D4233DD
  {
  }

  function Fifth(): Six {
    Six(Bits(1, 0, 1, 0, 1), Bits(0, 0, 0, 0, 1), Bits(0, 1, 0, 0, 0),
            Bits(1, 1, 0, 0, 0), Bits(1, 0, 1, 0, 1), Bits(1, 0, 0, 1, 1))
  }

  lemma FifthPacked()
    ensures Pack(Fifth()) == 0x2A1462B3
  {
  }

  lemma FirstTimesX()
    ensures ScaleX(First()) == Second()
  {
  }

  lemma SecondTimesX()
    ensures ScaleX(Second()) == Third()
  {
  }

  lemma ThirdTimesX()
    ensures ScaleX(Third()) == Fourth()
  {
  }

  lemma FourthTimesX()
    ensures ScaleX(Fourth()) == Fifth()
  {
  }

  lemma FiveWords() returns (g0: Six, g1: Six, g2: Six, g3: Six, g4: Six)
    ensures g0 == COEFFICIENTS && g1 == ScaleX(g0) && g2 == ScaleX(g1) && g3 == ScaleX(g2) && g4 == ScaleX(g3)
    ensures Pack(g0) == 0x3B6A57B2 && Pack(g1) == 0x26508E6D && Pack(g2) == 0x1EA119FA
    ensures Pack(g3) == 0x3D4233DD && Pack(g4) == 0x2A1462B3
  {
    g0, g1, g2, g3, g4 := First(), Second(), Third(), Fourth(), Fifth();
    FirstPacked();
    SecondPacked();
    ThirdPacked();
    FourthPacked();
    FifthPacked();
    FirstTimesX();
    SecondTimesX();
    ThirdTimesX();
    FourthTimesX();
  }

  lemma PackOfNothing()
    ensures Pack(NOTHING) == 0
  {
  }

  /** How a set of words adds up, whatever the words stand for. */
  ghost predicate Adds<T(!new)>(pack: T -> nat, sum: (T, T) -> T, zero: T) {
    pack(zero) == 0 && forall a, b :: Xor(pack(a), pack(b)) == pack(sum(a, b))
  }

  /** The sum of the words whose bit is set in the number, lowest bit first. */
  function Mix<T>(n: nat, words: seq<T>, sum: (T, T) -> T, zero: T): T {
    if words == [] then zero
    else sum(if n % 2 == 1 then words[0] else zero, Mix(n / 2, words[1..], sum, zero))
  }

  lemma {:induction false} FeedbackIsMix<T(!new)>(n: nat, words: seq<T>, gens: seq<nat>,
                                                  pack: T -> nat, sum: (T, T) -> T, zero: T)
    requires Adds(pack, sum, zero) && |words| == |gens| && forall i | 0 <= i < |gens| :: gens[i] == pack(words[i])
    ensures Feedback(n, gens) == pack(Mix(n, words, sum, zero))
  {
    if gens != [] {
      var word := if n % 2 == 1 then words[0] else zero;
      assert forall i | 0 <= i < |gens| - 1 :: gens[1..][i] == gens[i + 1] && words[1..][i] == words[i + 1];
      FeedbackIsMix(n / 2, words[1..], gens[1..], pack, sum, zero);
      assert Gate(n % 2, gens[0]) == pack(word);
      var rest := Mix(n / 2, words[1..], sum, zero);
      assert Xor(pack(word), pack(rest)) == pack(sum(word, rest));
    }
  }

  lemma MixOfFive<T>(b4: nat, b3: nat, b2: nat, b1: nat, b0: nat, w: seq<T>, sum: (T, T) -> T, zero: T)
    requires |w| == 5 && b4 < 2 && b3 < 2 && b2 < 2 && b1 < 2 && b0 < 2
    ensures Mix(2 * (2 * (2 * (2 * b4 + b3) + b2) + b1) + b0, w, sum, zero) ==
            sum(Pick(b0, w[0], zero), sum(Pick(b1, w[1], zero), sum(Pick(b2, w[2], zero),
              sum(Pick(b3, w[3], zero), sum(Pick(b4, w[4], zero), zero)))))
  {
    MixMore(0, b4, w[4..], sum, zero);
    MixMore(b4, b3, w[3..], sum, zero);
    MixMore(2 * b4 + b3, b2, w[2..], sum, zero);
    MixMore(2 * (2 * b4 + b3) + b2, b1, w[1..], sum, zero);
    MixMore(2 * (2 * (2 * b4 + b3) + b2) + b1, b0, w, sum, zero);
    assert w[4..][1..] == [] && w[3..][1..] == w[4..] && w[2..][1..] == w[3..] && w[1..][1..] == w[2..];
  }

  function Pick<T>(b: nat, a: T, zero: T): T {
    if b == 1 then a else zero
  }

  lemma MixMore<T>(n: nat, b: nat, w: seq<T>, sum: (T, T) -> T, zero: T)
    requires w != [] && b < 2
    ensures Mix(2 * n + b, w, sum, zero) == sum(Pick(b, w[0], zero), Mix(n, w[1..], sum, zero))
  {
    assert (2 * n + b) % 2 == b && (2 * n + b) / 2 == n;
  }

  lemma PackAdds()
    ensures Adds(Pack, Sum, NOTHING)
  {
    PackOfNothing();
    forall a: Six, b: Six
      ensures Xor(Pack(a), Pack(b)) == Pack(Sum(a, b))
    {
      PackSum(a, b);
    }
  }

  lemma FeedbackPacked(n: nat, ws: seq<Six>, gens: seq<nat>)
    requires |ws| == |gens| && forall i | 0 <= i < |gens| :: gens[i] == Pack(ws[i])
    ensures Feedback(n, gens) == Pack(Mix(n, ws, Sum, NOTHING))
  {
    PackAdds();
    FeedbackIsMix(n, ws, gens, Pack, Sum, NOTHING);
  }

  lemma MixIsSum(t: Element, ws: seq<Six>)
    requires |ws| == 5
    ensures Mix(Num(t), ws, Sum, NOTHING) ==
            Sum(When(t.b0, ws[0]), Sum(When(t.b1, ws[1]), Sum(When(t.b2, ws[2]),
              Sum(When(t.b3, ws[3]), Sum(When(t.b4, ws[4]), NOTHING)))))
  {
    MixOfFive(Digit(t.b4), Digit(t.b3), Digit(t.b2), Digit(t.b1), Digit(t.b0), ws, Sum, NOTHING);
  }

  /** The feedback of a symbol is its product with the generator's coefficients. */
  lemma FeedbackIsProduct(t: Element)
    ensures Feedback(Num(t), GENERATOR) == Pack(Scale(t, COEFFICIENTS))
  {
    var g0, g1, g2, g3, g4 := FiveWords();
    ProductOfWords(t, GENERATOR, g0, g1, g2, g3, g4);
  }

  lemma ProductOfWords(t: Element, gens: seq<nat>, g0: Six, g1: Six, g2: Six, g3: Six, g4: Six)
    requires gens == [Pack(g0), Pack(g1), Pack(g2), Pack(g3), Pack(g4)]
    requires g1 == ScaleX(g0) && g2 == ScaleX(g1) && g3 == ScaleX(g2) && g4 == ScaleX(g3)
    ensures Feedback(Num(t), gens) == Pack(Scale(t, g0))
  {
    MixIsScale(t, g0, g1, g2, g3, g4);
    FeedbackPacked(Num(t), [g0, g1, g2, g3, g4], gens);
  }

  lemma MixIsScale(t: Element, g0: Six, g1: Six, g2: Six, g3: Six, g4: Six)
    requires g1 == ScaleX(g0) && g2 == ScaleX(g1) && g3 == ScaleX(g2) && g4 == ScaleX(g3)
    ensures Mix(Num(t), [g0, g1, g2, g3, g4], Sum, NOTHING) == Scale(t, g0)
  {
    MixIsSum(t, [g0, g1, g2, g3, g4]);
    ScaleOfWords(t, g0, g1, g2, g3, g4);
  }

  lemma ScaleOfWords(t: Element, g0: Six, g1: Six, g2: Six, g3: Six, g4: Six)
    requires g1 == ScaleX(g0) && g2 == ScaleX(g1) && g3 == ScaleX(g2) && g4 == ScaleX(g3)
    ensures Scale(t, g0) ==
            Sum(When(t.b0, g0), Sum(When(t.b1, g1), Sum(When(t.b2, g2),
              Sum(When(t.b3, g3), Sum(When(t.b4, g4), NOTHING)))))
  {
    ScaleByBits(t, g0);
  }

  lemma ScaleByBits(t: Element, g: Six)
    ensures var g1 := ScaleX(g);
            var g2 := ScaleX(g1);
            var g3 := ScaleX(g2);
            var g4 := ScaleX(g3);
            Scale(t, g) ==
            Sum(When(t.b0, g), Sum(When(t.b1, g1), Sum(When(t.b2, g2),
              Sum(When(t.b3, g3), Sum(When(t.b4, g4), NOTHING)))))
  {
  }

  /** One symbol more: the top coefficient goes round through the generator. */
  function Next(a: Six, v: Element): Six {
    Sum(Six(a.c4, a.c3, a.c2, a.c1, a.c0, v), Scale(a.c5, COEFFICIENTS))
  }

  /** All symbols of the register but the highest. */
  function Lower(a: Six): nat {
    (((Num(a.c4) * 32 + Num(a.c3)) * 32 + Num(a.c2)) * 32 + Num(a.c1)) * 32 + Num(a.c0)
  }

  lemma PackParts(a: Six, v: Element)
    ensures Pack(a) == Num(a.c5) * LOW25 + Lower(a) && Lower(a) < LOW25
    ensures Pack(Six(a.c4, a.c3, a.c2, a.c1, a.c0, v)) == 32 * Lower(a) + Num(v)
  {
  }

  lemma ShiftParts(top: nat, low: nat, v: Symbol)
    requires low < LOW25
    ensures Shift(top * LOW25 + low, v) == Xor(32 * low + v, Feedback(top, GENERATOR))
  {
    TopAndLow(top, low);
    Appended(low, v);
  }

  lemma TopAndLow(top: nat, low: nat)
    requires low < LOW25
    ensures (top * LOW25 + low) / LOW25 == top && (top * LOW25 + low) % LOW25 == low
  {
  }

  lemma Appended(low: nat, v: Symbol)
    ensures Xor(low * 32, v) == 32 * low + v
  {
    AppendSymbol(low, v);
    XorZero(Xor(low * 32, v));
  }

  lemma ShiftOfParts(all: nat, top: nat, low: nat, v: Symbol, moved: nat, product: nat)
    requires all == top * LOW25 + low && low < LOW25 && moved == 32 * low + v && Feedback(top, GENERATOR) == product
    ensures Shift(all, v) == Xor(moved, product)
  {
    ShiftParts(top, low, v);
  }

  lemma ShiftSum(a: Six, v: Element, product: Six)
    requires Feedback(Num(a.c5), GENERATOR) == Pack(product)
    ensures Shift(Pack(a), Num(v)) == Pack(Sum(Six(a.c4, a.c3, a.c2, a.c1, a.c0, v), product))
  {
    var moved := Six(a.c4, a.c3, a.c2, a.c1, a.c0, v);
    PackParts(a, v);
    ShiftOfParts(Pack(a), Num(a.c5), Lower(a), Num(v), Pack(moved), Pack(product));
    PackSum(moved, product);
  }

  /** The program's round is the specification's. */
  lemma ShiftIsNext(a: Six, v: Element)
    ensures Shift(Pack(a), Num(v)) == Pack(Next(a, v))
  {
    FeedbackIsProduct(a.c5);
    ShiftSum(a, v, Scale(a.c5, COEFFICIENTS));
  }

  // ---------------------------------------------------------------------------
  // The checksum is a remainder

  const START: Six := Six(ZERO, ZERO, ZERO, ZERO, ZERO, ONE)

  /** The register after more symbols, by long division. */
  function Feed(r: Six, vs: seq<Element>): Six {
    if vs == [] then r else Next(Feed(r, vs[..|vs| - 1]), vs[|vs| - 1])
  }

  function Nums(vs: seq<Element>): (ns: seq<nat>)
    ensures |ns| == |vs| && forall i | 0 <= i < |vs| :: ns[i] == Num(vs[i])
  {
    seq(|vs|, i requires 0 <= i < |vs| => Num(vs[i]))
  }

  lemma PackOfStart()
    ensures Pack(START) == 1
  {
  }

  lemma {:induction false} AbsorbIsFeed(r: Six, vs: seq<Element>)
    ensures Absorb(Pack(r), Nums(vs)) == Pack(Feed(r, vs))
  {
    if vs != [] {
      var n := |vs| - 1;
      assert Nums(vs)[..n] == Nums(vs[..n]);
      AbsorbIsFeed(r, vs[..n]);
      ShiftIsNext(Feed(r, vs[..n]), vs[n]);
    }
  }

  /** A polynomial of degree at least 5, highest coefficient first, the last six apart. */
  datatype Polynomial = Polynomial(high: seq<Element>, low: Six)

  /** One coefficient after the others: p times x, plus v. */
  function Append(p: Polynomial, v: Element): Polynomial {
    Polynomial(p.high + [p.low.c5], Six(p.low.c4, p.low.c3, p.low.c2, p.low.c1, p.low.c0, v))
  }

  /** p plus c times the generator polynomial, whose leading coefficient is 1. */
  function PlusGenerator(p: Polynomial, c: Element): Polynomial
    requires p.high != []
  {
    var n := |p.high| - 1;
    Polynomial(p.high[..n] + [Plus(p.high[n], c)], Sum(p.low, Scale(c, COEFFICIENTS)))
  }

  /** q times the generator polynomial. */
  function Multiple(q: seq<Element>): (p: Polynomial)
    ensures |p.high| == |q|
  {
    if q == [] then Polynomial([], NOTHING)
    else PlusGenerator(Append(Multiple(q[..|q| - 1]), ZERO), q[|q| - 1])
  }

  /** The symbols as a polynomial, after a leading 1. */
  function Message(vs: seq<Element>): (p: Polynomial)
    ensures |p.high| == |vs|
  {
    if vs == [] then Polynomial([], START) else Append(Message(vs[..|vs| - 1]), vs[|vs| - 1])
  }

  /** The coefficients in one row. */
  function Row(p: Polynomial): seq<Element> {
    p.high + [p.low.c5, p.low.c4, p.low.c3, p.low.c2, p.low.c1, p.low.c0]
  }

  lemma {:induction false} MessageRow(vs: seq<Element>)
    ensures Row(Message(vs)) == [ZERO, ZERO, ZERO, ZERO, ZERO, ONE] + vs
  {
    if vs != [] {
      MessageRow(vs[..|vs| - 1]);
      assert vs == vs[..|vs| - 1] + [vs[|vs| - 1]];
      var p := Message(vs[..|vs| - 1]);
      assert Row(Append(p, vs[|vs| - 1])) == Row(p) + [vs[|vs| - 1]];
    }
  }

  lemma DivisionStep(m: Polynomial, p: Polynomial, r: Six, v: Element)
    requires m.high == p.high && m.low == Sum(p.low, r)
    ensures var next := PlusGenerator(Append(p, ZERO), r.c5);
            Append(m, v).high == next.high && Append(m, v).low == Sum(next.low, Next(r, v))
  {
    LowCancels(p.low, r, v, Scale(r.c5, COEFFICIENTS));
  }

  /** What is added twice is gone. */
  lemma Cancels(l: Element, r: Element, s: Element)
    ensures Plus(Plus(l, s), Plus(r, s)) == Plus(l, r) && Plus(Plus(ZERO, s), Plus(r, s)) == r
  {
  }

  lemma LowCancels(l: Six, r: Six, v: Element, s: Six)
    ensures Six(Plus(l.c4, r.c4), Plus(l.c3, r.c3), Plus(l.c2, r.c2), Plus(l.c1, r.c1), Plus(l.c0, r.c0), v) ==
            Sum(Sum(Six(l.c4, l.c3, l.c2, l.c1, l.c0, ZERO), s), Sum(Six(r.c4, r.c3, r.c2, r.c1, r.c0, v), s))
  {
    Cancels(l.c4, r.c4, s.c5);
    Cancels(l.c3, r.c3, s.c4);
    Cancels(l.c2, r.c2, s.c3);
    Cancels(l.c1, r.c1, s.c2);
    Cancels(l.c0, r.c0, s.c1);
    Cancels(l.c0, v, s.c0);
  }

  /**
   The program's register holds the remainder: the symbols, after a leading 1, are a multiple
   of the generator polynomial plus the six symbols it packs.
   */
  lemma {:induction false} AbsorbIsRemainder(vs: seq<Element>) returns (q: seq<Element>, r: Six)
    ensures |q| == |vs| && Absorb(1, Nums(vs)) == Pack(r) && r == Feed(START, vs)
    ensures Message(vs).high == Multiple(q).high && Message(vs).low == Sum(Multiple(q).low, r)
  {
    PackOfStart();
    AbsorbIsFeed(START, vs);
    r := Feed(START, vs);
    if vs == [] {
      q := [];
    } else {
      var n := |vs| - 1;
      var p, before := AbsorbIsRemainder(vs[..n]);
      q := p + [before.c5];
      assert q[..|p|] == p;
      DivisionStep(Message(vs[..n]), Multiple(p), before, vs[n]);
    }
  }
}
