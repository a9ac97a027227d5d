/**
 GRIN amounts: the exact decimal parser and printer of the configuration
 (name-authority/src/config.rs).
 */
module Amounts {
  import opened Wrappers
  import opened Text

  const NANO: nat := 1_000_000_000

  datatype AmountError = Malformed | TooManyPlaces

  function Pow10(n: nat): (p: nat)
    ensures p > 0
  {
    if n == 0 then 1 else 10 * Pow10(n - 1)
  }

  /** Split at the first dot; without one the whole text is the integral part. */
  function SplitDot(s: string): (parts: (string, string)) {
    if s == "" then ("", "")
    else if s[0] == '.' then ("", s[1..])
    else var rest := SplitDot(s[1..]); ([s[0]] + rest.0, rest.1)
  }

  /** `frac_n *= 10u64.pow(9 - frac.len())`: a fraction of `places` digits, in nanogrin. */
  function Rescale(v: nat, places: nat): nat
    requires places <= 9
  {
    v * Pow10(9 - places)
  }

  /** `grin_to_nanogrin`: decimal GRIN to nanogrin. */
  function GrinToNanogrin(text: string): Result<nat, AmountError> {
    var (whole, frac) := SplitDot(Trim(text));
    AmountOf(whole, frac)
  }

  /** The checks and the arithmetic, after the split. */
  function AmountOf(whole: string, frac: string): Result<nat, AmountError> {
    if whole == "" && frac == "" then Failure(Malformed)
    else if !AllDigits(whole) || !AllDigits(frac) then Failure(Malformed)
    else if |frac| > 9 then Failure(TooManyPlaces)
    else
      var w := if whole == "" then Some(0) else ParseU64(whole);
      var f := if frac == "" then Some(0) else ParseU64(frac);
      if w.None? || f.None? then Failure(Malformed)
      else
        var scaled := Rescale(f.value, |frac|);
        if w.value * NANO >= U64_LIMIT || w.value * NANO + scaled >= U64_LIMIT then Failure(Malformed)
        else Success(w.value * NANO + scaled)
  }

  /** Plain decimal digits, no leading zeros. */
  function PrintNat(n: nat): (s: string)
    ensures s != "" && AllDigits(s)
    ensures DecimalValue(s) == n
  {
    if n < 10 then [DigitChar(n)]
    else
      var s := PrintNat(n / 10) + [DigitChar(n % 10)];
      assert s[..|s| - 1] == PrintNat(n / 10);
      s
  }

  /** Exactly `width` digits, padded with zeros on the left (`{:09}`). */
  function PrintPadded(n: nat, width: nat): (s: string)
    requires n < Pow10(width)
    ensures |s| == width && AllDigits(s)
    ensures DecimalValue(s) == n
  {
    if width == 0 then ""
    else
      var s := PrintPadded(n / 10, width - 1) + [DigitChar(n % 10)];
      assert s[..|s| - 1] == PrintPadded(n / 10, width - 1);
      s
  }

  function TrimZeros(s: string): string {
    if s != "" && s[|s| - 1] == '0' then TrimZeros(s[..|s| - 1]) else s
  }

  /** `nanogrin_to_grin`: the shortest decimal GRIN text of an amount. */
  function NanogrinToGrin(nano: nat): string {
    var whole := nano / NANO;
    var frac := nano % NANO;
    if frac == 0 then PrintNat(whole)
    else
      assert Pow10(9) == NANO by { PowersOfTen(); }
      PrintNat(whole) + "." + TrimZeros(PrintPadded(frac, 9))
  }

  // ---------------------------------------------------------------------------
  // What a decimal text means

  /** `s` reads as integral digits `w` and fractional digits `f`, with or without a dot. */
  ghost predicate Reads(s: string, w: string, f: string) {
    && AllDigits(w) && AllDigits(f) && (w != "" || f != "")
    && (s == w + "." + f || (f == "" && s == w))
  }

  /** The exact amount, as a real number of GRIN. */
  ghost function Grins(w: string, f: string): real
    requires AllDigits(w) && AllDigits(f)
  {
    DecimalValue(w) as real + DecimalValue(f) as real / Pow10(|f|) as real
  }

  lemma PowersOfTen()
    ensures Pow10(0) == 1 && Pow10(1) == 10 && Pow10(2) == 100 && Pow10(3) == 1000
    ensures Pow10(4) == 10000 && Pow10(5) == 100000 && Pow10(6) == 1000000
    ensures Pow10(7) == 10000000 && Pow10(8) == 100000000 && Pow10(9) == 1000000000
  {
    assert Pow10(3) == 1000;
    assert Pow10(6) == 1000000;
  }

  lemma {:induction false} DecimalBound(s: string)
    requires AllDigits(s)
    ensures DecimalValue(s) < Pow10(|s|)
  {
    if s != "" {
      DecimalBound(s[..|s| - 1]);
    }
  }

  /** A reading is the split at the first dot. */
  lemma {:induction false} ReadsIsSplit(s: string, w: string, f: string)
    requires AllDigits(w)
    requires s == w + "." + f || (f == "" && s == w)
    ensures SplitDot(s) == (w, f)
  {
    if w == "" {
      assert s == "." + f || s == "";
      if s != "" {
        assert s[1..] == f;
      }
    } else {
      assert s[0] == w[0];
      assert s[1..] == w[1..] + "." + f || (f == "" && s[1..] == w[1..]);
      ReadsIsSplit(s[1..], w[1..], f);
      assert w == [w[0]] + w[1..];
    }
  }

  lemma {:induction false} SplitIsReading(s: string)
    ensures var (w, f) := SplitDot(s); s == w + "." + f || (f == "" && s == w)
  {
    if s != "" && s[0] == '.' {
      assert s == "" + "." + s[1..];
    } else if s != "" {
      SplitIsReading(s[1..]);
      var (w, f) := SplitDot(s[1..]);
      assert s == [s[0]] + s[1..];
      if s[1..] == w + "." + f {
        assert s == ([s[0]] + w) + "." + f;
      }
    }
  }

  /** Scaling nine places: the exact real product is the integer the code computes. */
  lemma ScaleIsExact(w: string, f: string)
    requires AllDigits(w) && AllDigits(f) && |f| <= 9
    ensures Grins(w, f) * NANO as real
         == (DecimalValue(w) * NANO + Rescale(DecimalValue(f), |f|)) as real
  {
    RescaleIsDivision(DecimalValue(f), |f|);
  }

  lemma RescaleIsDivision(v: nat, places: nat)
    requires places <= 9
    ensures v as real / Pow10(places) as real * NANO as real == Rescale(v, places) as real
  {
    PowersOfTen();
    match places {
      case 0 => case 1 => case 2 => case 3 => case 4 =>
      case 5 => case 6 => case 7 => case 8 => case 9 =>
    }
  }

  /** The amount a pair of digit runs denotes is what the parser computes, if it fits. */
  lemma AmountOfDigits(w: string, f: string)
    requires AllDigits(w) && AllDigits(f) && (w != "" || f != "") && |f| <= 9
    ensures var n := DecimalValue(w) * NANO + Rescale(DecimalValue(f), |f|);
            AmountOf(w, f) == if n < U64_LIMIT then Success(n) else Failure(Malformed)
  {
    FractionFits(f);
    DigitsParse(w);
    DigitsParse(f);
  }

  lemma FractionFits(f: string)
    requires AllDigits(f) && |f| <= 9
    ensures DecimalValue(f) < NANO
  {
    DecimalBound(f);
    PowersOfTen();
    match |f| {
      case 0 => case 1 => case 2 => case 3 => case 4 =>
      case 5 => case 6 => case 7 => case 8 => case 9 =>
    }
  }

  /** The text reads as a decimal of at most nine places whose exact value is `n` nanogrin. */
  ghost predicate ReadsAs(text: string, w: string, f: string, n: nat) {
    Reads(Trim(text), w, f) && |f| <= 9 && Grins(w, f) * 1_000_000_000.0 == n as real
  }

  lemma ParsedReads(text: string, n: nat)
    requires GrinToNanogrin(text) == Success(n)
    ensures n < U64_LIMIT && exists w, f :: ReadsAs(text, w, f, n)
  {
    var (w, f) := SplitDot(Trim(text));
    SplitIsReading(Trim(text));
    AmountOfDigits(w, f);
    ScaleIsExact(w, f);
    assert ReadsAs(text, w, f, n);
  }

  lemma ReadingParses(text: string, w: string, f: string, n: nat)
    requires n < U64_LIMIT && ReadsAs(text, w, f, n)
    ensures GrinToNanogrin(text) == Success(n)
  {
    ScaleIsExact(w, f);
    ReadsIsSplit(Trim(text), w, f);
    AmountOfDigits(w, f);
  }

  /**
   `grin_to_nanogrin` succeeds exactly on the well-formed decimals with at most nine
   fractional digits whose exact value fits u64, and returns that value.
   */
  lemma ParseIsExact(text: string, n: nat)
    ensures GrinToNanogrin(text) == Success(n) <==>
              n < 0x1_0000_0000_0000_0000 && exists w, f :: ReadsAs(text, w, f, n)
  {
    if GrinToNanogrin(text) == Success(n) {
      ParsedReads(text, n);
    }
    if w, f :| n < U64_LIMIT && ReadsAs(text, w, f, n) {
      ReadingParses(text, w, f, n);
    }
  }

  /** Only a reading with more than nine places is refused for its places. */
  lemma TooManyIff(text: string)
    ensures GrinToNanogrin(text) == Failure(TooManyPlaces) <==> exists w, f :: Reads(Trim(text), w, f) && |f| > 9
  {
    var s := Trim(text);
    if GrinToNanogrin(text) == Failure(TooManyPlaces) {
      var (w, f) := SplitDot(s);
      SplitIsReading(s);
      assert Reads(s, w, f);
    }
    if w, f :| Reads(s, w, f) && |f| > 9 {
      ReadsIsSplit(s, w, f);
    }
  }

  /** Digits never start with a sign, so `parse` reads all of them. */
  lemma DigitsParse(s: string)
    requires AllDigits(s)
    ensures s != "" ==>
              ParseU64(s) == if DecimalValue(s) < U64_LIMIT then Some(DecimalValue(s)) else None
  {
    if s != "" {
      assert IsDigit(s[0]);
    }
  }

  /** The rescaled fraction stays below one GRIN, so `frac_n *= 10^k` cannot overflow u64. */
  lemma NoIntermediateOverflow(f: string)
    requires AllDigits(f) && |f| <= 9
    ensures Rescale(DecimalValue(f), |f|) < 1_000_000_000
  {
    DecimalBound(f);
    PowersOfTen();
    match |f| {
      case 0 => case 1 => case 2 => case 3 => case 4 =>
      case 5 => case 6 => case 7 => case 8 => case 9 =>
    }
  }

  /** Dropping trailing zeros divides out the powers of ten it drops. */
  lemma {:induction false} TrimZerosValue(s: string)
    requires AllDigits(s)
    ensures var t := TrimZeros(s);
            && |t| <= |s| && AllDigits(t)
            && DecimalValue(s) == DecimalValue(t) * Pow10(|s| - |t|)
  {
    if s != "" && s[|s| - 1] == '0' {
      var u := s[..|s| - 1];
      TrimZerosValue(u);
      var v, p := DecimalValue(TrimZeros(u)), Pow10(|u| - |TrimZeros(u)|);
      assert DecimalValue(s) == DecimalValue(u) * 10;
      assert v * p * 10 == v * (10 * p);
    }
  }

  lemma PrintedIsTrim(s: string, w: string, f: string)
    requires w != "" && AllDigits(w) && AllDigits(f)
    requires s == if f == "" then w else w + "." + f
    ensures Trim(s) == s
  {
    assert s[0] == w[0] && s[|s| - 1] == if f == "" then w[|w| - 1] else f[|f| - 1];
    TrimKeeps(s);
  }

  /** Parsing inverts printing on every u64. */
  lemma ParseInvertsPrint(nano: nat)
    requires nano < U64_LIMIT
    ensures GrinToNanogrin(NanogrinToGrin(nano)) == Success(nano)
  {
    var s := NanogrinToGrin(nano);
    var w, frac := PrintNat(nano / NANO), nano % NANO;
    PowersOfTen();
    var padded := PrintPadded(frac, 9);
    var f := if frac == 0 then "" else TrimZeros(padded);
    TrimZerosValue(padded);
    if frac != 0 {
      assert s == w + "." + f;
    } else {
      assert s == w;
    }
    PrintedIsTrim(s, w, f);
    assert Reads(s, w, f);
    ScaleIsExact(w, f);
    assert DecimalValue(w) * NANO + Rescale(DecimalValue(f), |f|) == nano;
    ReadingParses(s, w, f, nano);
  }

  lemma {:induction false} TrimmedEnds(s: string)
    requires AllDigits(s)
    ensures AllDigits(TrimZeros(s)) && (TrimZeros(s) != "" ==> TrimZeros(s)[|TrimZeros(s)| - 1] != '0')
    ensures DecimalValue(s) > 0 ==> TrimZeros(s) != ""
  {
    if s != "" && s[|s| - 1] == '0' {
      TrimmedEnds(s[..|s| - 1]);
    }
  }

  /** What is printed is short: no dot for whole GRIN, and no zero at the end of a fraction. */
  lemma PrintedShort(nano: nat)
    ensures var s := NanogrinToGrin(nano);
            && (nano % 1_000_000_000 == 0 ==> AllDigits(s))
            && (nano % 1_000_000_000 != 0 ==> '.' in s && s[|s| - 1] != '0')
  {
    if nano % NANO != 0 {
      PowersOfTen();
      TrimmedEnds(PrintPadded(nano % NANO, 9));
      var w, f := PrintNat(nano / NANO), TrimZeros(PrintPadded(nano % NANO, 9));
      assert (w + "." + f)[|w|] == '.' && (w + "." + f)[|w| + |f|] == f[|f| - 1];
    }
  }
}
