/**
 The BIP-173 checksum as the relay plugin computes it (plugin/floonet_writepolicy.py,
 `_bech32_polymod`): a linear code over GF(2).
 */
module Polymod {
  import opened ExclusiveOr
  import opened Radix

  /** A bech32 symbol. */
  type Symbol = v: nat | v < 32

  const LOW25: nat := 0x200_0000
  const TOP30: nat := 0x4000_0000
  const GENERATOR: seq<nat> := [0x3B6A57B2, 0x26508E6D, 0x1EA119FA, 0x3D4233DD, 0x2A1462B3]

  function Gate(bit: nat, generator: nat): nat {
    if bit == 1 then generator else 0
  }

  /** What the generator words contribute, one for each bit of `top` from the lowest up. */
  function Feedback(top: nat, gens: seq<nat>): nat {
    if gens == [] then 0 else Xor(Gate(top % 2, gens[0]), Feedback(top / 2, gens[1..]))
  }

  /** One symbol into the 30-bit register. */
  function Shift(chk: nat, v: nat): nat {
    Xor(Xor(chk % LOW25 * 32, v), Feedback(chk / LOW25, GENERATOR))
  }

  /** The register after a run of symbols. */
  function Absorb(chk: nat, vs: seq<nat>): nat {
    if vs == [] then chk else Shift(Absorb(chk, vs[..|vs| - 1]), vs[|vs| - 1])
  }

  /** Python's `n >> k`. */
  function Shr(n: nat, k: nat): nat {
    if k == 0 then n else Shr(n, k - 1) / 2
  }

  /** `_bech32_polymod`. */
  method BechPolymod(values: seq<Symbol>) returns (chk: nat)
    ensures chk == Absorb(1, values)
    ensures chk < TOP30
  {
    chk := 1;
    for n := 0 to |values|
      invariant chk == Absorb(1, values[..n])
    {
      var value := values[n];
      var top := chk / LOW25;
      ghost var next := Shift(chk, value);
      chk := Xor(chk % LOW25 * 32, value);
      assert GENERATOR[0..] == GENERATOR;
      for i := 0 to 5
        invariant Xor(chk, Feedback(Shr(top, i), GENERATOR[i..])) == next
      {
        var gate := if Shr(top, i) % 2 == 1 then GENERATOR[i] else 0;
        XorAssoc(chk, gate, Feedback(Shr(top, i + 1), GENERATOR[i + 1..]));
        assert GENERATOR[i..][1..] == GENERATOR[i + 1..];
        chk := Xor(chk, gate);
      }
      assert GENERATOR[5..] == [];
      XorZero(chk);
      assert values[..n + 1][..n] == values[..n];
    }
    assert values[..|values|] == values;
    AbsorbBound(1, values);
  }

  // ---------------------------------------------------------------------------
  // One step of the register

  lemma {:induction false} FeedbackBound(top: nat, gens: seq<nat>)
    requires forall i | 0 <= i < |gens| :: gens[i] < TOP30
    ensures Feedback(top, gens) < TOP30
  {
    if gens != [] {
      FeedbackBound(top / 2, gens[1..]);
      Powers();
      XorBound(Gate(top % 2, gens[0]), Feedback(top / 2, gens[1..]), 30);
    }
  }

  lemma {:induction false} FeedbackLinear(s: nat, t: nat, gens: seq<nat>)
    ensures Feedback(Xor(s, t), gens) == Xor(Feedback(s, gens), Feedback(t, gens))
  {
    if gens == [] {
      XorZero(0);
    } else {
      var g, rest := gens[0], gens[1..];
      XorBit(s, t);
      GateLinear(s % 2, t % 2, g);
      FeedbackLinear(s / 2, t / 2, rest);
      XorSwap(Gate(s % 2, g), Gate(t % 2, g), Feedback(s / 2, rest), Feedback(t / 2, rest));
    }
  }

  lemma GateLinear(i: nat, j: nat, g: nat)
    requires i < 2 && j < 2
    ensures Gate(if i == j then 0 else 1, g) == Xor(Gate(i, g), Gate(j, g))
  {
    XorZero(g);
    XorZero(0);
    XorSelf(g);
  }

  lemma ShiftBound(chk: nat, v: Symbol)
    requires chk < TOP30
    ensures Shift(chk, v) < TOP30
  {
    FeedbackBound(chk / LOW25, GENERATOR);
    Powers();
    XorBound(chk % LOW25 * 32, v, 30);
    XorBound(Xor(chk % LOW25 * 32, v), Feedback(chk / LOW25, GENERATOR), 30);
  }

  /** Splitting the register at bit 25 commutes with exclusive or. */
  lemma SplitLinear(c: nat, d: nat)
    ensures Xor(c, d) / LOW25 == Xor(c / LOW25, d / LOW25)
    ensures Xor(c, d) % LOW25 * 32 == Xor(c % LOW25 * 32, d % LOW25 * 32)
  {
    Xor25(c / LOW25, d / LOW25, c % LOW25, d % LOW25);
    XorZero(0);
    Xor32(c % LOW25, d % LOW25, 0, 0);
  }

  /** The step is linear over GF(2). */
  lemma ShiftLinear(c: nat, d: nat, v: nat, w: nat)
    ensures Shift(Xor(c, d), Xor(v, w)) == Xor(Shift(c, v), Shift(d, w))
  {
    SplitLinear(c, d);
    FeedbackLinear(c / LOW25, d / LOW25, GENERATOR);
    var x, y := c % LOW25 * 32, d % LOW25 * 32;
    XorSwap(x, y, v, w);
    XorSwap(Xor(x, v), Xor(y, w), Feedback(c / LOW25, GENERATOR), Feedback(d / LOW25, GENERATOR));
  }

  /** The five low bits of the feedback come from the five low bits of the generator words. */
  lemma {:induction false} FeedbackLow(top: nat, gens: seq<nat>, lows: seq<nat>)
    requires |gens| == |lows| && forall i | 0 <= i < |gens| :: lows[i] == gens[i] % 32
    ensures Feedback(top, gens) % 32 == Feedback(top, lows)
  {
    if gens != [] {
      FeedbackLow(top / 2, gens[1..], lows[1..]);
      XorLow(Gate(top % 2, gens[0]), Feedback(top / 2, gens[1..]));
    }
  }

  lemma XorLow(g: nat, f: nat)
    ensures Xor(g, f) % 32 == Xor(g % 32, f % 32)
  {
    XorLowOf(g / 32, g % 32, f / 32, f % 32);
  }

  lemma XorLowOf(a: nat, u: nat, b: nat, v: nat)
    requires u < 32 && v < 32
    ensures Xor(32 * a + u, 32 * b + v) % 32 == Xor(u, v)
  {
    Xor32(a, b, u, v);
    LowOf(Xor(a, b), Xor(u, v));
  }

  lemma LowOf(z: nat, w: nat)
    requires w < 32
    ensures (32 * z + w) % 32 == w
  {
  }

  /** How many of the gated words are odd, when every word is 0 or 1. */
  function Tally(top: nat, odds: seq<nat>): nat {
    if odds == [] then 0 else Gate(top % 2, odds[0]) + Tally(top / 2, odds[1..])
  }

  function Halve(gens: seq<nat>): (r: seq<nat>)
    ensures |r| == |gens| && forall i | 0 <= i < |gens| :: r[i] == gens[i] / 2
  {
    seq(|gens|, i requires 0 <= i < |gens| => gens[i] / 2)
  }

  function Odd(gens: seq<nat>): (r: seq<nat>)
    ensures |r| == |gens| && forall i | 0 <= i < |gens| :: r[i] == gens[i] % 2
  {
    seq(|gens|, i requires 0 <= i < |gens| => gens[i] % 2)
  }

  /** The feedback of the halved words is the halved feedback. */
  lemma {:induction false} FeedbackHalf(top: nat, gens: seq<nat>)
    ensures Feedback(top, gens) / 2 == Feedback(top, Halve(gens))
  {
    if gens != [] {
      FeedbackHalf(top / 2, gens[1..]);
      assert Halve(gens)[1..] == Halve(gens[1..]);
      XorBit(Gate(top % 2, gens[0]), Feedback(top / 2, gens[1..]));
    }
  }

  /** The low bit of the feedback is a parity. */
  lemma {:induction false} FeedbackParity(top: nat, gens: seq<nat>)
    ensures Feedback(top, gens) % 2 == Tally(top, Odd(gens)) % 2
  {
    if gens != [] {
      FeedbackParity(top / 2, gens[1..]);
      assert Odd(gens)[1..] == Odd(gens[1..]);
      XorBit(Gate(top % 2, gens[0]), Feedback(top / 2, gens[1..]));
    }
  }

  lemma FeedbackBits(top: nat, gens: seq<nat>)
    ensures Feedback(top, gens) / 2 == Feedback(top, Halve(gens))
    ensures Feedback(top, gens) % 2 == Tally(top, Odd(gens)) % 2
  {
    FeedbackHalf(top, gens);
    FeedbackParity(top, gens);
  }

  /** Feedback zero means an even number of set words at each of the five low bits. */
  lemma Parities(top: nat, gens: seq<nat>)
    requires Feedback(top, gens) == 0
    ensures Tally(top, Odd(gens)) % 2 == 0
    ensures Tally(top, Odd(Halve(gens))) % 2 == 0
    ensures Tally(top, Odd(Halve(Halve(gens)))) % 2 == 0
    ensures Tally(top, Odd(Halve(Halve(Halve(gens))))) % 2 == 0
    ensures Tally(top, Odd(Halve(Halve(Halve(Halve(gens)))))) % 2 == 0
  {
    FeedbackBits(top, gens);
    FeedbackBits(top, Halve(gens));
    FeedbackBits(top, Halve(Halve(gens)));
    FeedbackBits(top, Halve(Halve(Halve(gens))));
    FeedbackBits(top, Halve(Halve(Halve(Halve(gens)))));
  }

  lemma TallyOfFive(top: nat, g: nat, h: nat, i: nat, j: nat, k: nat)
    ensures Tally(top, [g, h, i, j, k])
         == Gate(top % 2, g) + Gate(top / 2 % 2, h) + Gate(top / 4 % 2, i) + Gate(top / 8 % 2, j) + Gate(top / 16 % 2, k)
  {
    assert [g, h, i, j, k][1..] == [h, i, j, k] && [h, i, j, k][1..] == [i, j, k];
    assert [i, j, k][1..] == [j, k] && [j, k][1..] == [k] && [k][1..] == [];
    assert top / 2 / 2 == top / 4 && top / 4 / 2 == top / 8 && top / 8 / 2 == top / 16;
    assert Tally(top / 16, [k]) == Gate(top / 16 % 2, k);
    assert Tally(top / 8, [j, k]) == Gate(top / 8 % 2, j) + Tally(top / 16, [k]);
    assert Tally(top / 4, [i, j, k]) == Gate(top / 4 % 2, i) + Tally(top / 8, [j, k]);
  }

  /** The five low words, bit by bit: one equation for each bit. */
  lemma LowEquations(top: nat, low: seq<nat>)
    requires low == [18, 13, 26, 29, 19] && Feedback(top, low) == 0
    ensures Tally(top, [0, 1, 0, 1, 1]) % 2 == 0
    ensures Tally(top, [1, 0, 1, 0, 1]) % 2 == 0
    ensures Tally(top, [0, 1, 0, 1, 0]) % 2 == 0
    ensures Tally(top, [0, 1, 1, 1, 0]) % 2 == 0
    ensures Tally(top, [1, 0, 1, 1, 1]) % 2 == 0
  {
    Parities(top, low);
    BitRows(low);
  }

  /** The low symbols of the generators, bit by bit. */
  lemma BitRows(low: seq<nat>)
    requires low == [18, 13, 26, 29, 19]
    ensures Odd(low) == [0, 1, 0, 1, 1]
    ensures Odd(Halve(low)) == [1, 0, 1, 0, 1]
    ensures Odd(Halve(Halve(low))) == [0, 1, 0, 1, 0]
    ensures Odd(Halve(Halve(Halve(low)))) == [0, 1, 1, 1, 0]
    ensures Odd(Halve(Halve(Halve(Halve(low))))) == [1, 0, 1, 1, 1]
  {
    var h1 := Halve(low);
    assert h1 == [9, 6, 13, 14, 9];
    var h2 := Halve(h1);
    assert h2 == [4, 3, 6, 7, 4];
    var h3 := Halve(h2);
    assert h3 == [2, 1, 3, 3, 2];
  }

  /** The five low words are linearly independent over GF(2). */
  lemma LowKernel(top: nat)
    requires top < 32
    requires Tally(top, [0, 1, 0, 1, 1]) % 2 == 0 && Tally(top, [1, 0, 1, 0, 1]) % 2 == 0
    requires Tally(top, [0, 1, 0, 1, 0]) % 2 == 0 && Tally(top, [0, 1, 1, 1, 0]) % 2 == 0
    requires Tally(top, [1, 0, 1, 1, 1]) % 2 == 0
    ensures top == 0
  {
    TallyOfFive(top, 0, 1, 0, 1, 1);
    TallyOfFive(top, 1, 0, 1, 0, 1);
    TallyOfFive(top, 0, 1, 0, 1, 0);
    TallyOfFive(top, 0, 1, 1, 1, 0);
    TallyOfFive(top, 1, 0, 1, 1, 1);
    Independent(top % 2, top / 2 % 2, top / 4 % 2, top / 8 % 2, top / 16 % 2);
    NoBits(top);
  }

  lemma NoBits(top: nat)
    requires top < 32 && top % 2 == top / 2 % 2 == top / 4 % 2 == top / 8 % 2 == top / 16 % 2 == 0
    ensures top == 0
  {
  }

  lemma Independent(a: nat, b: nat, c: nat, d: nat, e: nat)
    requires a < 2 && b < 2 && c < 2 && d < 2 && e < 2
    requires (b + d + e) % 2 == 0 && (a + c + e) % 2 == 0 && (b + d) % 2 == 0
    requires (b + c + d) % 2 == 0 && (a + c + d + e) % 2 == 0
    ensures a == b == c == d == e == 0
  {
    assert e == 0 && c == 0;
  }

  /** Feedback that is zero in its five low bits comes from no bit at all. */
  lemma FeedbackKernel(top: nat)
    requires top < 32 && Feedback(top, GENERATOR) % 32 == 0
    ensures top == 0
  {
    var low := [18, 13, 26, 29, 19];
    FeedbackLow(top, GENERATOR, low);
    LowEquations(top, low);
    LowKernel(top);
  }

  /** A nonzero register stays nonzero under a zero symbol. */
  lemma ShiftKernel(c: nat)
    requires c < TOP30 && Shift(c, 0) == 0
    ensures c == 0
  {
    KernelOfParts(c / LOW25, c % LOW25, Feedback(c / LOW25, GENERATOR));
  }

  lemma KernelOfParts(top: nat, low: nat, f: nat)
    requires top < 32 && f == Feedback(top, GENERATOR) && Xor(Xor(low * 32, 0), f) == 0
    ensures top == 0 && low == 0
  {
    SumIsZero(low * 32, f);
    KernelIsZero(top, low);
  }

  lemma KernelIsZero(top: nat, low: nat)
    requires top < 32 && low * 32 == Feedback(top, GENERATOR)
    ensures top == 0 && low == 0
  {
    LowOf(low, 0);
    FeedbackKernel(top);
    FeedbackOfZero(GENERATOR);
  }

  lemma SumIsZero(low: nat, f: nat)
    requires Xor(Xor(low, 0), f) == 0
    ensures low == f
  {
    XorZero(low);
    XorSelf(low);
    XorCancel(low, f, low);
  }

  lemma {:induction false} FeedbackOfZero(gens: seq<nat>)
    ensures Feedback(0, gens) == 0
  {
    if gens != [] {
      FeedbackOfZero(gens[1..]);
      XorZero(0);
    }
  }

  /** The step loses nothing: registers that differ still differ after the same symbol. */
  lemma ShiftInjective(c: nat, d: nat, v: nat)
    requires c < TOP30 && d < TOP30 && Shift(c, v) == Shift(d, v)
    ensures c == d
  {
    ShiftLinear(c, d, v, v);
    XorSelf(v);
    XorSelf(Shift(c, v));
    Powers();
    XorBound(c, d, 30);
    ShiftKernel(Xor(c, d));
    XorSelf(c);
    XorCancel(c, d, c);
  }

  // ---------------------------------------------------------------------------
  // Runs of symbols

  ghost predicate IsSymbols(vs: seq<nat>) {
    IsDigits(32, vs)
  }

  function Zeros(n: nat): (zs: seq<nat>)
    ensures |zs| == n && forall i | 0 <= i < n :: zs[i] == 0
  {
    seq(n, _ => 0)
  }

  lemma {:induction false} AbsorbBound(chk: nat, vs: seq<nat>)
    requires chk < TOP30 && IsSymbols(vs)
    ensures Absorb(chk, vs) < TOP30
  {
    if vs != [] {
      AbsorbBound(chk, vs[..|vs| - 1]);
      ShiftBound(Absorb(chk, vs[..|vs| - 1]), vs[|vs| - 1]);
    }
  }

  lemma {:induction false} AbsorbConcat(chk: nat, xs: seq<nat>, ys: seq<nat>)
    ensures Absorb(chk, xs + ys) == Absorb(Absorb(chk, xs), ys)
  {
    if ys == [] {
      assert xs + ys == xs;
    } else {
      var n := |ys| - 1;
      assert (xs + ys)[..|xs + ys| - 1] == xs + ys[..n];
      AbsorbConcat(chk, xs, ys[..n]);
    }
  }

  /** What the register held and what the symbols add are independent summands. */
  lemma {:induction false} AbsorbSplit(chk: nat, vs: seq<nat>)
    ensures Absorb(chk, vs) == Xor(Absorb(chk, Zeros(|vs|)), Absorb(0, vs))
  {
    if vs == [] {
      XorZero(chk);
    } else {
      var n := |vs| - 1;
      AbsorbSplit(chk, vs[..n]);
      assert Zeros(|vs|)[..n] == Zeros(n);
      ShiftLinear(Absorb(chk, Zeros(n)), Absorb(0, vs[..n]), 0, vs[n]);
      XorZero(vs[n]);
    }
  }

  /** While the top five bits are empty a symbol is just appended. */
  lemma ShiftOfSmall(c: nat, v: Symbol)
    requires c < LOW25
    ensures Shift(c, v) == 32 * c + v
  {
    FeedbackOfZero(GENERATOR);
    AppendSymbol(c, v);
  }

  lemma AppendSymbol(c: nat, v: Symbol)
    ensures Xor(Xor(c * 32, v), 0) == 32 * c + v
  {
    XorZero(c);
    XorZero(v);
    Xor32(c, 0, 0, v);
    XorZero(32 * c + v);
  }

  /** Up to six symbols stand side by side in an empty register. */
  lemma {:induction false} AbsorbPacks(vs: seq<nat>)
    requires |vs| <= 6 && IsSymbols(vs)
    ensures Absorb(0, vs) == Val(32, vs)
  {
    if vs != [] {
      var n := |vs| - 1;
      AbsorbPacks(vs[..n]);
      ValBound(32, vs[..n]);
      SmallPowers(n);
      ShiftOfSmall(Val(32, vs[..n]), vs[n]);
    }
  }

  lemma SmallPowers(n: nat)
    requires n <= 5
    ensures Pow(32, n) <= LOW25
  {
    assert Pow(32, 1) == 32 && Pow(32, 2) == 1024 && Pow(32, 3) == 32768;
    assert Pow(32, 4) == 0x10_0000 && Pow(32, 5) == LOW25;
  }

  lemma {:induction false} AbsorbInjective(c: nat, d: nat, vs: seq<nat>)
    requires c < TOP30 && d < TOP30 && IsSymbols(vs) && Absorb(c, vs) == Absorb(d, vs)
    ensures c == d
  {
    if vs != [] {
      var n := |vs| - 1;
      AbsorbBound(c, vs[..n]);
      AbsorbBound(d, vs[..n]);
      ShiftInjective(Absorb(c, vs[..n]), Absorb(d, vs[..n]), vs[n]);
      AbsorbInjective(c, d, vs[..n]);
    }
  }

  /** From one register, different runs of at most six symbols lead to different registers. */
  lemma ShortRunsDiffer(c: nat, u: seq<nat>, v: seq<nat>)
    requires |u| == |v| <= 6 && IsSymbols(u) && IsSymbols(v) && Absorb(c, u) == Absorb(c, v)
    ensures u == v
  {
    AbsorbSplit(c, u);
    AbsorbSplit(c, v);
    XorCancel(Absorb(c, Zeros(|u|)), Absorb(0, u), Absorb(0, v));
    AbsorbPacks(u);
    AbsorbPacks(v);
    ValInjective(32, u, v);
  }

  /** From one register, different short runs stay apart whatever follows. */
  lemma BurstStaysApart(c: nat, u: seq<nat>, v: seq<nat>, s: seq<nat>)
    requires c < TOP30 && IsSymbols(u) && IsSymbols(v) && IsSymbols(s)
    requires |u| == |v| <= 6 && Absorb(Absorb(c, u), s) == Absorb(Absorb(c, v), s)
    ensures u == v
  {
    AbsorbBound(c, u);
    AbsorbBound(c, v);
    AbsorbInjective(Absorb(c, u), Absorb(c, v), s);
    ShortRunsDiffer(c, u, v);
  }

  lemma AbsorbThree(p: seq<nat>, u: seq<nat>, s: seq<nat>)
    ensures Absorb(1, p + u + s) == Absorb(Absorb(Absorb(1, p), u), s)
  {
    AbsorbConcat(1, p + u, s);
    AbsorbConcat(1, p, u);
  }

  /**
   Every burst is detected: two sequences of any length that differ, but only inside six
   consecutive symbols `u` and `v`, never have the same checksum. One wrong symbol is the
   case of runs of length one.
   */
  lemma BurstDetected(p: seq<nat>, u: seq<nat>, v: seq<nat>, s: seq<nat>)
    requires IsSymbols(p) && IsSymbols(u) && IsSymbols(v) && IsSymbols(s)
    requires |u| == |v| <= 6 && u != v
    ensures Absorb(1, p + u + s) != Absorb(1, p + v + s)
  {
    if Absorb(1, p + u + s) == Absorb(1, p + v + s) {
      AbsorbThree(p, u, s);
      AbsorbThree(p, v, s);
      AbsorbBound(1, p);
      BurstStaysApart(Absorb(1, p), u, v, s);
    }
  }

  /** `bech32_create_checksum` of BIP-173: six symbols that make the register end at 1. */
  function Checksum(prefix: seq<nat>): (d: seq<nat>)
    ensures |d| == 6 && IsSymbols(d)
  {
    Digits(32, 6, Xor(Absorb(1, prefix + Zeros(6)), 1))
  }

  /** The six checksum symbols exist and are unique. */
  lemma ChecksumUnique(prefix: seq<nat>, d: seq<nat>)
    requires IsSymbols(prefix) && |d| == 6 && IsSymbols(d)
    ensures Absorb(1, prefix + d) == 1 <==> d == Checksum(prefix)
  {
    var c := Absorb(1, prefix);
    var z := Absorb(c, Zeros(6));
    AbsorbConcat(1, prefix, Zeros(6));
    AbsorbBound(1, prefix);
    AbsorbBound(c, Zeros(6));
    AbsorbConcat(1, prefix, d);
    AbsorbSplit(c, d);
    AbsorbPacks(d);
    assert Absorb(1, prefix + d) == Xor(z, Val(32, d));
    var target := Xor(z, 1);
    Powers();
    XorBound(z, 1, 30);
    assert Pow(32, 6) == TOP30 by { SmallPowers(5); assert Pow(32, 5) == LOW25; }
    ValOfDigits(32, 6, target);
    XorAssoc(z, z, 1);
    XorSelf(z);
    XorZero(1);
    if Absorb(1, prefix + d) == 1 {
      XorCancel(z, Val(32, d), target);
      ValInjective(32, d, Checksum(prefix));
    }
  }
}
