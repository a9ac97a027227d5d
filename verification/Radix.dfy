/** Numbers as runs of digits, most significant first. */
module Radix {

  ghost predicate IsDigits(base: nat, ds: seq<nat>) {
    forall i | 0 <= i < |ds| :: ds[i] < base
  }

  function Val(base: nat, ds: seq<nat>): nat {
    if ds == [] then 0 else Val(base, ds[..|ds| - 1]) * base + ds[|ds| - 1]
  }

  function Pow(base: nat, n: nat): nat {
    if n == 0 then 1 else Pow(base, n - 1) * base
  }

  lemma PowTwo()
    ensures Pow(2, 1) == 2 && Pow(2, 4) == 16 && Pow(2, 5) == 32 && Pow(2, 8) == 256
  {
    assert Pow(2, 4) == 16;
  }

  lemma MulLess(v: int, p: int, base: nat)
    requires v < p
    ensures v * base + base <= p * base
  {
    var gap := p - v - 1;
    assert gap * base >= 0;
    assert p * base == (v + 1 + gap) * base == v * base + base + gap * base;
  }

  lemma DivLess(v: nat, base: nat, p: nat)
    requires base > 0 && v < p * base
    ensures v / base < p
  {
    var q := v / base;
    assert q * base <= v;
    if p < q { MulLess(p, q, base); }
  }

  /** Quotient and remainder are unique. */
  lemma DivUnique(q: nat, r: nat, p: nat, s: nat, base: nat)
    requires r < base && s < base && q * base + r == p * base + s
    ensures q == p && r == s
  {
    if q < p { MulLess(q, p, base); }
    if p < q { MulLess(p, q, base); }
  }

  /** Digits of one length are determined by the number. */
  lemma {:induction false} ValInjective(base: nat, xs: seq<nat>, ys: seq<nat>)
    requires |xs| == |ys| && IsDigits(base, xs) && IsDigits(base, ys)
    requires Val(base, xs) == Val(base, ys)
    ensures xs == ys
  {
    var n := |xs|;
    if n != 0 {
      DivUnique(Val(base, xs[..n - 1]), xs[n - 1], Val(base, ys[..n - 1]), ys[n - 1], base);
      ValInjective(base, xs[..n - 1], ys[..n - 1]);
      assert xs == xs[..n - 1] + [xs[n - 1]];
      assert ys == ys[..n - 1] + [ys[n - 1]];
    }
  }

  lemma {:induction false} ValBound(base: nat, ds: seq<nat>)
    requires IsDigits(base, ds)
    ensures Val(base, ds) < Pow(base, |ds|)
  {
    var n := |ds|;
    if n != 0 {
      ValBound(base, ds[..n - 1]);
      MulLess(Val(base, ds[..n - 1]), Pow(base, n - 1), base);
    }
  }

  lemma {:induction false} ValConcat(base: nat, xs: seq<nat>, ys: seq<nat>)
    ensures Val(base, xs + ys) == Val(base, xs) * Pow(base, |ys|) + Val(base, ys)
  {
    var n := |ys|;
    if n == 0 {
      assert xs + ys == xs;
    } else {
      ValConcat(base, xs, ys[..n - 1]);
      assert (xs + ys)[..|xs + ys| - 1] == xs + ys[..n - 1];
      Distribute(Val(base, xs), Pow(base, n - 1), Val(base, ys[..n - 1]), base);
    }
  }

  lemma Distribute(v: nat, p: nat, w: nat, base: nat)
    ensures (v * p + w) * base == v * (p * base) + w * base
  {
  }

  lemma ValOfOne(base: nat, d: nat)
    ensures Val(base, [d]) == d
  {
    assert [d][..0] == [];
    assert Val(base, []) == 0;
  }

  /** The `n` low digits of a number. */
  function Digits(base: nat, n: nat, v: nat): (ds: seq<nat>)
    requires base > 0
    ensures |ds| == n && IsDigits(base, ds)
  {
    if n == 0 then [] else Digits(base, n - 1, v / base) + [v % base]
  }

  lemma {:induction false} ValOfDigits(base: nat, n: nat, v: nat)
    requires base > 0 && v < Pow(base, n)
    ensures Val(base, Digits(base, n, v)) == v
  {
    if n != 0 {
      DivLess(v, base, Pow(base, n - 1));
      ValOfDigits(base, n - 1, v / base);
      assert Digits(base, n, v)[..n - 1] == Digits(base, n - 1, v / base);
    }
  }

  lemma DigitsOfVal(base: nat, ds: seq<nat>)
    requires base > 0 && IsDigits(base, ds)
    ensures Digits(base, |ds|, Val(base, ds)) == ds
  {
    ValBound(base, ds);
    ValOfDigits(base, |ds|, Val(base, ds));
    ValInjective(base, Digits(base, |ds|, Val(base, ds)), ds);
  }

  // ---------------------------------------------------------------------------
  // Bit strings

  /** The bits of a run of `k`-bit digits, one digit after another. */
  function Bits(k: nat, ds: seq<nat>): (bs: seq<nat>)
    ensures |bs| == k * |ds| && IsDigits(2, bs)
  {
    if ds == [] then [] else Bits(k, ds[..|ds| - 1]) + Digits(2, k, ds[|ds| - 1])
  }

  /** A bit string cut into `n` digits of `k` bits. */
  function Group(k: nat, n: nat, bs: seq<nat>): (ds: seq<nat>)
    requires |bs| == k * n && IsDigits(2, bs)
    ensures |ds| == n && IsDigits(Pow(2, k), ds)
  {
    if n == 0 then []
    else
      var m := k * (n - 1);
      assert m + k == k * n;
      ValBound(2, bs[m..]);
      Group(k, n - 1, bs[..m]) + [Val(2, bs[m..])]
  }

  /** Writing the digits out in bits does not change the number. */
  lemma {:induction false} BitsKeepValue(k: nat, ds: seq<nat>)
    requires IsDigits(Pow(2, k), ds)
    ensures Val(2, Bits(k, ds)) == Val(Pow(2, k), ds)
  {
    var n := |ds|;
    if n != 0 {
      BitsKeepValue(k, ds[..n - 1]);
      ValConcat(2, Bits(k, ds[..n - 1]), Digits(2, k, ds[n - 1]));
      ValOfDigits(2, k, ds[n - 1]);
    }
  }

  lemma BitsSnoc(k: nat, ds: seq<nat>, d: nat)
    ensures Bits(k, ds + [d]) == Bits(k, ds) + Digits(2, k, d)
  {
    assert (ds + [d])[..|ds|] == ds;
  }

  /** Grouping and writing out are inverse. */
  lemma {:induction false} BitsOfGroup(k: nat, n: nat, bs: seq<nat>)
    requires |bs| == k * n && IsDigits(2, bs)
    ensures Bits(k, Group(k, n, bs)) == bs
  {
    if n != 0 {
      var m := k * (n - 1);
      assert m + k == |bs|;
      var head, tail := bs[..m], bs[m..];
      assert bs == head + tail;
      BitsOfGroup(k, n - 1, head);
      DigitsOfVal(2, tail);
      BitsSnoc(k, Group(k, n - 1, head), Val(2, tail));
    }
  }
}
