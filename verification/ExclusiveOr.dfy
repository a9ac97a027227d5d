/** Exclusive or on the natural numbers, bit by bit, with the laws the checksum needs. */
module ExclusiveOr {

  /** The lowest bit of the sum without carry. */
  function Bit(a: nat, b: nat): (r: nat)
    ensures r < 2
  {
    if a % 2 == b % 2 then 0 else 1
  }

  function Xor(a: nat, b: nat): nat
    decreases a + b
  {
    if a == 0 && b == 0 then 0 else 2 * Xor(a / 2, b / 2) + Bit(a, b)
  }

  function Pow2(k: nat): (p: nat)
    ensures p > 0
  {
    if k == 0 then 1 else 2 * Pow2(k - 1)
  }

  lemma Powers()
    ensures Pow2(5) == 32 && Pow2(25) == 0x200_0000 && Pow2(30) == 0x4000_0000
  {
    assert Pow2(10) == 1024;
    assert Pow2(15) == 32768;
    assert Pow2(20) == 0x10_0000;
    assert Pow2(25) == 0x200_0000;
  }

  lemma XorBit(a: nat, b: nat)
    ensures Xor(a, b) / 2 == Xor(a / 2, b / 2)
    ensures Xor(a, b) % 2 == Bit(a, b)
  {
  }

  lemma {:induction false} XorZero(a: nat)
    ensures Xor(a, 0) == a && Xor(0, a) == a
    decreases a
  {
    if a != 0 { XorZero(a / 2); }
  }

  lemma {:induction false} XorSelf(a: nat)
    ensures Xor(a, a) == 0
    decreases a
  {
    if a != 0 { XorSelf(a / 2); }
  }

  lemma {:induction false} XorComm(a: nat, b: nat)
    ensures Xor(a, b) == Xor(b, a)
    decreases a + b
  {
    if a + b != 0 { XorComm(a / 2, b / 2); }
  }

  lemma {:induction false} XorAssoc(a: nat, b: nat, c: nat)
    ensures Xor(Xor(a, b), c) == Xor(a, Xor(b, c))
    decreases a + b + c, 1
  {
    if a + b + c != 0 {
      XorBit(a, b);
      XorBit(b, c);
      AssocStep(a, b, c, Xor(a, b), Xor(b, c));
    }
  }

  lemma {:induction false} AssocStep(a: nat, b: nat, c: nat, ab: nat, bc: nat)
    requires a + b + c != 0
    requires ab == Xor(a, b) && ab / 2 == Xor(a / 2, b / 2) && ab % 2 == Bit(a, b)
    requires bc == Xor(b, c) && bc / 2 == Xor(b / 2, c / 2) && bc % 2 == Bit(b, c)
    ensures Xor(ab, c) == Xor(a, bc)
    decreases a + b + c, 0
  {
    XorAssoc(a / 2, b / 2, c / 2);
    XorBit(ab, c);
    XorBit(a, bc);
  }

  lemma XorCancel(a: nat, b: nat, c: nat)
    requires Xor(a, b) == Xor(a, c)
    ensures b == c
  {
    XorAssoc(a, a, b);
    XorAssoc(a, a, c);
    XorSelf(a);
    XorZero(b);
    XorZero(c);
  }

  /** Exchange the inner operands of two sums. */
  lemma XorSwap(a: nat, b: nat, c: nat, d: nat)
    ensures Xor(Xor(a, b), Xor(c, d)) == Xor(Xor(a, c), Xor(b, d))
  {
    XorAssoc(a, b, Xor(c, d));
    XorAssoc(b, c, d);
    XorComm(b, c);
    XorAssoc(c, b, d);
    XorAssoc(a, c, Xor(b, d));
  }

  lemma {:induction false} XorBound(a: nat, b: nat, k: nat)
    requires a < Pow2(k) && b < Pow2(k)
    ensures Xor(a, b) < Pow2(k)
  {
    if k != 0 { XorBound(a / 2, b / 2, k - 1); }
  }

  /** One more low bit on each side. */
  lemma BlockStep(x: nat, y: nat, z: nat, u: nat, v: nat)
    requires Xor(x + u / 2, y + v / 2) == z + Xor(u / 2, v / 2)
    ensures Xor(2 * x + u, 2 * y + v) == 2 * z + Xor(u, v)
  {
    assert (2 * x + u) / 2 == x + u / 2 && (2 * y + v) / 2 == y + v / 2;
    XorBit(2 * x + u, 2 * y + v);
    XorBit(u, v);
  }

  /** One more low bit on each side, below blocks of height `q == 2 * p`. */
  lemma BlocksStep(p: nat, q: nat, a: nat, b: nat, c: nat, u: nat, v: nat)
    requires q == 2 * p
    requires Xor(p * a + u / 2, p * b + v / 2) == p * c + Xor(u / 2, v / 2)
    ensures Xor(q * a + u, q * b + v) == q * c + Xor(u, v)
  {
    BlockStep(p * a, p * b, p * c, u, v);
    Doubled(p, q, a);
    Doubled(p, q, b);
    Doubled(p, q, c);
  }

  lemma Doubled(p: nat, q: nat, a: nat)
    requires q == 2 * p
    ensures q * a == 2 * (p * a)
  {
  }

  /** A low block of `k` bits does not interact with what stands above it. */
  lemma {:induction false} XorBlocks(a: nat, b: nat, u: nat, v: nat, k: nat)
    requires u < Pow2(k) && v < Pow2(k)
    ensures Xor(Pow2(k) * a + u, Pow2(k) * b + v) == Pow2(k) * Xor(a, b) + Xor(u, v)
  {
    if k != 0 {
      XorBlocks(a, b, u / 2, v / 2, k - 1);
      BlocksStep(Pow2(k - 1), Pow2(k), a, b, Xor(a, b), u, v);
    }
  }

  lemma Xor32(a: nat, b: nat, u: nat, v: nat)
    requires u < 32 && v < 32
    ensures Xor(u, v) < 32
    ensures Xor(32 * a + u, 32 * b + v) == 32 * Xor(a, b) + Xor(u, v)
  {
    Powers();
    XorBlocks(a, b, u, v, 5);
    XorBound(u, v, 5);
  }

  lemma Xor25(a: nat, b: nat, u: nat, v: nat)
    requires u < 0x200_0000 && v < 0x200_0000
    ensures Xor(u, v) < 0x200_0000
    ensures Xor(0x200_0000 * a + u, 0x200_0000 * b + v) == 0x200_0000 * Xor(a, b) + Xor(u, v)
  {
    Powers();
    XorBlocks(a, b, u, v, 25);
    XorBound(u, v, 25);
  }
}
