/** Polynomials over GF(2), written as natural numbers: bit i is the coefficient of x^i.
    Addition is Xor, multiplication is ClMul, and Rem is long division by the generator
    polynomial of the POSIX cksum utility, one bit at a time. */
module Gf2 {
  const TWO32: nat := 0x1_0000_0000

  /** x^32 + x^26 + x^23 + x^22 + x^16 + x^12 + x^11 + x^10 + x^8 + x^7 + x^5 + x^4 + x^2 + x + 1 */
  const G: nat := 0x1_04c1_1db7

  function Pow2(k: nat): (p: nat)
    ensures p > 0
  {
    if k == 0 then 1 else 2 * Pow2(k - 1)
  }

  /** Bitwise exclusive or; the sum of two polynomials. */
  function Xor(a: nat, b: nat): nat
    decreases a + b
  {
    if a == 0 && b == 0 then 0 else 2 * Xor(a / 2, b / 2) + (a + b) % 2
  }

  /** p times x^k. */
  function Shl(p: nat, k: nat): nat
    decreases k
  {
    if k == 0 then p else 2 * Shl(p, k - 1)
  }

  /** Carry-less multiplication; the product of two polynomials. */
  function ClMul(q: nat, g: nat): nat
    decreases q
  {
    if q == 0 then 0 else Xor(if q % 2 == 1 then g else 0, 2 * ClMul(q / 2, g))
  }

  /** The coefficient of x^i. */
  function Bit(p: nat, i: nat): nat
    decreases i
  {
    if i == 0 then p % 2 else Bit(p / 2, i - 1)
  }

  /** r is what is left of p after subtracting a multiple of the generator, and has degree below 32. */
  ghost predicate IsRemainder(p: nat, r: nat) {
    r < TWO32 && exists q :: p == Xor(ClMul(q, G), r)
  }

  /** One step of a 32-bit shift register, given a value that has just been shifted left. */
  function Reduce(t: nat): nat {
    if t >= TWO32 then Xor(t, G) else t
  }

  /** Long division, most significant bit first. */
  function Rem(p: nat): nat {
    if p == 0 then 0 else Reduce(2 * Rem(p / 2) + p % 2)
  }

  /** The quotient that Rem throws away. */
  function Quot(p: nat): nat {
    if p == 0 then 0 else 2 * Quot(p / 2) + (if 2 * Rem(p / 2) + p % 2 >= TWO32 then 1 else 0)
  }

  // ---------- Xor ----------

  lemma XorZero(a: nat)
    ensures Xor(a, 0) == a && Xor(0, a) == a
  {
    if a == 0 {
    } else {
      XorZero(a / 2);
    }
  }

  lemma XorSelf(a: nat)
    ensures Xor(a, a) == 0
  {
    if a == 0 {
    } else {
      XorSelf(a / 2);
    }
  }

  lemma {:induction false} XorComm(a: nat, b: nat)
    ensures Xor(a, b) == Xor(b, a)
    decreases a + b
  {
    if a == 0 && b == 0 {
    } else {
      XorComm(a / 2, b / 2);
    }
  }

  /** The equation that defines Xor, read from right to left. */
  lemma {:induction false} XorBit(p: nat, i: nat, q: nat, j: nat)
    requires i < 2 && j < 2
    ensures Xor(2 * p + i, 2 * q + j) == 2 * Xor(p, q) + (i + j) % 2
  {
    var a, b := 2 * p + i, 2 * q + j;
    assert a / 2 == p && b / 2 == q && (a + b) % 2 == (i + j) % 2;
    if a == 0 && b == 0 { XorZero(0); }
  }

  lemma {:induction false} XorHalf(a: nat, b: nat)
    ensures Xor(a, b) == 2 * Xor(a / 2, b / 2) + (a + b) % 2
  {
  }

  lemma {:induction false} XorAssoc(a: nat, b: nat, c: nat)
    ensures Xor(Xor(a, b), c) == Xor(a, Xor(b, c))
    decreases a + b + c
  {
    hide Xor;
    if a == 0 && b == 0 && c == 0 {
      XorZero(0);
    } else {
      XorAssoc(a / 2, b / 2, c / 2);
      XorAssocBit(a / 2, a % 2, b / 2, b % 2, c / 2, c % 2);
    }
  }

  lemma XorAssocBit(p: nat, i: nat, q: nat, j: nat, r: nat, k: nat)
    requires i < 2 && j < 2 && k < 2
    requires Xor(Xor(p, q), r) == Xor(p, Xor(q, r))
    ensures Xor(Xor(2 * p + i, 2 * q + j), 2 * r + k) == Xor(2 * p + i, Xor(2 * q + j, 2 * r + k))
  {
    hide Xor;
    XorBit(p, i, q, j);
    XorBit(q, j, r, k);
    XorBit(Xor(p, q), (i + j) % 2, r, k);
    XorBit(p, i, Xor(q, r), (j + k) % 2);
  }

  lemma XorCancel(a: nat, b: nat)
    ensures Xor(a, Xor(a, b)) == b
    ensures Xor(Xor(a, b), b) == a
    ensures Xor(a, b) == 0 <==> a == b
  {
    XorAssoc(a, a, b);
    XorAssoc(a, b, b);
    XorSelf(a);
    XorSelf(b);
    XorZero(a);
    XorZero(b);
  }

  lemma PowersOfTwo()
    ensures Pow2(8) == 0x100 && Pow2(24) == 0x100_0000 && Pow2(32) == TWO32 && Pow2(40) == 0x100 * TWO32
  {
    assert Pow2(4) == 0x10;
    assert Pow2(8) == 0x100;
    assert Pow2(12) == 0x1000;
    assert Pow2(16) == 0x1_0000;
    assert Pow2(20) == 0x10_0000;
    assert Pow2(24) == 0x100_0000;
    assert Pow2(28) == 0x1000_0000;
    assert Pow2(32) == TWO32;
    assert Pow2(36) == 0x10 * TWO32;
  }

  lemma {:induction false} ShlShl(p: nat, i: nat, j: nat)
    ensures Shl(Shl(p, i), j) == Shl(p, i + j)
    decreases j
  {
    if j == 0 {
    } else {
      ShlShl(p, i, j - 1);
    }
  }

  lemma Shl4(p: nat)
    ensures Shl(p, 4) == 0x10 * p
  {
    assert Shl(p, 1) == 2 * p;
    assert Shl(p, 2) == 4 * p;
    assert Shl(p, 3) == 8 * p;
  }

  lemma ShiftsByConstants(p: nat)
    ensures Shl(p, 8) == 0x100 * p && Shl(p, 32) == TWO32 * p && Shl(p, 40) == 0x100 * TWO32 * p
  {
    hide Shl;
    Shl8(p);
    Shl8(0x100 * p);
    ShlShl(p, 8, 8);
    Shl8(0x1_0000 * p);
    ShlShl(p, 16, 8);
    Shl8(0x100_0000 * p);
    ShlShl(p, 24, 8);
    Shl8(TWO32 * p);
    ShlShl(p, 32, 8);
  }

  lemma Shl8(p: nat)
    ensures Shl(p, 8) == 0x100 * p
  {
    hide Shl;
    Shl4(p);
    Shl4(0x10 * p);
    ShlShl(p, 4, 4);
  }

  /** Xor acts separately on the high and the low part of a number. */
  lemma {:induction false} XorConcat(a: nat, x: nat, b: nat, y: nat, k: nat)
    requires x < Pow2(k) && y < Pow2(k)
    ensures Xor(x, y) < Pow2(k)
    ensures Xor(Shl(a, k) + x, Shl(b, k) + y) == Shl(Xor(a, b), k) + Xor(x, y)
    decreases k
  {
    hide Xor;
    if k == 0 {
      XorZero(0);
    } else {
      XorConcat(a, x / 2, b, y / 2, k - 1);
      XorConcatBit(Shl(a, k - 1), x / 2, x % 2, Shl(b, k - 1), y / 2, y % 2, Shl(Xor(a, b), k - 1), Pow2(k - 1));
    }
  }

  lemma XorConcatBit(a: nat, x: nat, i: nat, b: nat, y: nat, j: nat, c: nat, h: nat)
    requires i < 2 && j < 2
    requires Xor(x, y) < h
    requires Xor(a + x, b + y) == c + Xor(x, y)
    ensures Xor(2 * x + i, 2 * y + j) < 2 * h
    ensures Xor(2 * a + (2 * x + i), 2 * b + (2 * y + j)) == 2 * c + Xor(2 * x + i, 2 * y + j)
  {
    hide Xor;
    XorBit(x, i, y, j);
    XorBit(a + x, i, b + y, j);
    assert 2 * a + (2 * x + i) == 2 * (a + x) + i;
    assert 2 * b + (2 * y + j) == 2 * (b + y) + j;
  }

  lemma {:induction false} ShlZero(k: nat)
    ensures Shl(0, k) == 0
    decreases k
  {
    if k == 0 {
    } else {
      ShlZero(k - 1);
    }
  }

  lemma XorDisjoint(a: nat, k: nat, low: nat)
    requires low < Pow2(k)
    ensures Xor(Shl(a, k), low) == Shl(a, k) + low
  {
    hide Xor;
    ShlZero(k);
    XorConcat(a, 0, 0, low, k);
    XorZero(a);
    XorZero(low);
  }

  lemma {:induction false} BitXor(a: nat, b: nat, i: nat)
    ensures Bit(Xor(a, b), i) == (Bit(a, i) + Bit(b, i)) % 2
    decreases i
  {
    hide Xor;
    XorHalf(a, b);
    if i == 0 {
    } else {
      BitXor(a / 2, b / 2, i - 1);
    }
  }

  // ---------- Rem is the remainder ----------

  lemma Top(t: nat)
    requires TWO32 <= t < 2 * TWO32
    ensures Xor(t, G) == Xor(t - TWO32, 0x04c1_1db7) < TWO32
  {
    hide Xor, Shl, Pow2;
    PowersOfTwo();
    ShiftsByConstants(0);
    ShiftsByConstants(1);
    XorConcat(1, t - TWO32, 1, 0x04c1_1db7, 32);
    XorSelf(1);
  }

  /** The equation that defines Rem, read from right to left. */
  lemma {:induction false} RemBit(p: nat, i: nat)
    requires i < 2
    ensures Rem(2 * p + i) == Reduce(2 * Rem(p) + i)
  {
    assert (2 * p + i) / 2 == p && (2 * p + i) % 2 == i;
  }

  lemma {:induction false} RemBound(p: nat)
    ensures Rem(p) < TWO32
  {
    hide Xor;
    if p == 0 {
    } else {
      RemBound(p / 2);
      var t := 2 * Rem(p / 2) + p % 2;
      if t >= TWO32 { Top(t); }
    }
  }

  lemma {:induction false} RemSmall(p: nat)
    requires p < TWO32
    ensures Rem(p) == p
  {
    hide Xor;
    if p == 0 {
    } else {
      RemSmall(p / 2);
    }
  }

  lemma TopBits(s: nat, t: nat)
    requires s < 2 * TWO32 && t < 2 * TWO32
    ensures Xor(s, t) < 2 * TWO32
    ensures Xor(s, t) >= TWO32 <==> (s >= TWO32) != (t >= TWO32)
  {
    hide Xor, Shl, Pow2;
    PowersOfTwo();
    ShiftsByConstants(0);
    ShiftsByConstants(1);
    var a, b := if s >= TWO32 then 1 else 0, if t >= TWO32 then 1 else 0;
    var x, y := if s >= TWO32 then s - TWO32 else s, if t >= TWO32 then t - TWO32 else t;
    XorConcat(a, x, b, y, 32);
    XorOfBits();
  }

  lemma XorOfBits()
    ensures Xor(0, 0) == 0 && Xor(1, 0) == 1 && Xor(0, 1) == 1 && Xor(1, 1) == 0
  {
  }

  lemma ReduceLinear(s: nat, t: nat)
    requires s < 2 * TWO32 && t < 2 * TWO32
    ensures Reduce(Xor(s, t)) == Xor(Reduce(s), Reduce(t))
  {
    hide Xor;
    TopBits(s, t);
    XorComm(t, G);
    XorAssoc(s, t, G);
    XorAssoc(s, G, t);
    XorAssoc(s, G, Xor(t, G));
    XorCancel(G, t);
  }

  lemma {:induction false} RemLinear(a: nat, b: nat)
    ensures Rem(Xor(a, b)) == Xor(Rem(a), Rem(b))
    decreases a + b
  {
    hide Xor, Rem, Reduce;
    RemSmall(0);
    if a == 0 || b == 0 {
      XorZero(a);
      XorZero(b);
      XorZero(Rem(a));
      XorZero(Rem(b));
    } else {
      RemLinear(a / 2, b / 2);
      RemLinearBit(a / 2, a % 2, b / 2, b % 2);
    }
  }

  lemma RemLinearBit(p: nat, i: nat, q: nat, j: nat)
    requires i < 2 && j < 2
    requires Rem(Xor(p, q)) == Xor(Rem(p), Rem(q))
    ensures Rem(Xor(2 * p + i, 2 * q + j)) == Xor(Rem(2 * p + i), Rem(2 * q + j))
  {
    hide Xor, Rem, Reduce;
    XorBit(p, i, q, j);
    RemBit(Xor(p, q), (i + j) % 2);
    RemBit(p, i);
    RemBit(q, j);
    RemBound(p);
    RemBound(q);
    StepLinear(Rem(p), i, Rem(q), j);
  }

  lemma StepLinear(s: nat, i: nat, t: nat, j: nat)
    requires i < 2 && j < 2 && s < TWO32 && t < TWO32
    ensures Reduce(2 * Xor(s, t) + (i + j) % 2) == Xor(Reduce(2 * s + i), Reduce(2 * t + j))
  {
    hide Xor, Reduce;
    XorBit(s, i, t, j);
    ReduceLinear(2 * s + i, 2 * t + j);
  }

  /** The generator itself leaves nothing, and neither does any multiple of it. */
  lemma {:induction false} RemMultiple(q: nat)
    ensures Rem(ClMul(q, G)) == 0
  {
    hide Xor, Rem, Reduce;
    RemSmall(0);
    if q == 0 {
    } else {
      var t := ClMul(q / 2, G);
      RemMultiple(q / 2);
      RemBit(t, 0);
      ReduceCases(0);
      RemOfGenerator();
      RemLinear(if q % 2 == 1 then G else 0, 2 * t);
      XorZero(0);
    }
  }

  lemma RemOfGenerator()
    ensures Rem(G) == 0
  {
    hide Xor, Rem;
    RemSmall(G / 2);
    RemBit(G / 2, 1);
    XorSelf(G);
  }

  lemma {:induction false} QuotRem(p: nat)
    ensures p == Xor(ClMul(Quot(p), G), Rem(p))
  {
    hide Xor, ClMul, Quot, Rem, Reduce;
    if p == 0 {
      QuotRemOfZero();
    } else {
      QuotRem(p / 2);
      var a, t := ClMul(Quot(p / 2), G), 2 * Rem(p / 2) + p % 2;
      QuotBit(p / 2, p % 2, if t >= TWO32 then 1 else 0);
      RemBit(p / 2, p % 2);
      ReduceCases(t);
      ShiftedBit(a, p / 2, p % 2, t);
      SubtractBoth(2 * a, t);
    }
  }

  lemma QuotRemOfZero()
    ensures 0 == Xor(ClMul(Quot(0), G), Rem(0))
  {
  }

  lemma ReduceCases(t: nat)
    ensures Reduce(t) == if t >= TWO32 then Xor(t, G) else t
  {
  }

  lemma ShiftedBit(a: nat, p: nat, i: nat, t: nat)
    requires i < 2 && p == Xor(a, Rem(p)) && t == 2 * Rem(p) + i
    ensures Xor(2 * a, t) == 2 * p + i
  {
    hide Xor, Rem;
    XorBit(a, 0, Rem(p), i);
  }

  lemma QuotBit(p: nat, i: nat, c: nat)
    requires i < 2 && c == if 2 * Rem(p) + i >= TWO32 then 1 else 0
    ensures ClMul(Quot(2 * p + i), G) == Xor(if c == 1 then G else 0, 2 * ClMul(Quot(p), G))
  {
    hide Xor, Rem, ClMul;
    assert (2 * p + i) / 2 == p && (2 * p + i) % 2 == i;
    assert Quot(2 * p + i) == 2 * Quot(p) + c by {
      if 2 * p + i == 0 { RemSmall(0); }
    }
    ClMulBit(Quot(p), c, G);
  }

  lemma SubtractBoth(a: nat, t: nat)
    ensures Xor(Xor(G, a), Xor(t, G)) == Xor(a, t)
    ensures Xor(Xor(0, a), t) == Xor(a, t)
  {
    hide Xor;
    XorComm(G, a);
    XorComm(t, G);
    XorAssoc(a, G, Xor(G, t));
    XorCancel(G, t);
    XorZero(a);
  }

  lemma ClMulBit(q: nat, c: nat, g: nat)
    requires c < 2
    ensures ClMul(2 * q + c, g) == Xor(if c == 1 then g else 0, 2 * ClMul(q, g))
  {
    assert (2 * q + c) / 2 == q && (2 * q + c) % 2 == c;
    XorZero(0);
  }

  /** Rem(p) is the remainder of p by the generator, and the only one. */
  lemma RemainderIsRem(p: nat, r: nat)
    ensures IsRemainder(p, r) <==> r == Rem(p)
  {
    hide Xor, Rem, ClMul, Quot;
    QuotRem(p);
    RemBound(p);
    if IsRemainder(p, r) {
      var q :| p == Xor(ClMul(q, G), r);
      RemLinear(ClMul(q, G), r);
      RemMultiple(q);
      RemSmall(r);
      XorZero(r);
    }
  }

  // ---------- Rem and shifting ----------

  lemma {:induction false} RemShl(p: nat, k: nat)
    ensures Rem(Shl(p, k)) == Rem(Shl(Rem(p), k))
    decreases k
  {
    hide Rem, Reduce;
    RemBound(p);
    if k == 0 {
      RemSmall(Rem(p));
    } else {
      RemShl(p, k - 1);
      RemBit(Shl(p, k - 1), 0);
      RemBit(Shl(Rem(p), k - 1), 0);
    }
  }

  /** Multiplying by x loses nothing modulo the generator, because the generator has the term 1. */
  lemma {:induction false} RemShlZero(p: nat, k: nat)
    ensures Rem(Shl(p, k)) == 0 <==> Rem(p) == 0
    decreases k
  {
    hide Xor, Rem;
    if k == 0 {
    } else {
      RemShlZero(p, k - 1);
      RemBit(Shl(p, k - 1), 0);
      var t := 2 * Rem(Shl(p, k - 1));
      if t >= TWO32 {
        XorCancel(t, G);
        assert t % 2 == 0 && G % 2 == 1;
      }
    }
  }

  lemma {:induction false} ShlXor(a: nat, b: nat, k: nat)
    ensures Shl(Xor(a, b), k) == Xor(Shl(a, k), Shl(b, k))
    decreases k
  {
    hide Xor;
    if k == 0 {
    } else {
      ShlXor(a, b, k - 1);
      XorBit(Shl(a, k - 1), 0, Shl(b, k - 1), 0);
    }
  }

  // ---------- Bits ----------

  /** A number whose bits from position k on are all zero is below 2^k. */
  lemma {:induction false} HighBitsZero(p: nat, k: nat)
    requires forall i :: i >= k ==> Bit(p, i) == 0
    ensures p < Pow2(k)
    decreases p + k
  {
    if p == 0 {
    } else {
      forall i | i >= (if k == 0 then 0 else k - 1) ensures Bit(p / 2, i) == 0 {
        assert Bit(p, i + 1) == Bit(p / 2, i);
      }
      HighBitsZero(p / 2, if k == 0 then 0 else k - 1);
      if k == 0 { assert Bit(p, 0) == p % 2; }
    }
  }

  /** A number whose k lowest bits are all zero is a multiple of x^k. */
  lemma {:induction false} LowBitsZero(p: nat, k: nat) returns (w: nat)
    requires forall i :: 0 <= i < k ==> Bit(p, i) == 0
    ensures p == Shl(w, k)
    ensures forall i {:trigger Bit(w, i)} :: i >= 0 ==> Bit(w, i) == Bit(p, i + k)
    decreases k
  {
    if k == 0 {
      w := p;
    } else {
      forall i | 0 <= i < k - 1 ensures Bit(p / 2, i) == 0 {
        assert Bit(p, i + 1) == Bit(p / 2, i);
      }
      w := LowBitsZero(p / 2, k - 1);
      assert Bit(p, 0) == 0;
    }
  }
}
