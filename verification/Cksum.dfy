/** The checksum of the POSIX cksum utility (Shell and Utilities, section 4 of POSIX.1-2017), as a
    remainder of polynomials over GF(2), and the two table-driven programs that compute it. */
module Cksum {
  import opened Bytes
  import opened CrcTable
  import opened Gf2

  const TWO64: nat := 0x1_0000_0000_0000_0000

  /** The message polynomial: the most significant bit of the first byte is the highest coefficient. */
  function Poly(b: seq<Byte>): nat {
    if |b| == 0 then 0 else 0x100 * Poly(b[..|b| - 1]) + b[|b| - 1]
  }

  /** The length of the message, least significant octet first, in as few octets as it takes. */
  function LengthOctets(n: nat): seq<Byte> {
    if n == 0 then [] else [n % 0x100] + LengthOctets(n / 0x100)
  }

  /** What the shift register holds after the bytes of b. */
  function Register(b: seq<Byte>): (r: nat)
    ensures r < TWO32
  {
    RemBound(Shl(Poly(b), 32));
    Rem(Shl(Poly(b), 32))
  }

  function PosixCrc(b: seq<Byte>): (crc: nat)
    ensures crc < TWO32
  {
    TWO32 - 1 - Register(b + LengthOctets(|b|))
  }

  // ---------- The two programs ----------

  /** n & 0xffffffff, for any integer n. */
  function Unsigned(n: int): nat {
    n % TWO32
  }

  /** The checksum of the server, on unbounded integers: n >> 8 is n / 0x100, ~s is -s - 1. */
  method MemcrcPython(b: seq<Byte>) returns (crc: nat)
    ensures crc == PosixCrc(b)
  {
    hide Xor, Register;
    var n: nat, c: Byte, s: int := |b|, 0, 0;
    RegisterOfNothing();
    for k := 0 to |b|
      invariant s == Register(b[..k])
    {
      Feed(b[..k], b[k]);
      assert b[..k + 1] == b[..k] + [b[k]];
      var tabidx := Xor(s / 0x100_0000, b[k]);
      s := Xor(Unsigned(s * 0x100), CRCTAB[tabidx]);
    }
    assert b[..|b|] == b;
    ghost var fed := b;
    while n != 0
      invariant s == Register(fed)
      invariant fed + LengthOctets(n) == b + LengthOctets(|b|)
    {
      NextOctet(fed, n);
      c := n % 0x100;
      Feed(fed, c);
      n := n / 0x100;
      s := Xor(Unsigned(s * 0x100), CRCTAB[Xor(s / 0x100_0000, c)]);
      fed := fed + [c];
    }
    assert fed == fed + LengthOctets(0);
    crc := Unsigned(-s - 1);
  }

  /** The checksum of the client. An unsigned long has 32 or 64 bits, so every shift and every
      complement wraps at ulong before it is masked to 32 bits. The counter i is an int. */
  method MemcrcCpp(b: array<Byte>, ulong: nat) returns (crc: nat)
    requires ulong == TWO32 || ulong == TWO64
    requires b.Length < 0x8000_0000
    ensures crc == PosixCrc(b[..])
  {
    hide Xor, Register;
    var n: nat, c: Byte, s: nat := b.Length, 0, 0;
    RegisterOfNothing();
    var i := 0;
    while i < n
      invariant i <= n
      invariant s == Register(b[..i])
    {
      Feed(b[..i], b[i]);
      assert b[..i + 1] == b[..i] + [b[i]];
      Wrap(s * 0x100, ulong);
      var tabidx := Xor(s / 0x100_0000, b[i]);
      s := Xor(Unsigned(s * 0x100 % ulong), CRCTAB[tabidx]);
      i := i + 1;
    }
    assert b[..n] == b[..];
    ghost var fed := b[..];
    while n != 0
      invariant s == Register(fed)
      invariant fed + LengthOctets(n) == b[..] + LengthOctets(b.Length)
    {
      NextOctet(fed, n);
      c := n % 0x100;
      Feed(fed, c);
      Wrap(s * 0x100, ulong);
      n := n / 0x100;
      s := Xor(Unsigned(s * 0x100 % ulong), CRCTAB[Xor(s / 0x100_0000, c)]);
      fed := fed + [c];
    }
    assert fed == fed + LengthOctets(0);
    crc := Unsigned(ulong - 1 - s);
  }

  lemma Wrap(x: nat, ulong: nat)
    requires ulong == TWO32 || ulong == TWO64
    ensures Unsigned(x % ulong) == Unsigned(x)
  {
  }

  lemma NextOctet(fed: seq<Byte>, n: nat)
    requires n != 0
    ensures fed + LengthOctets(n) == fed + [n % 0x100] + LengthOctets(n / 0x100)
  {
  }

  // ---------- One table step is eight steps of long division ----------

  lemma RegisterOfNothing()
    ensures Register([]) == 0
  {
    ShiftsByConstants(0);
  }

  lemma PolySnoc(b: seq<Byte>, c: Byte)
    ensures Poly(b + [c]) == 0x100 * Poly(b) + c
  {
    assert (b + [c])[..|b|] == b;
  }

  lemma XorAppendByte(p: nat, x: nat, q: nat, y: nat)
    requires x < 0x100 && y < 0x100
    ensures Xor(0x100 * p + x, 0x100 * q + y) == 0x100 * Xor(p, q) + Xor(x, y)
  {
    hide Xor, Shl;
    PowersOfTwo();
    Shl8(p);
    Shl8(q);
    Shl8(Xor(p, q));
    XorConcat(p, x, q, y, 8);
  }

  lemma ByteXor(a: nat, b: nat)
    requires a < 0x100 && b < 0x100
    ensures Xor(a, b) < 0x100
  {
    hide Xor;
    PowersOfTwo();
    XorConcat(0, a, 0, b, 8);
  }

  lemma Feed(b: seq<Byte>, c: Byte)
    ensures var s := Register(b);
            && Xor(s / 0x100_0000, c) < 0x100
            && Register(b + [c]) == Xor(Unsigned(s * 0x100), CRCTAB[Xor(s / 0x100_0000, c)])
  {
    hide Xor, Rem, Poly, Register, Unsigned;
    RegisterIsRem(b);
    RegisterIsRem(b + [c]);
    PolySnoc(b, c);
    FeedTable(Poly(b), c);
  }

  lemma RegisterIsRem(b: seq<Byte>)
    ensures Register(b) == Rem(TWO32 * Poly(b))
  {
    hide Rem;
    ShiftsByConstants(Poly(b));
  }

  lemma FeedTable(p: nat, c: nat)
    requires c < 0x100
    ensures var s := Rem(TWO32 * p);
            && Xor(s / 0x100_0000, c) < 0x100
            && Rem(TWO32 * (0x100 * p + c)) == Xor(Unsigned(s * 0x100), CRCTAB[Xor(s / 0x100_0000, c)])
  {
    hide Xor, Rem, Unsigned;
    var s := Rem(TWO32 * p);
    RemBound(TWO32 * p);
    var k := Xor(s / 0x100_0000, c);
    ByteXor(s / 0x100_0000, c);
    TableCorrect(k);
    FeedPoly(p, c);
    XorComm(Unsigned(s * 0x100), Rem(TWO32 * k));
  }

  lemma FeedPoly(p: nat, c: nat)
    requires c < 0x100
    ensures var s := Rem(TWO32 * p);
            Rem(TWO32 * (0x100 * p + c)) == Xor(Rem(TWO32 * Xor(s / 0x100_0000, c)), Unsigned(s * 0x100))
  {
    hide Xor, Rem;
    var s := Rem(TWO32 * p);
    RemBound(TWO32 * p);
    var hi, low := s / 0x100_0000, Unsigned(s * 0x100);
    SplitRegister(s);
    Disjoint(p, c);
    RemLinear(0x100 * TWO32 * p, TWO32 * c);
    OldBits(TWO32 * p, hi, low);
    NewByte(hi, c);
    SwapXor(Rem(TWO32 * hi), low, Rem(TWO32 * c));
  }

  lemma SplitRegister(s: nat)
    requires s < TWO32
    ensures 0x100 * s == TWO32 * (s / 0x100_0000) + Unsigned(s * 0x100)
  {
  }

  /** The bits already in the register move up by eight. */
  lemma OldBits(m: nat, hi: nat, low: nat)
    requires 0x100 * Rem(m) == TWO32 * hi + low && low < TWO32
    ensures Rem(0x100 * m) == Xor(Rem(TWO32 * hi), low)
  {
    hide Xor, Rem;
    ShiftsByConstants(m);
    ShiftsByConstants(Rem(m));
    RemShl(m, 8);
    Split32(hi, low);
    RemLinear(TWO32 * hi, low);
    RemSmall(low);
  }

  lemma Split32(hi: nat, low: nat)
    requires low < TWO32
    ensures Xor(TWO32 * hi, low) == TWO32 * hi + low
  {
    hide Xor;
    PowersOfTwo();
    ShiftsByConstants(hi);
    XorDisjoint(hi, 32, low);
  }

  /** The bits pushed out and the new byte enter at x^32 together. */
  lemma NewByte(hi: nat, c: nat)
    ensures Rem(TWO32 * Xor(hi, c)) == Xor(Rem(TWO32 * hi), Rem(TWO32 * c))
  {
    hide Xor, Rem;
    ShiftsByConstants(hi);
    ShiftsByConstants(c);
    ShiftsByConstants(Xor(hi, c));
    ShlXor(hi, c, 32);
    RemLinear(TWO32 * hi, TWO32 * c);
  }

  lemma SwapXor(a: nat, b: nat, c: nat)
    ensures Xor(Xor(a, b), c) == Xor(Xor(a, c), b)
  {
    hide Xor;
    XorAssoc(a, b, c);
    XorComm(b, c);
    XorAssoc(a, c, b);
  }

  lemma Disjoint(p: nat, c: nat)
    requires c < 0x100
    ensures Xor(0x100 * TWO32 * p, TWO32 * c) == 0x100 * TWO32 * p + TWO32 * c
  {
    hide Xor;
    PowersOfTwo();
    ShiftsByConstants(p);
    XorDisjoint(p, 40, TWO32 * c);
  }

  // ---------- The checksum is the one the standard defines ----------

  /** The complement of the checksum is the remainder, and the only remainder, of the message
      polynomial times x^32 by the generator; the message is the bytes followed by their length. */
  lemma CrcIsTheRemainder(b: seq<Byte>, r: nat)
    ensures IsRemainder(Shl(Poly(b + LengthOctets(|b|)), 32), r) <==> r < TWO32 && PosixCrc(b) == TWO32 - 1 - r
  {
    hide Rem, Xor;
    RemainderIsRem(Shl(Poly(b + LengthOctets(|b|)), 32), r);
  }

  function FromOctets(b: seq<Byte>): nat {
    if |b| == 0 then 0 else b[0] + 0x100 * FromOctets(b[1..])
  }

  /** The length octets are the base-256 digits of the length, with no leading zero digit. */
  lemma {:induction false} LengthOctetsAreDigits(n: nat)
    ensures FromOctets(LengthOctets(n)) == n
    ensures n > 0 ==> |LengthOctets(n)| > 0 && LengthOctets(n)[|LengthOctets(n)| - 1] != 0
  {
    if n == 0 {
    } else {
      LengthOctetsAreDigits(n / 0x100);
      assert LengthOctets(n)[1..] == LengthOctets(n / 0x100);
    }
  }

  // ---------- Which changes the checksum detects ----------

  /** The polynomial of the positions where two messages differ. */
  function Difference(a: seq<Byte>, b: seq<Byte>): nat {
    Xor(Poly(a), Poly(b))
  }

  lemma {:induction false} CommonTail(a: seq<Byte>, b: seq<Byte>, t: seq<Byte>)
    ensures Difference(a + t, b + t) == Shl(Difference(a, b), 8 * |t|)
  {
    hide Xor, Poly;
    if |t| == 0 {
      assert a + t == a && b + t == b;
    } else {
      var u, c := t[..|t| - 1], t[|t| - 1];
      CommonTail(a, b, u);
      assert a + t == (a + u) + [c] && b + t == (b + u) + [c];
      PolySnoc(a + u, c);
      PolySnoc(b + u, c);
      XorAppendByte(Poly(a + u), c, Poly(b + u), c);
      XorSelf(c);
      ShlShl(Difference(a, b), 8 * |u|, 8);
      Shl8(Shl(Difference(a, b), 8 * |u|));
    }
  }

  /** Two messages of one length have one checksum exactly when the generator divides their difference. */
  lemma CollisionIff(a: seq<Byte>, b: seq<Byte>)
    requires |a| == |b|
    ensures PosixCrc(a) == PosixCrc(b) <==> IsRemainder(Difference(a, b), 0)
  {
    hide Xor, Rem, Poly, Shl;
    var t, d := LengthOctets(|a|), Difference(a, b);
    var p, q := Poly(a + t), Poly(b + t);
    CommonTail(a, b, t);
    ShlXor(p, q, 32);
    RemLinear(Shl(p, 32), Shl(q, 32));
    XorCancel(Register(a + t), Register(b + t));
    RemShlZero(Shl(d, 8 * |t|), 32);
    RemShlZero(d, 8 * |t|);
    RemainderIsRem(d, 0);
  }

  lemma {:induction false} PolyInjective(a: seq<Byte>, b: seq<Byte>)
    requires |a| == |b| && Poly(a) == Poly(b)
    ensures a == b
  {
    if |a| == 0 {
    } else {
      var m := |a| - 1;
      assert Poly(a[..m]) == Poly(b[..m]) && a[m] == b[m];
      PolyInjective(a[..m], b[..m]);
      assert a == a[..m] + [a[m]] && b == b[..m] + [b[m]];
    }
  }

  /** Bit k of a message, counting from the most significant bit of the first byte. */
  function BitAt(b: seq<Byte>, k: nat): nat
    requires k < 8 * |b|
  {
    Bit(b[k / 8], 7 - k % 8)
  }

  /** The messages agree outside the window of size bits that starts at bit k. */
  ghost predicate DifferOnlyWithin(a: seq<Byte>, b: seq<Byte>, k: nat, size: nat) {
    && |a| == |b|
    && forall i :: 0 <= i < 8 * |a| && BitAt(a, i) != BitAt(b, i) ==> k <= i < k + size
  }

  lemma {:induction false} BitOfConcat(p: nat, k: nat, x: nat, i: nat)
    requires x < Pow2(k)
    ensures Bit(Shl(p, k) + x, i) == if i < k then Bit(x, i) else Bit(p, i - k)
    decreases k
  {
    if k == 0 {
    } else {
      var y := Shl(p, k) + x;
      assert y / 2 == Shl(p, k - 1) + x / 2 && y % 2 == x % 2;
      if i > 0 { BitOfConcat(p, k - 1, x / 2, i - 1); }
    }
  }

  /** Bit k of a message is a coefficient of its polynomial. */
  lemma {:induction false} BitOfPoly(b: seq<Byte>, k: nat)
    requires k < 8 * |b|
    ensures BitAt(b, k) == Bit(Poly(b), 8 * |b| - 1 - k)
  {
    hide Bit, Shl;
    var m := |b| - 1;
    PowersOfTwo();
    Shl8(Poly(b[..m]));
    BitOfConcat(Poly(b[..m]), 8, b[m], 8 * |b| - 1 - k);
    if k >= 8 * m {
    } else {
      BitOfPoly(b[..m], k);
    }
  }

  lemma {:induction false} BitsBeyond(b: seq<Byte>, i: nat)
    requires i >= 8 * |b|
    ensures Bit(Poly(b), i) == 0
  {
    hide Bit, Shl;
    if |b| == 0 {
      BitOfZero(i);
    } else {
      var m := |b| - 1;
      PowersOfTwo();
      Shl8(Poly(b[..m]));
      BitOfConcat(Poly(b[..m]), 8, b[m], i);
      BitsBeyond(b[..m], i - 8);
    }
  }

  lemma {:induction false} BitOfZero(i: nat)
    ensures Bit(0, i) == 0
    decreases i
  {
    if i == 0 {
    } else {
      BitOfZero(i - 1);
    }
  }

  lemma DifferenceBit(a: seq<Byte>, b: seq<Byte>, k: nat, size: nat, i: nat)
    requires DifferOnlyWithin(a, b, k, size)
    requires i < 8 * |a| - k - size || i >= 8 * |a| - k
    ensures Bit(Difference(a, b), i) == 0
  {
    hide Xor, Bit, Poly;
    BitXor(Poly(a), Poly(b), i);
    if i < 8 * |a| {
      BitOfPoly(a, 8 * |a| - 1 - i);
      BitOfPoly(b, 8 * |a| - 1 - i);
    } else {
      BitsBeyond(a, i);
      BitsBeyond(b, i);
    }
  }

  /** Messages that agree outside a window differ by a short polynomial, moved to the window. */
  lemma WindowOfDifference(a: seq<Byte>, b: seq<Byte>, k: nat, size: nat) returns (w: nat, low: nat)
    requires DifferOnlyWithin(a, b, k, size)
    ensures Difference(a, b) == Shl(w, low) && w < Pow2(size)
  {
    hide Xor, Bit, Poly, BitAt;
    var d, n := Difference(a, b), 8 * |a|;
    low := if n >= k + size then n - k - size else 0;
    forall i: nat | i < low || i >= n - k ensures Bit(d, i) == 0 {
      DifferenceBit(a, b, k, size, i);
    }
    w := LowBitsZero(d, low);
    forall i: nat | i >= size ensures Bit(w, i) == 0 {
      assert i + low >= n - k;
    }
    HighBitsZero(w, size);
  }

  lemma NonzeroDifference(a: seq<Byte>, b: seq<Byte>)
    requires |a| == |b| && a != b
    ensures Difference(a, b) != 0
  {
    hide Xor;
    XorCancel(Poly(a), Poly(b));
    if Poly(a) == Poly(b) { PolyInjective(a, b); }
  }

  /** Every burst of up to 32 bits is detected, at every offset and in messages of every length. */
  lemma BurstDetected(a: seq<Byte>, b: seq<Byte>, k: nat)
    requires DifferOnlyWithin(a, b, k, 32) && a != b
    ensures PosixCrc(a) != PosixCrc(b)
  {
    hide Xor, Rem, Poly;
    var w, low := WindowOfDifference(a, b, k, 32);
    NonzeroDifference(a, b);
    CollisionIff(a, b);
    RemainderIsRem(Difference(a, b), 0);
    PowersOfTwo();
    RemShlZero(w, low);
    RemSmall(w);
    if w == 0 { ShlZero(low); }
  }

  /** Of the bursts of 33 bits exactly one pattern goes undetected: the generator itself. */
  lemma BurstOf33Iff(a: seq<Byte>, b: seq<Byte>, k: nat)
    requires DifferOnlyWithin(a, b, k, 33) && a != b
    ensures PosixCrc(a) == PosixCrc(b) <==> exists low :: Difference(a, b) == Shl(G, low)
  {
    hide Xor, Rem, Poly;
    var d := Difference(a, b);
    var w, low := WindowOfDifference(a, b, k, 33);
    NonzeroDifference(a, b);
    CollisionIff(a, b);
    RemainderIsRem(d, 0);
    PowersOfTwo();
    RemShlZero(w, low);
    ShortMultiple(w);
    if w == 0 { ShlZero(low); }
    if exists low :: d == Shl(G, low) {
      var l :| d == Shl(G, l);
      RemShlZero(G, l);
      ShortMultiple(G);
    }
  }

  lemma ShortMultiple(w: nat)
    requires w < 2 * TWO32
    ensures Rem(w) == 0 <==> w == 0 || w == G
  {
    hide Xor, Rem;
    RemSmall(w / 2);
    RemBit(w / 2, w % 2);
    if w >= TWO32 { XorCancel(w, G); }
  }

  // ---------- The checksum is affine ----------

  function XorBytes(a: seq<Byte>, b: seq<Byte>): (x: seq<Byte>)
    requires |a| == |b|
    ensures |x| == |a| && forall i :: 0 <= i < |a| ==> x[i] == Xor(a[i], b[i])
  {
    if |a| == 0 then []
    else
      var m := |a| - 1;
      ByteXor(a[m], b[m]);
      XorBytes(a[..m], b[..m]) + [Xor(a[m], b[m])]
  }

  lemma {:induction false} PolyOfXor(a: seq<Byte>, b: seq<Byte>)
    requires |a| == |b|
    ensures Poly(XorBytes(a, b)) == Xor(Poly(a), Poly(b))
  {
    hide Xor;
    if |a| == 0 {
      XorZero(0);
    } else {
      var m := |a| - 1;
      PolyOfXor(a[..m], b[..m]);
      ByteXor(a[m], b[m]);
      PolySnoc(XorBytes(a[..m], b[..m]), Xor(a[m], b[m]));
      XorAppendByte(Poly(a[..m]), a[m], Poly(b[..m]), b[m]);
    }
  }

  /** The checksum of the exclusive or of three messages is the exclusive or of their checksums. */
  lemma CrcIsAffine(a: seq<Byte>, b: seq<Byte>, c: seq<Byte>)
    requires |a| == |b| == |c|
    ensures PosixCrc(XorBytes(XorBytes(a, b), c)) == Xor(Xor(PosixCrc(a), PosixCrc(b)), PosixCrc(c))
  {
    hide Xor, Rem, Poly, XorBytes;
    var t := LengthOctets(|a|);
    var x := XorBytes(XorBytes(a, b), c);
    PolyOfXor(a, b);
    PolyOfXor(XorBytes(a, b), c);
    AffineWithTail(a, b, c, x, t);
    ComplementOfThree(Register(a + t), Register(b + t), Register(c + t));
  }

  lemma AffineWithTail(a: seq<Byte>, b: seq<Byte>, c: seq<Byte>, x: seq<Byte>, t: seq<Byte>)
    requires Poly(x) == Xor(Xor(Poly(a), Poly(b)), Poly(c))
    ensures Register(x + t) == Xor(Xor(Register(a + t), Register(b + t)), Register(c + t))
  {
    hide Xor, Rem, Poly;
    // x differs from c as a differs from b, and the tail is common
    CommonTail(a, b, t);
    CommonTail(x, c, t);
    XorCancel(Xor(Poly(a), Poly(b)), Poly(c));
    XorCancel(Poly(x + t), Poly(c + t));
    var pa, pb, pc := Poly(a + t), Poly(b + t), Poly(c + t);
    assert Poly(x + t) == Xor(Xor(pa, pb), pc);
    ShlXor(Xor(pa, pb), pc, 32);
    ShlXor(pa, pb, 32);
    RemLinear(Shl(Xor(pa, pb), 32), Shl(pc, 32));
    RemLinear(Shl(pa, 32), Shl(pb, 32));
  }

  lemma Complemented(r: nat)
    requires r < TWO32
    ensures TWO32 - 1 - r == Xor(r, TWO32 - 1)
  {
    PowersOfTwo();
    ComplementBits(r, 32);
  }

  lemma {:induction false} ComplementBits(r: nat, k: nat)
    requires r < Pow2(k)
    ensures Pow2(k) - 1 - r == Xor(r, Pow2(k) - 1)
    decreases k
  {
    if k == 0 {
      XorZero(0);
    } else {
      hide Xor;
      ComplementBits(r / 2, k - 1);
      XorBit(r / 2, r % 2, Pow2(k - 1) - 1, 1);
    }
  }

  lemma ComplementOfThree(p: nat, q: nat, r: nat)
    requires p < TWO32 && q < TWO32 && r < TWO32 && Xor(Xor(p, q), r) < TWO32
    ensures TWO32 - 1 - Xor(Xor(p, q), r) == Xor(Xor(TWO32 - 1 - p, TWO32 - 1 - q), TWO32 - 1 - r)
  {
    hide Xor;
    var m := TWO32 - 1;
    Complemented(p);
    Complemented(q);
    Complemented(r);
    Complemented(Xor(Xor(p, q), r));
    XorOfMasked(p, q, m);
    XorAssoc(Xor(p, q), r, m);
  }

  lemma XorOfMasked(p: nat, q: nat, m: nat)
    ensures Xor(Xor(p, m), Xor(q, m)) == Xor(p, q)
  {
    hide Xor;
    XorComm(q, m);
    XorAssoc(p, m, Xor(m, q));
    XorCancel(m, q);
  }
}
