/** The lookup table of the checksum: crctab[0] of the client and crctab of the server. */
module CrcTable {
  import opened Gf2

  /** A 32-bit entry, with room for the bit that a left shift pushes out. */
  type Word = bv33

  datatype Row = Row(w0: Word, w1: Word, w2: Word, w3: Word, w4: Word, w5: Word, w6: Word, w7: Word) {
    function At(k: nat): Word
      requires k < 8
    {
      match k
      case 0 => w0
      case 1 => w1
      case 2 => w2
      case 3 => w3
      case 4 => w4
      case 5 => w5
      case 6 => w6
      case _ => w7
    }
  }

  // The table as the two programs list it, eight entries to a row.
  const ROW0 := Row(0x00000000, 0x04c11db7, 0x09823b6e, 0x0d4326d9, 0x130476dc, 0x17c56b6b, 0x1a864db2, 0x1e475005)
  const ROW1 := Row(0x2608edb8, 0x22c9f00f, 0x2f8ad6d6, 0x2b4bcb61, 0x350c9b64, 0x31cd86d3, 0x3c8ea00a, 0x384fbdbd)
  const ROW2 := Row(0x4c11db70, 0x48d0c6c7, 0x4593e01e, 0x4152fda9, 0x5f15adac, 0x5bd4b01b, 0x569796c2, 0x52568b75)
  const ROW3 := Row(0x6a1936c8, 0x6ed82b7f, 0x639b0da6, 0x675a1011, 0x791d4014, 0x7ddc5da3, 0x709f7b7a, 0x745e66cd)
  const ROW4 := Row(0x9823b6e0, 0x9ce2ab57, 0x91a18d8e, 0x95609039, 0x8b27c03c, 0x8fe6dd8b, 0x82a5fb52, 0x8664e6e5)
  const ROW5 := Row(0xbe2b5b58, 0xbaea46ef, 0xb7a96036, 0xb3687d81, 0xad2f2d84, 0xa9ee3033, 0xa4ad16ea, 0xa06c0b5d)
  const ROW6 := Row(0xd4326d90, 0xd0f37027, 0xddb056fe, 0xd9714b49, 0xc7361b4c, 0xc3f706fb, 0xceb42022, 0xca753d95)
  const ROW7 := Row(0xf23a8028, 0xf6fb9d9f, 0xfbb8bb46, 0xff79a6f1, 0xe13ef6f4, 0xe5ffeb43, 0xe8bccd9a, 0xec7dd02d)
  const ROW8 := Row(0x34867077, 0x30476dc0, 0x3d044b19, 0x39c556ae, 0x278206ab, 0x23431b1c, 0x2e003dc5, 0x2ac12072)
  const ROW9 := Row(0x128e9dcf, 0x164f8078, 0x1b0ca6a1, 0x1fcdbb16, 0x018aeb13, 0x054bf6a4, 0x0808d07d, 0x0cc9cdca)
  const ROW10 := Row(0x7897ab07, 0x7c56b6b0, 0x71159069, 0x75d48dde, 0x6b93dddb, 0x6f52c06c, 0x6211e6b5, 0x66d0fb02)
  const ROW11 := Row(0x5e9f46bf, 0x5a5e5b08, 0x571d7dd1, 0x53dc6066, 0x4d9b3063, 0x495a2dd4, 0x44190b0d, 0x40d816ba)
  const ROW12 := Row(0xaca5c697, 0xa864db20, 0xa527fdf9, 0xa1e6e04e, 0xbfa1b04b, 0xbb60adfc, 0xb6238b25, 0xb2e29692)
  const ROW13 := Row(0x8aad2b2f, 0x8e6c3698, 0x832f1041, 0x87ee0df6, 0x99a95df3, 0x9d684044, 0x902b669d, 0x94ea7b2a)
  const ROW14 := Row(0xe0b41de7, 0xe4750050, 0xe9362689, 0xedf73b3e, 0xf3b06b3b, 0xf771768c, 0xfa325055, 0xfef34de2)
  const ROW15 := Row(0xc6bcf05f, 0xc27dede8, 0xcf3ecb31, 0xcbffd686, 0xd5b88683, 0xd1799b34, 0xdc3abded, 0xd8fba05a)
  const ROW16 := Row(0x690ce0ee, 0x6dcdfd59, 0x608edb80, 0x644fc637, 0x7a089632, 0x7ec98b85, 0x738aad5c, 0x774bb0eb)
  const ROW17 := Row(0x4f040d56, 0x4bc510e1, 0x46863638, 0x42472b8f, 0x5c007b8a, 0x58c1663d, 0x558240e4, 0x51435d53)
  const ROW18 := Row(0x251d3b9e, 0x21dc2629, 0x2c9f00f0, 0x285e1d47, 0x36194d42, 0x32d850f5, 0x3f9b762c, 0x3b5a6b9b)
  const ROW19 := Row(0x0315d626, 0x07d4cb91, 0x0a97ed48, 0x0e56f0ff, 0x1011a0fa, 0x14d0bd4d, 0x19939b94, 0x1d528623)
  const ROW20 := Row(0xf12f560e, 0xf5ee4bb9, 0xf8ad6d60, 0xfc6c70d7, 0xe22b20d2, 0xe6ea3d65, 0xeba91bbc, 0xef68060b)
  const ROW21 := Row(0xd727bbb6, 0xd3e6a601, 0xdea580d8, 0xda649d6f, 0xc423cd6a, 0xc0e2d0dd, 0xcda1f604, 0xc960ebb3)
  const ROW22 := Row(0xbd3e8d7e, 0xb9ff90c9, 0xb4bcb610, 0xb07daba7, 0xae3afba2, 0xaafbe615, 0xa7b8c0cc, 0xa379dd7b)
  const ROW23 := Row(0x9b3660c6, 0x9ff77d71, 0x92b45ba8, 0x9675461f, 0x8832161a, 0x8cf30bad, 0x81b02d74, 0x857130c3)
  const ROW24 := Row(0x5d8a9099, 0x594b8d2e, 0x5408abf7, 0x50c9b640, 0x4e8ee645, 0x4a4ffbf2, 0x470cdd2b, 0x43cdc09c)
  const ROW25 := Row(0x7b827d21, 0x7f436096, 0x7200464f, 0x76c15bf8, 0x68860bfd, 0x6c47164a, 0x61043093, 0x65c52d24)
  const ROW26 := Row(0x119b4be9, 0x155a565e, 0x18197087, 0x1cd86d30, 0x029f3d35, 0x065e2082, 0x0b1d065b, 0x0fdc1bec)
  const ROW27 := Row(0x3793a651, 0x3352bbe6, 0x3e119d3f, 0x3ad08088, 0x2497d08d, 0x2056cd3a, 0x2d15ebe3, 0x29d4f654)
  const ROW28 := Row(0xc5a92679, 0xc1683bce, 0xcc2b1d17, 0xc8ea00a0, 0xd6ad50a5, 0xd26c4d12, 0xdf2f6bcb, 0xdbee767c)
  const ROW29 := Row(0xe3a1cbc1, 0xe760d676, 0xea23f0af, 0xeee2ed18, 0xf0a5bd1d, 0xf464a0aa, 0xf9278673, 0xfde69bc4)
  const ROW30 := Row(0x89b8fd09, 0x8d79e0be, 0x803ac667, 0x84fbdbd0, 0x9abc8bd5, 0x9e7d9662, 0x933eb0bb, 0x97ffad0c)
  const ROW31 := Row(0xafb010b1, 0xab710d06, 0xa6322bdf, 0xa2f33668, 0xbcb4666d, 0xb8757bda, 0xb5365d03, 0xb1f740b4)

  function TableRow(r: nat): Row
    requires r < 32
  {
    match r
    case 0 => ROW0 case 1 => ROW1 case 2 => ROW2 case 3 => ROW3 case 4 => ROW4 case 5 => ROW5 case 6 => ROW6 case 7 => ROW7
    case 8 => ROW8 case 9 => ROW9 case 10 => ROW10 case 11 => ROW11 case 12 => ROW12 case 13 => ROW13 case 14 => ROW14 case 15 => ROW15
    case 16 => ROW16 case 17 => ROW17 case 18 => ROW18 case 19 => ROW19 case 20 => ROW20 case 21 => ROW21 case 22 => ROW22 case 23 => ROW23
    case 24 => ROW24 case 25 => ROW25 case 26 => ROW26 case 27 => ROW27 case 28 => ROW28 case 29 => ROW29 case 30 => ROW30 case _ => ROW31
  }

  function Entry(i: nat): Word
    requires i < 256
  {
    TableRow(i / 8).At(i % 8)
  }

  /** One shift of the register; the generator is subtracted when a bit falls out. */
  function Shift(e: Word): Word {
    var t := e << 1;
    if t < 0x1_0000_0000 then t else t ^ 0x1_04c1_1db7
  }

  /** Two neighbours of a row come from the entry at half their index. */
  predicate PairOk(e: Word, even: Word, odd: Word) {
    even == Shift(e) && odd == even ^ 0x04c1_1db7
  }

  /** A row and the next, against the row whose index is half of theirs. */
  predicate RowsOk(p: Row, even: Row, odd: Row) {
    && PairOk(p.w0, even.w0, even.w1) && PairOk(p.w1, even.w2, even.w3)
    && PairOk(p.w2, even.w4, even.w5) && PairOk(p.w3, even.w6, even.w7)
    && PairOk(p.w4, odd.w0, odd.w1) && PairOk(p.w5, odd.w2, odd.w3)
    && PairOk(p.w6, odd.w4, odd.w5) && PairOk(p.w7, odd.w6, odd.w7)
  }

  lemma Rows0To3()
    ensures RowsOk(ROW0, ROW0, ROW1)
    ensures RowsOk(ROW1, ROW2, ROW3)
  {
  }

  lemma Rows4To7()
    ensures RowsOk(ROW2, ROW4, ROW5)
    ensures RowsOk(ROW3, ROW6, ROW7)
  {
  }

  lemma Rows8To11()
    ensures RowsOk(ROW4, ROW8, ROW9)
    ensures RowsOk(ROW5, ROW10, ROW11)
  {
  }

  lemma Rows12To15()
    ensures RowsOk(ROW6, ROW12, ROW13)
    ensures RowsOk(ROW7, ROW14, ROW15)
  {
  }

  lemma Rows16To19()
    ensures RowsOk(ROW8, ROW16, ROW17)
    ensures RowsOk(ROW9, ROW18, ROW19)
  {
  }

  lemma Rows20To23()
    ensures RowsOk(ROW10, ROW20, ROW21)
    ensures RowsOk(ROW11, ROW22, ROW23)
  {
  }

  lemma Rows24To27()
    ensures RowsOk(ROW12, ROW24, ROW25)
    ensures RowsOk(ROW13, ROW26, ROW27)
  {
  }

  lemma Rows28To31()
    ensures RowsOk(ROW14, ROW28, ROW29)
    ensures RowsOk(ROW15, ROW30, ROW31)
  {
  }

  lemma EveryRowOk(r: nat)
    requires r < 16
    ensures RowsOk(TableRow(r), TableRow(2 * r), TableRow(2 * r + 1))
  {
    hide RowsOk;
    Rows0To3();
    Rows4To7();
    Rows8To11();
    Rows12To15();
    Rows16To19();
    Rows20To23();
    Rows24To27();
    Rows28To31();
  }

  const CRCTAB: seq<nat> := seq(256, i requires 0 <= i < 256 => Nat(Entry(i)))

  // ---------- Words as natural numbers ----------

  function Low(x: Word): (r: nat)
    ensures r < 2
  {
    if x & 1 == 1 then 1 else 0
  }

  /** The number a word stands for. */
  function Nat(x: Word): nat {
    if x == 0 then 0 else 2 * Nat(x >> 1) + Low(x)
  }

  lemma NatBit(x: Word)
    ensures Nat(x) == 2 * Nat(x >> 1) + Low(x)
  {
  }

  lemma NatOfBits()
    ensures Nat(0) == 0 && Nat(1) == 1
  {
    NatBit(1);
  }

  lemma HalfOfXor(a: Word, b: Word)
    ensures (a ^ b) >> 1 == (a >> 1) ^ (b >> 1)
  {
  }

  lemma LowOfXor(a: Word, b: Word)
    ensures Low(a ^ b) == (Low(a) + Low(b)) % 2
  {
  }

  lemma {:induction false} NatXor(a: Word, b: Word)
    ensures Nat(a ^ b) == Xor(Nat(a), Nat(b))
    decreases a
  {
    hide Xor, Nat;
    if a == 0 {
      XorWithZero(b);
      NatOfBits();
      XorZero(Nat(b));
    } else {
      HalfIsLess(a);
      NatXor(a >> 1, b >> 1);
      NatXorBit(a, b);
    }
  }

  lemma XorWithZero(b: Word)
    ensures 0 ^ b == b
  {
  }

  lemma HalfIsLess(a: Word)
    requires a != 0
    ensures a >> 1 < a
  {
  }

  lemma NatXorBit(a: Word, b: Word)
    requires Nat((a >> 1) ^ (b >> 1)) == Xor(Nat(a >> 1), Nat(b >> 1))
    ensures Nat(a ^ b) == Xor(Nat(a), Nat(b))
  {
    hide Xor, Low, Nat;
    HalfOfXor(a, b);
    LowOfXor(a, b);
    NatBit(a);
    NatBit(b);
    NatBit(a ^ b);
    XorBit(Nat(a >> 1), Low(a), Nat(b >> 1), Low(b));
  }

  lemma NatDouble(a: Word)
    requires a < 0x1_0000_0000
    ensures Nat(a << 1) == 2 * Nat(a)
  {
    assert (a << 1) >> 1 == a && (a << 1) & 1 == 0;
  }

  lemma NatBits(x: Word, p: Word, q: Word, r: Word, y: Word)
    requires p == x >> 1 && q == p >> 1 && r == q >> 1 && y == r >> 1
    ensures Nat(x) == 0x10 * Nat(y) + 8 * Low(r) + 4 * Low(q) + 2 * Low(p) + Low(x)
  {
    hide Low, Nat;
    NatBit(x);
    NatBit(p);
    NatBit(q);
    NatBit(r);
  }

  lemma Shift2(x: Word)
    ensures (x >> 1) >> 1 == x >> 2
  {
  }

  lemma Shift4(x: Word)
    ensures (x >> 2) >> 2 == x >> 4
  {
  }

  lemma Shift8(x: Word)
    ensures (x >> 4) >> 4 == x >> 8
  {
  }

  lemma Shift16(x: Word)
    ensures (x >> 8) >> 8 == x >> 16
  {
  }

  lemma Shift32(x: Word)
    ensures (x >> 16) >> 16 == x >> 32
  {
  }

  lemma Above2(x: Word)
    ensures 4 * Nat(x >> 2) <= Nat(x) < 4 * Nat(x >> 2) + 4
  {
    hide Low, Nat;
    Shift2(x);
    NatBit(x);
    NatBit(x >> 1);
  }

  lemma Above4(x: Word)
    ensures 0x10 * Nat(x >> 4) <= Nat(x) < 0x10 * Nat(x >> 4) + 0x10
  {
    hide Nat;
    Shift4(x);
    Above2(x);
    Above2(x >> 2);
  }

  lemma Above8(x: Word)
    ensures 0x100 * Nat(x >> 8) <= Nat(x) < 0x100 * Nat(x >> 8) + 0x100
  {
    hide Nat;
    Shift8(x);
    Above4(x);
    Above4(x >> 4);
  }

  lemma Above16(x: Word)
    ensures 0x1_0000 * Nat(x >> 16) <= Nat(x) < 0x1_0000 * Nat(x >> 16) + 0x1_0000
  {
    hide Nat;
    Shift16(x);
    Above8(x);
    Above8(x >> 8);
  }

  lemma Above32(x: Word)
    ensures TWO32 * Nat(x >> 32) <= Nat(x) < TWO32 * Nat(x >> 32) + TWO32
  {
    hide Nat;
    Shift32(x);
    Above16(x);
    Above16(x >> 16);
  }

  lemma Above32Cases(x: Word)
    ensures x >> 32 == if x < 0x1_0000_0000 then 0 else 1
  {
  }

  lemma NatConstants()
    ensures Nat(0x1_0000_0000) == TWO32 && Nat(0x1_04c1_1db7) == G && Nat(0x04c1_1db7) == G - TWO32
  {
    hide Nat;
    NatOfGenerator(1);
    NatOfGenerator(0);
    NatOfX32();
  }

  lemma NatOfX32()
    ensures Nat(0x1_0000_0000) == TWO32
  {
    hide Nat;
    NatBits(0x1_0000_0000, 0x1_0000_0000 >> 1, 0x1_0000_0000 >> 2, 0x1_0000_0000 >> 3, 0x1_0000_0000 >> 4);
    NatBits(0x1000_0000, 0x1000_0000 >> 1, 0x1000_0000 >> 2, 0x1000_0000 >> 3, 0x1000_0000 >> 4);
    NatBits(0x100_0000, 0x100_0000 >> 1, 0x100_0000 >> 2, 0x100_0000 >> 3, 0x100_0000 >> 4);
    NatBits(0x10_0000, 0x10_0000 >> 1, 0x10_0000 >> 2, 0x10_0000 >> 3, 0x10_0000 >> 4);
    NatBits(0x1_0000, 0x1_0000 >> 1, 0x1_0000 >> 2, 0x1_0000 >> 3, 0x1_0000 >> 4);
    NatBits(0x1000, 0x1000 >> 1, 0x1000 >> 2, 0x1000 >> 3, 0x1000 >> 4);
    NatBits(0x100, 0x100 >> 1, 0x100 >> 2, 0x100 >> 3, 0x100 >> 4);
    NatBits(0x10, 0x10 >> 1, 0x10 >> 2, 0x10 >> 3, 0x10 >> 4);
    NatBits(1, 1 >> 1, 1 >> 2, 1 >> 3, 1 >> 4);
    NatOfBits();
  }

  lemma NatOfGenerator(c: Word)
    requires c < 2
    ensures Nat(0x04c1_1db7 | (c << 32)) == 0x04c1_1db7 + Low(c) * TWO32
  {
    hide Nat;
    var g := 0x04c1_1db7 | (c << 32);
    NatBits(g, g >> 1, g >> 2, g >> 3, g >> 4);
    NatBits(g >> 4, g >> 5, g >> 6, g >> 7, g >> 8);
    NatBits(g >> 8, g >> 9, g >> 10, g >> 11, g >> 12);
    NatBits(g >> 12, g >> 13, g >> 14, g >> 15, g >> 16);
    NatBits(g >> 16, g >> 17, g >> 18, g >> 19, g >> 20);
    NatBits(g >> 20, g >> 21, g >> 22, g >> 23, g >> 24);
    NatBits(g >> 24, g >> 25, g >> 26, g >> 27, g >> 28);
    NatBits(g >> 28, g >> 29, g >> 30, g >> 31, g >> 32);
    NatBit(g >> 32);
    NatOfBits();
  }

  // ---------- The table holds remainders ----------

  lemma NatShift(e: Word)
    requires e < 0x1_0000_0000
    ensures Nat(Shift(e)) == Reduce(2 * Nat(e))
  {
    hide Nat, Xor;
    var t := e << 1;
    NatDouble(e);
    NatConstants();
    Above32(t);
    Above32Cases(t);
    NatOfBits();
    NatXor(t, 0x1_04c1_1db7);
  }

  lemma ShiftStaysSmall(e: Word)
    requires e < 0x1_0000_0000
    ensures Shift(e) < 0x1_0000_0000 && Shift(e) ^ 0x04c11db7 < 0x1_0000_0000
  {
  }

  lemma PairInRow(r: nat, k: nat)
    requires r < 16 && k < 8
    ensures var next := TableRow(2 * r + k / 4); PairOk(TableRow(r).At(k), next.At(2 * (k % 4)), next.At(2 * (k % 4) + 1))
  {
    hide TableRow, PairOk;
    EveryRowOk(r);
  }

  lemma PairAt(i: nat)
    requires i < 128
    ensures PairOk(Entry(i), Entry(2 * i), Entry(2 * i + 1))
  {
    hide TableRow, PairOk, Row.At;
    var r, k := i / 8, i % 8;
    PairInRow(r, k);
    assert 2 * i == 8 * (2 * r + k / 4) + 2 * (k % 4);
  }

  /** Every table entry is the remainder of its index times x^32. */
  lemma {:induction false} TableCorrect(i: nat)
    requires i < 256
    ensures CRCTAB[i] == Rem(TWO32 * i) && Entry(i) < 0x1_0000_0000
  {
    hide Entry, PairOk;
    if i < 2 { FirstEntry(); } else { TableCorrect(i / 2); }
    PairAt(i / 2);
    PairCorrect(i / 2, Entry(i / 2), Entry(2 * (i / 2)), Entry(2 * (i / 2) + 1));
  }

  lemma PairCorrect(h: nat, e: Word, even: Word, odd: Word)
    requires PairOk(e, even, odd)
    requires e < 0x1_0000_0000 && Nat(e) == Rem(TWO32 * h)
    ensures even < 0x1_0000_0000 && Nat(even) == Rem(TWO32 * (2 * h))
    ensures odd < 0x1_0000_0000 && Nat(odd) == Rem(TWO32 * (2 * h + 1))
  {
    hide Nat, Xor, Rem, Shift;
    ShiftStaysSmall(e);
    EvenCorrect(h, e, even);
    OddCorrect(h, even, odd);
  }

  lemma EvenCorrect(h: nat, e: Word, even: Word)
    requires e < 0x1_0000_0000 && Nat(e) == Rem(TWO32 * h) && even == Shift(e)
    ensures Nat(even) == Rem(TWO32 * (2 * h))
  {
    hide Nat, Xor, Rem, Shift, Reduce;
    NatShift(e);
    RemBit(TWO32 * h, 0);
    assert 2 * (TWO32 * h) == TWO32 * (2 * h);
  }

  lemma OddCorrect(h: nat, even: Word, odd: Word)
    requires Nat(even) == Rem(TWO32 * (2 * h)) && odd == even ^ 0x04c1_1db7
    ensures Nat(odd) == Rem(TWO32 * (2 * h + 1))
  {
    hide Nat, Xor, Rem;
    NatXor(even, 0x04c1_1db7);
    NatConstants();
    OddEntry(h);
  }

  lemma FirstEntry()
    ensures Entry(0) == 0 && Nat(Entry(0)) == 0 == Rem(TWO32 * 0)
  {
  }

  lemma OddEntry(h: nat)
    ensures Rem(TWO32 * (2 * h + 1)) == Xor(Rem(TWO32 * (2 * h)), G - TWO32)
  {
    hide Xor, Rem, Shl;
    var p := 2 * h;
    XorBit(h, 0, 0, 1);
    XorZero(h);
    assert Xor(p, 1) == p + 1;
    ShlXor(p, 1, 32);
    ShiftsByConstants(p);
    ShiftsByConstants(1);
    ShiftsByConstants(p + 1);
    RemLinear(TWO32 * p, TWO32);
    RemOfX32();
  }

  lemma RemOfX32()
    ensures Rem(TWO32) == G - TWO32
  {
    hide Xor, Rem;
    RemSmall(TWO32 / 2);
    RemBit(TWO32 / 2, 0);
    Top(TWO32);
    XorZero(G - TWO32);
  }
}
