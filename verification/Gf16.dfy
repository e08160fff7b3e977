/// GF(2^16): the arithmetic of src/spqr/gf16.zig, and the proof that it is a field.
///
/// Polynomials over GF(2) are bit-vectors, bit i being the coefficient of x^i.  Every bit
/// operation has a name and a few laws, each proved once on raw bit-vectors; the inductions
/// over the bits of an operand use only those laws.
module Gf16 {

  const POLY: bv32 := 0x1100b  // x^16 + x^12 + x^3 + x + 1

  // ---------------------------------------------------------------- bit operations

  /// Addition in the field.
  function Add(a: bv16, b: bv16): bv16 { a ^ b }

  function Add32(v: bv32, w: bv32): bv32 { v ^ w }

  function Shl32(v: bv32): bv32 { v << 1 }

  function Shr32(v: bv32): bv32 { v >> 1 }

  function Shr(a: bv16): bv16 { a >> 1 }

  /// b if the low bit of a is set, else 0.
  function IfLow(a: bv16, b: bv16): bv16 { (0 - (a & 1)) & b }

  function IfLow32(a: bv32, b: bv32): bv32 { (0 - (a & 1)) & b }

  /// Multiplication by x: shift, and subtract POLY when x^16 appears.
  function MulX(a: bv16): bv16 {
    (a << 1) ^ ((0 - (a >> 15)) & 0x100b)
  }

  /// x * r + (constant coefficient of v), modulo POLY.
  function HornerStep(r: bv16, v: bv32): bv16 {
    MulX(r) ^ ((v & 1) as bv16)
  }

  function Truncate(v: bv32): bv16 { (v & 0xFFFF) as bv16 }

  // ---------------------------------------------------------------- reference definitions

  /// Remainder modulo POLY of a polynomial of degree below 16 + n (Horner's rule).
  function Rem(v: bv32, n: nat): bv16
    decreases n, v
  {
    if n == 0 then Truncate(v) else HornerStep(Rem(Shr32(v), n - 1), v)
  }

  /// Carry-less product of the low n bits of a with b.
  function Clmul(a: bv32, b: bv32, n: nat): bv32
    decreases n, a
  {
    if n == 0 then 0 else Add32(IfLow32(a, b), Clmul(Shr32(a), Shl32(b), n - 1))
  }

  /// Product modulo POLY of the low n bits of a with b, reducing after every shift.
  function TimesN(a: bv16, b: bv16, n: nat): bv16
    decreases n, a
  {
    if n == 0 then 0 else Add(IfLow(a, b), TimesN(Shr(a), MulX(b), n - 1))
  }

  function Times(a: bv16, b: bv16): bv16 { TimesN(a, b, 16) }

  // ---------------------------------------------------------------- laws of the bit operations

  lemma AddXor(a: bv16, b: bv16)
    ensures Add(a, b) == a ^ b
  {
  }

  lemma AddAssoc(a: bv16, b: bv16, c: bv16)
    ensures Add(Add(a, b), c) == Add(a, Add(b, c))
  {
    assert Add(a, b) == a ^ b && Add(b, c) == b ^ c;
    assert Add(a ^ b, c) == (a ^ b) ^ c && Add(a, b ^ c) == a ^ (b ^ c);
  }

  lemma AddComm(a: bv16, b: bv16)
    ensures Add(a, b) == Add(b, a)
  {
  }

  lemma AddZero(a: bv16)
    ensures Add(a, 0) == a && Add(0, a) == a && Add(a, a) == 0
  {
  }

  lemma AddShuffle(a: bv16, b: bv16, c: bv16, d: bv16)
    ensures Add(Add(a, b), Add(c, d)) == Add(Add(a, c), Add(b, d))
  {
    assert Add(Add(a, b), Add(c, d)) == Add(a ^ b, c ^ d);
    assert Add(a ^ b, c ^ d) == (a ^ b) ^ (c ^ d);
    assert Add(Add(a, c), Add(b, d)) == Add(a ^ c, b ^ d);
    assert Add(a ^ c, b ^ d) == (a ^ c) ^ (b ^ d);
  }

  lemma MulXXor(a: bv16, b: bv16)
    ensures MulX(a ^ b) == MulX(a) ^ MulX(b)
  {
  }

  lemma MulXAdd(a: bv16, b: bv16)
    ensures MulX(Add(a, b)) == Add(MulX(a), MulX(b))
  {
    MulXXor(a, b);
    assert MulX(Add(a, b)) == MulX(a ^ b);
    assert MulX(a) ^ MulX(b) == Add(MulX(a), MulX(b));
  }

  lemma IfLowXorLeft(a: bv16, c: bv16, b: bv16)
    ensures IfLow(a ^ c, b) == IfLow(a, b) ^ IfLow(c, b)
  {
  }

  lemma IfLowAddLeft(a: bv16, c: bv16, b: bv16)
    ensures IfLow(Add(a, c), b) == Add(IfLow(a, b), IfLow(c, b))
  {
    AddXor(a, c);
    AddXor(IfLow(a, b), IfLow(c, b));
    IfLowXorLeft(a, c, b);
  }

  lemma IfLowXorRight(a: bv16, b: bv16, d: bv16)
    ensures IfLow(a, b ^ d) == IfLow(a, b) ^ IfLow(a, d)
  {
  }

  lemma IfLowAddRight(a: bv16, b: bv16, d: bv16)
    ensures IfLow(a, Add(b, d)) == Add(IfLow(a, b), IfLow(a, d))
  {
    AddXor(b, d);
    AddXor(IfLow(a, b), IfLow(a, d));
    IfLowXorRight(a, b, d);
  }

  predicate Odd(a: bv16) { a & 1 != 0 }

  lemma IfLowIs(a: bv16, b: bv16)
    ensures IfLow(a, b) == if Odd(a) then b else 0
  {
    if a & 1 == 0 {
      assert 0 - (a & 1) == 0;
    } else {
      assert a & 1 == 1;
      assert 0 - (a & 1) == 0xFFFF;
    }
  }

  lemma ShrAdd(a: bv16, c: bv16)
    ensures Shr(Add(a, c)) == Add(Shr(a), Shr(c))
  {
    assert (a ^ c) >> 1 == (a >> 1) ^ (c >> 1);
  }

  lemma ParityXor(v: bv32, w: bv32)
    ensures ((v ^ w) & 1) as bv16 == ((v & 1) as bv16) ^ ((w & 1) as bv16)
  {
  }

  lemma HornerAdd(r: bv16, s: bv16, v: bv32, w: bv32)
    ensures HornerStep(Add(r, s), Add32(v, w)) == Add(HornerStep(r, v), HornerStep(s, w))
  {
    MulXXor(r, s);
    ParityXor(v, w);
    assert HornerStep(Add(r, s), Add32(v, w)) == HornerStep(r ^ s, v ^ w);
    assert HornerStep(r ^ s, v ^ w) == HornerStep(r, v) ^ HornerStep(s, w);
  }

  lemma ShrXor(v: bv32, w: bv32)
    ensures Shr32(v ^ w) == Add32(Shr32(v), Shr32(w))
  {
    assert (v ^ w) >> 1 == (v >> 1) ^ (w >> 1);
  }

  lemma TruncateXor(v: bv32, w: bv32)
    ensures Truncate(v ^ w) == Truncate(v) ^ Truncate(w)
  {
  }

  lemma WordAdd(v: bv32, w: bv32)
    ensures Shr32(Add32(v, w)) == Add32(Shr32(v), Shr32(w))
    ensures Truncate(Add32(v, w)) == Add(Truncate(v), Truncate(w))
  {
    assert Add32(v, w) == v ^ w;
    ShrXor(v, w);
    AddXor(Truncate(v), Truncate(w));
    TruncateXor(v, w);
  }

  // ---------------------------------------------------------------- the remainder

  /// The remainder is linear.
  lemma {:induction false} RemAdd(v: bv32, w: bv32, n: nat)
    ensures Rem(Add32(v, w), n) == Add(Rem(v, n), Rem(w, n))
    decreases n
  {
    WordAdd(v, w);
    if n > 0 {
      RemAdd(Shr32(v), Shr32(w), n - 1);
      HornerAdd(Rem(Shr32(v), n - 1), Rem(Shr32(w), n - 1), v, w);
    }
  }

  lemma SmallStep(v: bv32)
    requires v < 0x10000
    ensures Shr32(v) < 0x10000
    ensures HornerStep(Truncate(Shr32(v)), v) == Truncate(v)
  {
  }

  /// A polynomial of degree below 16 is its own remainder.
  lemma {:induction false} RemSmall(v: bv32, n: nat)
    requires v < 0x10000
    ensures Rem(v, n) == Truncate(v)
    decreases n
  {
    if n > 0 {
      SmallStep(v);
      RemSmall(Shr32(v), n - 1);
    }
  }

  lemma ShiftStep(v: bv32, r: bv16)
    requires v < 0x8000_0000
    ensures Shr32(Shl32(v)) == v
    ensures HornerStep(r, Shl32(v)) == MulX(r)
  {
  }

  lemma RemShift(v: bv32, n: nat)
    requires v < 0x8000_0000
    ensures Rem(Shl32(v), n + 1) == MulX(Rem(v, n))
  {
    ShiftStep(v, Rem(v, n));
  }

  function MulX8(a: bv16): bv16 {
    MulX(MulX(MulX(MulX(MulX(MulX(MulX(MulX(a))))))))
  }

  lemma ShiftBounds(v: bv32)
    requires v < 0x100_0000
    ensures Shl32(v) < 0x200_0000
    ensures Shl32(Shl32(v)) < 0x400_0000
    ensures Shl32(Shl32(Shl32(v))) < 0x800_0000
    ensures Shl32(Shl32(Shl32(Shl32(v)))) < 0x1000_0000
    ensures Shl32(Shl32(Shl32(Shl32(Shl32(v))))) < 0x2000_0000
    ensures Shl32(Shl32(Shl32(Shl32(Shl32(Shl32(v)))))) < 0x4000_0000
    ensures Shl32(Shl32(Shl32(Shl32(Shl32(Shl32(Shl32(v))))))) < 0x8000_0000
    ensures Shl32(Shl32(Shl32(Shl32(Shl32(Shl32(Shl32(Shl32(v)))))))) == v << 8
  {
  }

  lemma RemShift8(v: bv32, n: nat)
    requires v < 0x100_0000
    ensures Rem(v << 8, n + 8) == MulX8(Rem(v, n))
  {
    ShiftBounds(v);
    RemShift(v, n);
    var v1 := Shl32(v);
    RemShift(v1, n + 1);
    var v2 := Shl32(v1);
    RemShift(v2, n + 2);
    var v3 := Shl32(v2);
    RemShift(v3, n + 3);
    var v4 := Shl32(v3);
    RemShift(v4, n + 4);
    var v5 := Shl32(v4);
    RemShift(v5, n + 5);
    var v6 := Shl32(v5);
    RemShift(v6, n + 6);
    RemShift(Shl32(v6), n + 7);
  }

  /// POLY and its shifts are 0 modulo POLY.
  lemma RemPoly(n: nat)
    requires n >= 1
    ensures Rem(POLY, n) == 0
  {
    assert Shr32(POLY) == 0x8805;
    RemSmall(0x8805, n - 1);
    assert Truncate(0x8805) == 0x8805;
    assert HornerStep(0x8805, POLY) == 0;
  }

  lemma PolyShl(k: nat)
    requires 1 <= k <= 7
    ensures POLY << k == Shl32(POLY << (k - 1))
    ensures POLY << (k - 1) < 0x8000_0000
  {
    if k == 1 {} else if k == 2 {} else if k == 3 {} else if k == 4 {} else if k == 5 {} else if k == 6 {} else {}
  }

  lemma {:induction false} RemPolyShift(k: nat, n: nat)
    requires k <= 7 && n >= 1
    ensures Rem(POLY << k, n + k) == 0
  {
    if k == 0 {
      RemPoly(n);
      assert POLY << 0 == POLY;
    } else {
      RemPolyShift(k - 1, n);
      PolyShl(k);
      RemShift(POLY << (k - 1), n + k - 1);
      assert MulX(0) == 0;
    }
  }

  // ---------------------------------------------------------------- the reduction table

  /// REDUCE_BYTES[i], the remainder of i * x^16.
  function ReduceByte(i: bv32): bv16 {
    Rem(i << 16, 8)
  }

  /// One step of long division: clear bit `bit` of v with a multiple of POLY.
  function ClearBit(v: bv32, bit: nat): bv32
    requires 16 <= bit <= 23
  {
    if (v >> bit) & 1 != 0 then v ^ (POLY << (bit - 16)) else v
  }

  function Bound(n: nat): bv32
    requires n <= 8
  {
    [0x1_0000, 0x2_0000, 0x4_0000, 0x8_0000, 0x10_0000, 0x20_0000, 0x40_0000, 0x80_0000, 0x100_0000][n]
  }

  lemma ClearBitBound(v: bv32, bit: nat)
    requires 16 <= bit <= 23
    requires v < Bound(bit - 15)
    ensures ClearBit(v, bit) < Bound(bit - 16)
  {
    if bit == 16 {} else if bit == 17 {} else if bit == 18 {} else if bit == 19 {}
    else if bit == 20 {} else if bit == 21 {} else if bit == 22 {} else {}
  }

  lemma AddMultiple(v: bv32, p: bv32, n: nat)
    requires Rem(p, n) == 0
    ensures Rem(Add32(v, p), n) == Rem(v, n)
  {
    RemAdd(v, p, n);
    AddZero(Rem(v, n));
  }

  lemma ClearBitRem(v: bv32, bit: nat)
    requires 16 <= bit <= 23
    ensures Rem(ClearBit(v, bit), 8) == Rem(v, 8)
  {
    RemPolyShift(bit - 16, 24 - bit);
    AddMultiple(v, POLY << (bit - 16), 8);
  }

  /// Invariant of the division: v has no bit above `bit`, and the remainder is unchanged.
  predicate Dividing(v: bv32, bit: int, i: bv32) {
    15 <= bit <= 23 && v < Bound(bit - 15) && Rem(v, 8) == ReduceByte(i)
  }

  lemma DivideStart(i: bv32)
    requires i < 256
    ensures Dividing(i << 16, 23, i)
  {
  }

  lemma DivideStep(v: bv32, bit: int, i: bv32)
    requires Dividing(v, bit, i) && 16 <= bit
    ensures Dividing(ClearBit(v, bit), bit - 1, i)
  {
    ClearBitBound(v, bit);
    ClearBitRem(v, bit);
  }

  lemma DivideEnd(v: bv32, i: bv32)
    requires Dividing(v, 15, i)
    ensures Truncate(v) == ReduceByte(i)
  {
    RemSmall(v, 8);
  }

  /// The inner loop of the table builder: long division of i * x^16, bits 23 down to 16.
  method ReduceEntry(i: bv32) returns (r: bv16)
    requires i < 256
    ensures r == ReduceByte(i)
  {
    DivideStart(i);
    var v := i << 16;
    var bit := 23;
    while bit >= 16
      invariant Dividing(v, bit, i)
    {
      DivideStep(v, bit, i);
      v := ClearBit(v, bit);
      bit := bit - 1;
    }
    DivideEnd(v, i);
    r := Truncate(v);
  }

  /// The table builder: entry i is the remainder of i * x^16.
  method BuildReduceBytes() returns (table: array<bv16>)
    ensures fresh(table) && table.Length == 256
    ensures forall i: nat :: i < 256 ==> table[i] == ReduceByte(i as bv32)
  {
    table := new bv16[256];
    var i := 0;
    while i < 256
      invariant 0 <= i <= 256
      invariant forall j: nat :: j < i ==> table[j] == ReduceByte(j as bv32)
    {
      assert i as bv32 < 256;
      var entry := ReduceEntry(i as bv32);
      table[i] := entry;
      i := i + 1;
    }
  }

  // ---------------------------------------------------------------- reduction of 32 bits

  function Byte3(v: bv32): bv32 { v >> 24 }

  function Byte2(v: bv32): bv32 { (v >> 16) & 0xFF }

  function Low24(v: bv32): bv32 { v & 0xFF_FFFF }

  function Low16(v: bv32): bv32 { v & 0xFFFF }

  function Up24(v: bv32): bv32 { v << 24 }

  function Up16(v: bv32): bv32 { v << 16 }

  function Up8(t: bv16): bv32 { (t as bv32) << 8 }

  /// Two table lookups: byte 3 is folded into bits 23..8, then byte 2 into bits 15..0.
  function PolyReduce(v: bv32): bv16 {
    var vv := Add32(v, Up8(ReduceByte(Byte3(v))));
    Truncate(Add32(vv, ReduceByte(Byte2(vv)) as bv32))
  }

  lemma TopByte(h: bv32)
    requires h < 256
    ensures Rem(Up24(h), 16) == MulX8(ReduceByte(h))
  {
    RemShift8(h << 16, 8);
    assert (h << 16) << 8 == h << 24;
  }

  lemma EntryShifted(t: bv16)
    ensures Rem(Up8(t), 16) == MulX8(t)
  {
    RemShift8(t as bv32, 8);
    RemSmall(t as bv32, 8);
    assert Truncate(t as bv32) == t;
  }

  lemma NextByte(i: bv32)
    requires i < 256
    ensures Rem(Up16(i), 16) == ReduceByte(i)
  {
    assert (i << 8) << 8 == i << 16 && i << 8 < 0x10000;
    RemShift8(i << 8, 8);
    RemShift8(i << 8, 0);
    RemSmall(i << 8, 8);
    RemSmall(i << 8, 0);
  }

  /// The first lookup folds the top byte into the lower 24 bits.
  lemma FoldTop(v: bv32, low: bv32, h: bv32)
    requires h < 256
    requires v == Add32(low, Up24(h))
    ensures Rem(v, 16) == Rem(Add32(low, Up8(ReduceByte(h))), 16)
  {
    TopByte(h);
    EntryShifted(ReduceByte(h));
    RemAdd(low, Up24(h), 16);
    RemAdd(low, Up8(ReduceByte(h)), 16);
  }

  /// The second lookup folds bits 23..16 into the lower 16.
  lemma FoldNext(w: bv32, low: bv32, i: bv32)
    requires i < 256 && low < 0x10000
    requires w == Add32(low, Up16(i))
    ensures Rem(w, 16) == Add(Truncate(low), ReduceByte(i))
  {
    NextByte(i);
    RemSmall(low, 16);
    RemAdd(low, Up16(i), 16);
  }

  lemma SplitTop(v: bv32)
    ensures Byte3(v) < 256
    ensures v == Add32(Low24(v), Up24(Byte3(v)))
  {
    assert v == (v & 0xFF_FFFF) ^ ((v >> 24) << 24);
  }

  lemma SplitNext(v: bv32)
    ensures Byte2(v) < 256 && Low16(v) < 0x10000
    ensures Low24(v) == Add32(Low16(v), Up16(Byte2(v)))
  {
    assert v & 0xFF_FFFF == (v & 0xFFFF) ^ (((v >> 16) & 0xFF) << 16);
  }

  lemma Add32Xor(v: bv32, w: bv32)
    ensures Add32(v, w) == v ^ w
  {
  }

  lemma MaskXor(v: bv32, e: bv32)
    requires e < 0x100_0000
    ensures Low24(v ^ e) == Low24(v) ^ e
  {
  }

  lemma MaskEntry(v: bv32, e: bv32)
    requires e < 0x100_0000
    ensures Low24(Add32(v, e)) == Add32(Low24(v), e)
  {
    MaskXor(v, e);
    Add32Xor(v, e);
    Add32Xor(Low24(v), e);
  }

  lemma EntryBelow(t: bv16)
    ensures Up8(t) < 0x100_0000
  {
  }

  lemma LastXor(v: bv32, t: bv16)
    ensures Truncate(v ^ (t as bv32)) == Truncate(v & 0xFFFF) ^ t
  {
  }

  lemma LastStep(v: bv32, t: bv16)
    ensures Truncate(Add32(v, t as bv32)) == Add(Truncate(Low16(v)), t)
  {
    LastXor(v, t);
    assert Add32(v, t as bv32) == v ^ (t as bv32);
    assert Low16(v) == v & 0xFFFF;
    AddXor(Truncate(v & 0xFFFF), t);
  }

  /// The table-driven reduction is the remainder modulo POLY.
  lemma PolyReduceIsRem(v: bv32)
    ensures PolyReduce(v) == Rem(v, 16)
  {
    var t := ReduceByte(Byte3(v));
    var vv := Add32(v, Up8(t));
    SplitTop(v);
    FoldTop(v, Low24(v), Byte3(v));
    EntryBelow(t);
    MaskEntry(v, Up8(t));
    SplitNext(vv);
    FoldNext(Low24(vv), Low16(vv), Byte2(vv));
    LastStep(vv, ReduceByte(Byte2(vv)));
  }

  // ---------------------------------------------------------------- the multiplication loop

  predicate LowBit(a: bv32) { a & 1 != 0 }

  /// a has at most n bits.
  predicate Fits(a: bv32, n: nat)
    decreases n, a
  {
    if n == 0 then a == 0 else Fits(Shr32(a), n - 1)
  }

  /// 2^n, kept as a chain of shifts.
  function Pow2(n: nat): bv32
  {
    if n == 0 then 1 else Shl32(Pow2(n - 1))
  }

  predicate Below(a: bv32, b: bv32) { a < b }

  lemma HalfBound(a: bv32, p: bv32)
    requires Below(a, Shl32(p))
    ensures Below(Shr32(a), p)
  {
  }

  lemma {:induction false} BelowFits(a: bv32, n: nat)
    requires Below(a, Pow2(n))
    ensures Fits(a, n)
    decreases n
  {
    if n > 0 {
      HalfBound(a, Pow2(n - 1));
      BelowFits(Shr32(a), n - 1);
    }
  }

  lemma Pow2Values()
    ensures Pow2(16) == 0x10000
  {
    assert Pow2(5) == 0x20;
    assert Pow2(10) == 0x400;
  }

  lemma ZeroLaws(b: bv32)
    ensures Shr32(0) == 0 && IfLow32(0, b) == 0
    ensures Add32(0, b) == b && Add32(b, 0) == b
  {
  }

  lemma {:induction false} ClmulZero(b: bv32, n: nat)
    ensures Clmul(0, b, n) == 0
    decreases n
  {
    if n > 0 {
      ClmulZero(Shl32(b), n - 1);
      ZeroLaws(b);
      ZeroLaws(0);
    }
  }

  lemma Add32Assoc(a: bv32, b: bv32, c: bv32)
    ensures Add32(Add32(a, b), c) == Add32(a, Add32(b, c))
  {
    assert Add32(a, b) == a ^ b && Add32(b, c) == b ^ c;
    assert Add32(a ^ b, c) == (a ^ b) ^ c && Add32(a, b ^ c) == a ^ (b ^ c);
  }

  lemma IfLow32Cases(a: bv32, b: bv32)
    ensures IfLow32(a, b) == if LowBit(a) then b else 0
  {
    if a & 1 == 0 {
      assert 0 - (a & 1) == 0;
    } else {
      assert a & 1 == 1;
      assert 0 - (a & 1) == 0xFFFF_FFFF;
    }
  }

  /// The carry-less product of two field elements, of degree at most 30.
  function Product(a: bv16, b: bv16): bv32 { Clmul(a as bv32, b as bv32, 16) }

  /// The carry-less multiplication loop.
  method PolyMul(a: bv16, b: bv16) returns (result: bv32)
    ensures result == Product(a, b)
  {
    result := 0;
    var av := a as bv32;
    var bv := b as bv32;
    ghost var k: nat := 16;
    Pow2Values();
    assert Below(av, 0x10000);
    BelowFits(av, 16);
    ZeroLaws(Product(a, b));
    while av != 0
      invariant Fits(av, k)
      invariant Add32(result, Clmul(av, bv, k)) == Product(a, b)
      decreases k
    {
      Add32Assoc(result, IfLow32(av, bv), Clmul(Shr32(av), Shl32(bv), k - 1));
      IfLow32Cases(av, bv);
      ZeroLaws(result);
      if LowBit(av) {
        result := Add32(result, bv);
      }
      av := Shr32(av);
      bv := Shl32(bv);
      k := k - 1;
    }
    ClmulZero(bv, k);
    ZeroLaws(result);
  }

  // ---------------------------------------------------------------- the field product

  function Mul(a: bv16, b: bv16): bv16 { PolyReduce(Product(a, b)) }

  /// 2^(31 - n), kept as a chain of shifts.
  function Top(n: nat): bv32
  {
    if n == 0 then 0x8000_0000 else Shr32(Top(n - 1))
  }

  lemma DoubleBound(b: bv32, p: bv32)
    requires Below(b, Shr32(p))
    ensures Below(Shl32(b), p)
  {
  }

  lemma {:induction false} BelowTop(b: bv32, n: nat)
    requires Below(b, Top(n))
    ensures b < 0x8000_0000
  {
    if n > 0 {
      TopDecreases(b, Top(n - 1));
      BelowTop(b, n - 1);
    }
  }

  lemma TopDecreases(b: bv32, p: bv32)
    requires Below(b, Shr32(p))
    ensures Below(b, p)
  {
  }

  /// Steps of Horner's rule beyond the degree change nothing.
  lemma {:induction false} RemStable(v: bv32, n: nat)
    requires Below(v, UpTo(n))
    ensures Rem(v, n + 1) == Rem(v, n)
    decreases n
  {
    if n == 0 {
      RemSmall(v, 0);
      RemSmall(v, 1);
    } else {
      HalfBound(v, UpTo(n - 1));
      RemStable(Shr32(v), n - 1);
    }
  }

  /// 2^(16 + n), kept as a chain of shifts.
  function UpTo(n: nat): bv32
  {
    if n == 0 then 0x1_0000 else Shl32(UpTo(n - 1))
  }

  lemma ChainValues()
    ensures Top(15) == 0x1_0000
    ensures UpTo(15) == 0x8000_0000
  {
    assert Top(4) == 0x800_0000 && UpTo(4) == 0x10_0000;
    assert Top(8) == 0x80_0000 && UpTo(8) == 0x100_0000;
    assert Top(12) == 0x8_0000 && UpTo(12) == 0x1000_0000;
  }

  /// Doubling a polynomial of degree at most 30 multiplies its remainder by x.
  lemma RemDouble(b: bv32)
    requires b < 0x8000_0000
    ensures Rem(Shl32(b), 16) == MulX(Rem(b, 16))
  {
    ChainValues();
    RemShift(b, 15);
    RemStable(b, 15);
  }

  lemma NarrowShr(a: bv16)
    ensures Shr32(a as bv32) == Shr(a) as bv32
  {
  }

  lemma NarrowIfLow(a: bv16, b: bv32)
    ensures Rem(IfLow32(a as bv32, b), 16) == IfLow(a, Rem(b, 16))
  {
    IfLow32Cases(a as bv32, b);
    IfLowIs(a, Rem(b, 16));
    assert LowBit(a as bv32) == Odd(a);
    RemSmall(0, 16);
    assert Truncate(0) == 0;
  }

  /// Reducing after the multiplication is the same as reducing after every shift.
  lemma {:induction false} ReduceProduct(a: bv16, b: bv32, n: nat)
    requires n >= 1 ==> Below(b, Top(n - 1))
    ensures Rem(Clmul(a as bv32, b, n), 16) == TimesN(a, Rem(b, 16), n)
    decreases n
  {
    if n == 0 {
      RemSmall(0, 16);
      assert Truncate(0) == 0;
    } else {
      if n >= 2 {
        DoubleBound(b, Top(n - 2));
      }
      ReduceProduct(Shr(a), Shl32(b), n - 1);
      ReduceProductStep(a, b, n);
    }
  }

  lemma ReduceProductStep(a: bv16, b: bv32, n: nat)
    requires n >= 1 && Below(b, Top(n - 1))
    requires Rem(Clmul(Shr(a) as bv32, Shl32(b), n - 1), 16) == TimesN(Shr(a), Rem(Shl32(b), 16), n - 1)
    ensures Rem(Clmul(a as bv32, b, n), 16) == TimesN(a, Rem(b, 16), n)
  {
    BelowTop(b, n - 1);
    RemDouble(b);
    NarrowShr(a);
    NarrowIfLow(a, b);
    RemAdd(IfLow32(a as bv32, b), Clmul(Shr32(a as bv32), Shl32(b), n - 1), 16);
  }

  /// The source's multiplication is the product of polynomials modulo POLY.
  lemma MulIsTimes(a: bv16, b: bv16)
    ensures Mul(a, b) == Times(a, b)
  {
    PolyReduceIsRem(Product(a, b));
    ChainValues();
    assert Below(b as bv32, 0x1_0000);
    ReduceProduct(a, b as bv32, 16);
    RemSmall(b as bv32, 16);
    assert Truncate(b as bv32) == b;
  }
}
