/// The product of Gf16 against schoolbook division: it is the one remainder of the carry-less
/// product on division by POLY.
module Gf16Division {
  import opened Gf16
  import opened Gf16Field

  lemma Shl32Add(v: bv32, w: bv32)
    ensures Shl32(Add32(v, w)) == Add32(Shl32(v), Shl32(w))
  {
    assert (v ^ w) << 1 == (v << 1) ^ (w << 1);
  }

  lemma {:induction false} ClmulShl(a: bv32, b: bv32, n: nat)
    ensures Clmul(a, Shl32(b), n) == Shl32(Clmul(a, b, n))
    decreases n
  {
    if n == 0 {
      assert Shl32(0) == 0;
    } else {
      ClmulShl(Shr32(a), Shl32(b), n - 1);
      Shl32Add(IfLow32(a, b), Clmul(Shr32(a), Shl32(b), n - 1));
      IfLow32Cases(a, b);
      IfLow32Cases(a, Shl32(b));
      assert Shl32(0) == 0;
    }
  }

  /// The quotient grows by one bit a step.
  function Append(q: bv32, bit: bv32): bv32 { (q << 1) ^ (bit & 1) }

  /// The coefficient of x^15.
  function High(r: bv16): bv32 { (r >> 15) as bv32 }

  function Bit0(v: bv32): bv32 { v & 1 }

  function Widen(r: bv16): bv32 { r as bv32 }

  lemma AppendShr(q: bv32, bit: bv32)
    requires q < 0x8000_0000
    ensures Shr32(Append(q, bit)) == q
  {
  }

  lemma AppendLow(q: bv32, bit: bv32)
    ensures LowBit(Append(q, bit)) == LowBit(bit)
  {
  }

  lemma HalfXorBit(v: bv32)
    ensures v == ((v >> 1) << 1) ^ (v & 1)
  {
  }

  lemma HalfAndBit(v: bv32)
    ensures v == Add32(Shl32(Shr32(v)), Bit0(v))
  {
    HalfXorBit(v);
    assert Shr32(v) == v >> 1 && Bit0(v) == v & 1;
    assert Shl32(v >> 1) == (v >> 1) << 1;
    assert Add32((v >> 1) << 1, v & 1) == ((v >> 1) << 1) ^ (v & 1);
  }

  lemma DoubleXor(half: bv16)
    ensures (half as bv32) << 1 == ((0 - (High(half) & 1)) & POLY) ^ (MulX(half) as bv32)
  {
  }

  lemma DoubleHalf(half: bv16)
    ensures Shl32(Widen(half)) == Add32(IfLow32(High(half), POLY), Widen(MulX(half)))
  {
    DoubleXor(half);
    assert IfLow32(High(half), POLY) == (0 - (High(half) & 1)) & POLY;
  }

  lemma WidenXor(m: bv16, v: bv32)
    ensures (m ^ ((v & 1) as bv16)) as bv32 == (m as bv32) ^ (v & 1)
  {
  }

  lemma WidenStep(half: bv16, v: bv32)
    ensures Widen(HornerStep(half, v)) == Add32(Widen(MulX(half)), Bit0(v))
  {
    WidenXor(MulX(half), v);
  }

  /// Doubling the remainder subtracts POLY exactly when it has degree 15.
  lemma HornerDouble(half: bv16, v: bv32)
    ensures Add32(Shl32(Widen(half)), Bit0(v)) == Add32(IfLow32(High(half), POLY), Widen(HornerStep(half, v)))
  {
    DoubleHalf(half);
    WidenStep(half, v);
    Add32Assoc(IfLow32(High(half), POLY), Widen(MulX(half)), Bit0(v));
  }

  /// v = q * POLY + r, with r of degree below 16.
  ghost predicate Divides(v: bv32, q: bv32, r: bv16, n: nat) {
    v == Add32(Clmul(q, POLY, n), Widen(r))
  }

  lemma {:induction false} Divide(v: bv32, n: nat) returns (q: bv32)
    requires Below(v, UpTo(n)) && n <= 31
    ensures Below(q, Top(31 - n))
    ensures Divides(v, q, Rem(v, n), n)
    decreases n
  {
    if n == 0 {
      q := DivideSmall(v);
    } else {
      HalfBound(v, UpTo(n - 1));
      var q' := Divide(Shr32(v), n - 1);
      var r' := Rem(Shr32(v), n - 1);
      q := Append(q', High(r'));
      BelowTop(q', 32 - n);
      QuotientStep(v, q', r', n);
      AppendBelow(q', High(r'), Top(31 - n));
    }
  }

  lemma DivideSmall(v: bv32) returns (q: bv32)
    requires v < 0x1_0000
    ensures Below(q, Top(31)) && Divides(v, q, Rem(v, 0), 0)
  {
    q := 0;
    RemSmall(v, 0);
    WidenTruncate(v);
    ZeroLaws(v);
    TopValues();
  }

  lemma WidenTruncate(v: bv32)
    requires v < 0x1_0000
    ensures Widen(Truncate(v)) == v
  {
  }

  lemma TopValues()
    ensures Top(14) == 0x2_0000 && Top(15) == 0x1_0000 && Top(16) == 0x8000 && Top(31) == 1
  {
    assert Top(4) == 0x800_0000;
    assert Top(8) == 0x80_0000;
    assert Top(12) == 0x8_0000;
    assert Top(20) == 0x800;
    assert Top(24) == 0x80;
    assert Top(28) == 0x8;
  }

  lemma AppendBelow(q: bv32, bit: bv32, p: bv32)
    requires Below(q, Shr32(p))
    ensures Below(Append(q, bit), p)
  {
  }

  lemma QuotientStep(v: bv32, q': bv32, r': bv16, n: nat)
    requires n > 0 && q' < 0x8000_0000
    requires Divides(Shr32(v), q', r', n - 1)
    ensures Divides(v, Append(q', High(r')), HornerStep(r', v), n)
  {
    var q := Append(q', High(r'));
    var c := Clmul(q', POLY, n - 1);
    AppendShr(q', High(r'));
    AppendLow(q', High(r'));
    IfLow32Cases(q, POLY);
    IfLow32Cases(High(r'), POLY);
    ClmulShl(q', POLY, n - 1);
    HalfAndBit(v);
    Shl32Add(c, Widen(r'));
    HornerDouble(r', v);
    var m, w := IfLow32(High(r'), POLY), Widen(HornerStep(r', v));
    Add32Assoc(Shl32(c), Shl32(Widen(r')), Bit0(v));
    assert v == Add32(Shl32(c), Add32(m, w));
    Add32Assoc(Shl32(c), m, w);
    Add32Comm(Shl32(c), m);
    assert Clmul(q, POLY, n) == Add32(m, Shl32(c));
  }

  lemma Add32Comm(a: bv32, b: bv32)
    ensures Add32(a, b) == Add32(b, a)
  {
  }

  // ---------------------------------------------------------------- the product, by division

  lemma XorBelow(a: bv32, b: bv32)
    requires a < 0x8000_0000 && b < 0x8000_0000
    ensures Add32(a, b) < 0x8000_0000
  {
  }

  lemma {:induction false} ClmulBelow(a: bv32, b: bv32, n: nat)
    requires n >= 1 ==> Below(b, Top(n - 1))
    ensures Clmul(a, b, n) < 0x8000_0000
    decreases n
  {
    if n > 0 {
      BelowTop(b, n - 1);
      IfLow32Cases(a, b);
      if n >= 2 {
        DoubleBound(b, Top(n - 2));
      }
      ClmulBelow(Shr32(a), Shl32(b), n - 1);
      XorBelow(IfLow32(a, b), Clmul(Shr32(a), Shl32(b), n - 1));
    }
  }

  lemma ProductBelow(a: bv16, b: bv16)
    ensures Product(a, b) < 0x8000_0000
  {
    TopValues();
    assert Below(b as bv32, 0x1_0000);
    ClmulBelow(a as bv32, b as bv32, 16);
  }

  lemma DivideProduct(v: bv32) returns (q: bv32)
    requires v < 0x8000_0000
    ensures Below(q, 0x8000)
    ensures Divides(v, q, Rem(v, 16), 15)
  {
    ChainValues();
    assert Below(v, 0x8000_0000);
    q := Divide(v, 15);
    TopValues();
    RemStable(v, 15);
  }

  /// Mul(a, b) is a remainder of the carry-less product on division by POLY ...
  lemma MulByDivision(a: bv16, b: bv16) returns (q: bv32)
    ensures q < 0x8000
    ensures Product(a, b) == Add32(Clmul(q, POLY, 15), Widen(Mul(a, b)))
  {
    ProductBelow(a, b);
    q := DivideProduct(Product(a, b));
    PolyReduceIsRem(Product(a, b));
  }

  /// ... and the only one: whatever the quotient, a remainder of degree below 16 is Mul(a, b).
  lemma RemainderUnique(a: bv16, b: bv16, q: bv16, r: bv16)
    requires Product(a, b) == Add32(Clmul(q as bv32, POLY, 15), Widen(r))
    ensures r == Mul(a, b)
  {
    PolyReduceIsRem(Product(a, b));
    RemAdd(Clmul(q as bv32, POLY, 15), Widen(r), 16);
    RemSmall(Widen(r), 16);
    assert Truncate(Widen(r)) == r;
    MultipleVanishes(q);
    AddZero(r);
  }

  lemma MultipleVanishes(q: bv16)
    ensures Rem(Clmul(q as bv32, POLY, 15), 16) == 0
  {
    TopValues();
    assert Below(POLY, 0x2_0000);
    ReduceProduct(q, POLY, 15);
    RemPoly(16);
    TimesZero(q, 15);
  }
}
