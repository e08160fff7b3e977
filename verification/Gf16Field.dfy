/// The product of Gf16 makes the 65536 bit-vectors a field, and `Inv` computes inverses.
///
/// The route: `Times` is bilinear, commutative and associative by induction over bits;
/// squaring is additive and multiplicative, and sixteen squarings fix x, so a^65536 = a for
/// every a; e = a^65535 then satisfies e * e = e, whose only solutions are 0 and 1.
module Gf16Field {
  import opened Gf16

  // ---------------------------------------------------------------- a commutative ring

  lemma {:induction false} TimesZero(a: bv16, n: nat)
    ensures TimesN(a, 0, n) == 0
    decreases n
  {
    if n > 0 {
      TimesZero(Shr(a), n - 1);
      IfLowIs(a, 0);
      MulXZero();
      AddZero(0);
    }
  }

  lemma MulXZero()
    ensures MulX(0) == 0
  {
  }

  lemma {:induction false} TimesAddRight(a: bv16, b: bv16, c: bv16, n: nat)
    ensures TimesN(a, Add(b, c), n) == Add(TimesN(a, b, n), TimesN(a, c, n))
    decreases n
  {
    if n == 0 {
      AddZero(0);
    } else {
      MulXAdd(b, c);
      TimesAddRight(Shr(a), MulX(b), MulX(c), n - 1);
      IfLowAddRight(a, b, c);
      AddShuffle(IfLow(a, b), IfLow(a, c), TimesN(Shr(a), MulX(b), n - 1), TimesN(Shr(a), MulX(c), n - 1));
    }
  }

  lemma {:induction false} TimesAddLeft(a: bv16, c: bv16, b: bv16, n: nat)
    ensures TimesN(Add(a, c), b, n) == Add(TimesN(a, b, n), TimesN(c, b, n))
    decreases n
  {
    if n == 0 {
      AddZero(0);
    } else {
      ShrAdd(a, c);
      TimesAddLeft(Shr(a), Shr(c), MulX(b), n - 1);
      IfLowAddLeft(a, c, b);
      AddShuffle(IfLow(a, b), IfLow(c, b), TimesN(Shr(a), MulX(b), n - 1), TimesN(Shr(c), MulX(b), n - 1));
    }
  }

  lemma IfLowMulX(a: bv16, b: bv16)
    ensures MulX(IfLow(a, b)) == IfLow(a, MulX(b))
  {
    IfLowIs(a, b);
    IfLowIs(a, MulX(b));
    MulXZero();
  }

  lemma {:induction false} TimesMulX(a: bv16, b: bv16, n: nat)
    ensures TimesN(a, MulX(b), n) == MulX(TimesN(a, b, n))
    decreases n
  {
    if n == 0 {
      MulXZero();
    } else {
      TimesMulX(Shr(a), MulX(b), n - 1);
      IfLowMulX(a, b);
      MulXAdd(IfLow(a, b), TimesN(Shr(a), MulX(b), n - 1));
    }
  }

  /// a has at most n bits.
  predicate Fits16(a: bv16, n: nat)
    decreases n, a
  {
    if n == 0 then a == 0 else Fits16(Shr(a), n - 1)
  }

  lemma {:induction false} NarrowFits(a: bv16, n: nat)
    requires Fits(a as bv32, n)
    ensures Fits16(a, n)
    decreases n
  {
    if n > 0 {
      NarrowShr(a);
      NarrowFits(Shr(a), n - 1);
    }
  }

  lemma AllFit(a: bv16)
    ensures Fits16(a, 16)
  {
    Pow2Values();
    assert Below(a as bv32, 0x1_0000);
    BelowFits(a as bv32, 16);
    NarrowFits(a, 16);
  }

  /// a = x * (a / x) + (constant coefficient of a).
  lemma Rebuild(a: bv16)
    ensures Add(MulX(Shr(a)), IfLow(a, 1)) == a
  {
  }

  /// 1 is a unit on the right ...
  lemma {:induction false} TimesOneN(a: bv16, n: nat)
    requires Fits16(a, n)
    ensures TimesN(a, 1, n) == a
    decreases n
  {
    if n > 0 {
      TimesOneN(Shr(a), n - 1);
      TimesMulX(Shr(a), 1, n - 1);
      Rebuild(a);
      AddComm(MulX(Shr(a)), IfLow(a, 1));
    }
  }

  lemma TimesOne(a: bv16)
    ensures Times(a, 1) == a
  {
    AllFit(a);
    TimesOneN(a, 16);
  }

  lemma TimesIfLow(b: bv16, a: bv16)
    ensures Times(b, IfLow(a, 1)) == IfLow(a, b)
  {
    IfLowIs(a, 1);
    IfLowIs(a, b);
    TimesOne(b);
    TimesZero(b, 16);
  }

  lemma {:induction false} TimesCommN(a: bv16, b: bv16, n: nat)
    requires Fits16(a, n)
    ensures TimesN(a, b, n) == Times(b, a)
    decreases n
  {
    if n == 0 {
      TimesZero(b, 16);
    } else {
      TimesCommN(Shr(a), b, n - 1);
      TimesMulX(Shr(a), b, n - 1);
      TimesMulX(b, Shr(a), 16);
      Rebuild(a);
      TimesAddRight(b, MulX(Shr(a)), IfLow(a, 1), 16);
      TimesIfLow(b, a);
      AddComm(IfLow(a, b), Times(b, MulX(Shr(a))));
    }
  }

  lemma TimesComm(a: bv16, b: bv16)
    ensures Times(a, b) == Times(b, a)
  {
    AllFit(a);
    TimesCommN(a, b, 16);
  }

  lemma {:induction false} TimesAssocN(a: bv16, b: bv16, c: bv16, n: nat)
    ensures Times(TimesN(a, b, n), c) == TimesN(a, Times(b, c), n)
    decreases n
  {
    if n == 0 {
      TimesComm(0, c);
      TimesZero(c, 16);
    } else {
      TimesAssocN(Shr(a), MulX(b), c, n - 1);
      TimesComm(MulX(b), c);
      TimesComm(b, c);
      TimesMulX(c, b, 16);
      TimesAddLeft(IfLow(a, b), TimesN(Shr(a), MulX(b), n - 1), c, 16);
      IfLowIs(a, b);
      IfLowIs(a, Times(b, c));
      TimesComm(0, c);
      TimesZero(c, 16);
    }
  }

  lemma TimesAssoc(a: bv16, b: bv16, c: bv16)
    ensures Times(Times(a, b), c) == Times(a, Times(b, c))
  {
    TimesAssocN(a, b, c, 16);
  }

  // ---------------------------------------------------------------- squaring

  function Square(a: bv16): bv16 { Times(a, a) }

  /// The square of a times c, bit by bit: bit i of a contributes x^(2i) * c.
  function SpreadN(a: bv16, c: bv16, n: nat): bv16
    decreases n, a
  {
    if n == 0 then 0 else Add(IfLow(a, c), SpreadN(Shr(a), MulX(MulX(c)), n - 1))
  }

  lemma SquareAdd(a: bv16, b: bv16)
    ensures Square(Add(a, b)) == Add(Square(a), Square(b))
  {
    TimesAddLeft(a, b, Add(a, b), 16);
    TimesAddRight(a, a, b, 16);
    TimesAddRight(b, a, b, 16);
    TimesComm(a, b);
    AddShuffle(Square(a), Times(a, b), Times(a, b), Square(b));
    AddComm(Times(a, b), Square(b));
    AddShuffle(Square(a), Times(a, b), Square(b), Times(a, b));
    AddZero(Times(a, b));
    AddZero(Add(Square(a), Square(b)));
  }

  lemma SquareTimes(a: bv16, b: bv16)
    ensures Square(Times(a, b)) == Times(Square(a), Square(b))
  {
    TimesAssoc(a, b, Times(a, b));
    TimesAssoc(b, a, b);
    TimesComm(a, b);
    TimesAssoc(a, b, b);
    TimesAssoc(a, a, Square(b));
  }

  lemma {:induction false} SquareSpreads(a: bv16, c: bv16, n: nat)
    requires Fits16(a, n)
    ensures SpreadN(a, c, n) == Times(Square(a), c)
    decreases n
  {
    if n == 0 {
      TimesComm(0, c);
      TimesZero(c, 16);
      TimesZero(0, 16);
    } else {
      SquareSpreads(Shr(a), MulX(MulX(c)), n - 1);
      SpreadHead(a, c);
    }
  }

  /// a^2 * c = (a / x)^2 * x^2 c + (constant coefficient of a) * c.
  lemma SpreadHead(a: bv16, c: bv16)
    ensures Times(Square(a), c) == Add(IfLow(a, c), Times(Square(Shr(a)), MulX(MulX(c))))
  {
    var s := Shr(a);
    Rebuild(a);
    SquareAdd(MulX(s), IfLow(a, 1));
    assert Square(a) == Add(Square(MulX(s)), Square(IfLow(a, 1)));
    SquareMulX(s);
    IfLowIs(a, 1);
    IfLowIs(a, c);
    TimesOne(1);
    TimesZero(0, 16);
    assert Square(IfLow(a, 1)) == IfLow(a, 1);
    TimesAddLeft(MulX(MulX(Square(s))), IfLow(a, 1), c, 16);
    TimesComm(IfLow(a, 1), c);
    TimesIfLow(c, a);
    TimesComm(MulX(MulX(Square(s))), c);
    TimesMulX(c, MulX(Square(s)), 16);
    TimesMulX(c, Square(s), 16);
    TimesComm(c, Square(s));
    TimesMulX(Square(s), MulX(c), 16);
    TimesMulX(Square(s), c, 16);
    AddComm(Times(Square(s), MulX(MulX(c))), IfLow(a, c));
  }

  lemma SquareMulX(s: bv16)
    ensures Square(MulX(s)) == MulX(MulX(Square(s)))
  {
    TimesMulX(MulX(s), s, 16);
    TimesComm(MulX(s), s);
    TimesMulX(s, s, 16);
  }

  /// Four bits of a square.
  function Quad(v: bv16, c0: bv16, c1: bv16, c2: bv16, c3: bv16): bv16 {
    Add(IfLow(v, c0), Add(IfLow(Shr(v), c1), Add(IfLow(Shr(Shr(v)), c2), IfLow(Shr(Shr(Shr(v))), c3))))
  }

  function Shr4(a: bv16): bv16 { Shr(Shr(Shr(Shr(a)))) }

  /// The square in closed form; the constants are x^0, x^2, ..., x^30 modulo POLY.
  function Spread(a: bv16): bv16 {
    Add(Quad(a, 0x0001, 0x0004, 0x0010, 0x0040),
        Add(Quad(Shr4(a), 0x0100, 0x0400, 0x1000, 0x4000),
            Add(Quad(Shr4(Shr4(a)), 0x100b, 0x402c, 0x10bb, 0x42ec),
                Quad(Shr4(Shr4(Shr4(a))), 0x1bbb, 0x6eec, 0xabbb, 0x8efa))))
  }

  predicate Chain(c0: bv16, c1: bv16, c2: bv16, c3: bv16) {
    c1 == MulX(MulX(c0)) && c2 == MulX(MulX(c1)) && c3 == MulX(MulX(c2))
  }

  lemma QuadStep(a: bv16, c0: bv16, c1: bv16, c2: bv16, c3: bv16, n: nat)
    requires Chain(c0, c1, c2, c3)
    ensures SpreadN(a, c0, n + 4) == Add(Quad(a, c0, c1, c2, c3), SpreadN(Shr4(a), MulX(MulX(c3)), n))
  {
    hide Add, Shr, IfLow, MulX;
    var a1 := Shr(a);
    var a2 := Shr(a1);
    var a3 := Shr(a2);
    var r := SpreadN(Shr(a3), MulX(MulX(c3)), n);
    assert SpreadN(a3, c3, n + 1) == Add(IfLow(a3, c3), r);
    assert SpreadN(a2, c2, n + 2) == Add(IfLow(a2, c2), SpreadN(a3, c3, n + 1));
    assert SpreadN(a1, c1, n + 3) == Add(IfLow(a1, c1), SpreadN(a2, c2, n + 2));
    AddAssoc(IfLow(a2, c2), IfLow(a3, c3), r);
    AddAssoc(IfLow(a1, c1), Add(IfLow(a2, c2), IfLow(a3, c3)), r);
    AddAssoc(IfLow(a, c0), Add(IfLow(a1, c1), Add(IfLow(a2, c2), IfLow(a3, c3))), r);
  }

  lemma Constants()
    ensures Chain(0x0001, 0x0004, 0x0010, 0x0040) && MulX(MulX(0x0040)) == 0x0100
    ensures Chain(0x0100, 0x0400, 0x1000, 0x4000) && MulX(MulX(0x4000)) == 0x100b
    ensures Chain(0x100b, 0x402c, 0x10bb, 0x42ec) && MulX(MulX(0x42ec)) == 0x1bbb
    ensures Chain(0x1bbb, 0x6eec, 0xabbb, 0x8efa)
  {
  }

  lemma SquareIsSpread(a: bv16)
    ensures Square(a) == Spread(a)
  {
    AllFit(a);
    SquareSpreads(a, 1, 16);
    TimesOne(Square(a));
    Constants();
    QuadStep(a, 0x0001, 0x0004, 0x0010, 0x0040, 12);
    QuadStep(Shr4(a), 0x0100, 0x0400, 0x1000, 0x4000, 8);
    QuadStep(Shr4(Shr4(a)), 0x100b, 0x402c, 0x10bb, 0x42ec, 4);
    QuadStep(Shr4(Shr4(Shr4(a))), 0x1bbb, 0x6eec, 0xabbb, 0x8efa, 0);
    AddZero(Quad(Shr4(Shr4(Shr4(a))), 0x1bbb, 0x6eec, 0xabbb, 0x8efa));
  }

  lemma SpreadKernel(a: bv16)
    requires Spread(a) == a
    ensures a == 0 || a == 1
  {
  }

  // ---------------------------------------------------------------- a^65536 = a

  /// Squaring k times.
  function Frob(a: bv16, k: nat): bv16
    decreases k, a
  {
    if k == 0 then a else Frob(Square(a), k - 1)
  }

  lemma {:induction false} FrobAdd(a: bv16, b: bv16, k: nat)
    ensures Frob(Add(a, b), k) == Add(Frob(a, k), Frob(b, k))
    decreases k
  {
    if k > 0 {
      SquareAdd(a, b);
      FrobAdd(Square(a), Square(b), k - 1);
    }
  }

  lemma {:induction false} FrobTimes(a: bv16, b: bv16, k: nat)
    ensures Frob(Times(a, b), k) == Times(Frob(a, k), Frob(b, k))
    decreases k
  {
    if k > 0 {
      SquareTimes(a, b);
      FrobTimes(Square(a), Square(b), k - 1);
    }
  }

  lemma {:induction false} FrobFixed(a: bv16, k: nat)
    requires Square(a) == a
    ensures Frob(a, k) == a
    decreases k
  {
    if k > 0 {
      FrobFixed(a, k - 1);
    }
  }

  predicate SpreadsTo(a: bv16, b: bv16) { Spread(a) == b }

  lemma SquareOf(a: bv16, b: bv16)
    requires SpreadsTo(a, b)
    ensures Square(a) == b
  {
    SquareIsSpread(a);
  }

  lemma FourSquares(a: bv16, b: bv16, c: bv16, d: bv16, e: bv16, k: nat)
    requires Square(a) == b && Square(b) == c && Square(c) == d && Square(d) == e
    ensures Frob(a, k + 4) == Frob(e, k)
  {
    assert Frob(a, k + 4) == Frob(b, k + 3);
    assert Frob(b, k + 3) == Frob(c, k + 2);
    assert Frob(c, k + 2) == Frob(d, k + 1);
  }

  lemma FourSpreads(a: bv16, b: bv16, c: bv16, d: bv16, e: bv16, k: nat)
    requires SpreadsTo(a, b) && SpreadsTo(b, c) && SpreadsTo(c, d) && SpreadsTo(d, e)
    ensures Frob(a, k + 4) == Frob(e, k)
  {
    SquareOf(a, b);
    SquareOf(b, c);
    SquareOf(c, d);
    SquareOf(d, e);
    FourSquares(a, b, c, d, e, k);
  }

  // x, x^2, x^4, ..., x^(2^16), four squarings at a time

  lemma Squares0(a: bv16, b: bv16, c: bv16, d: bv16, e: bv16, k: nat)
    requires a == 0x0002 && b == 0x0004 && c == 0x0010 && d == 0x0100 && e == 0x100b
    ensures Frob(a, k + 4) == Frob(e, k)
  {
    FourSpreads(a, b, c, d, e, k);
  }

  lemma Squares1(a: bv16, b: bv16, c: bv16, d: bv16, e: bv16, k: nat)
    requires a == 0x100b && b == 0x1bfe && c == 0x5c24 && d == 0xe647 && e == 0x0b2f
    ensures Frob(a, k + 4) == Frob(e, k)
  {
    FourSpreads(a, b, c, d, e, k);
  }

  lemma Squares2(a: bv16, b: bv16, c: bv16, d: bv16, e: bv16, k: nat)
    requires a == 0x0b2f && b == 0x169e && c == 0x0a78 && d == 0x1780 && e == 0x1b27
    ensures Frob(a, k + 4) == Frob(e, k)
  {
    FourSpreads(a, b, c, d, e, k);
  }

  lemma Squares3(a: bv16, b: bv16, c: bv16, d: bv16, e: bv16, k: nat)
    requires a == 0x1b27 && b == 0x0d65 && c == 0x564d && d == 0xf0c6 && e == 0x0002
    ensures Frob(a, k + 4) == Frob(e, k)
  {
    FourSpreads(a, b, c, d, e, k);
  }

  /// Sixteen squarings fix x.
  lemma FrobX(x: bv16, k: nat)
    requires x == 2
    ensures Frob(x, k + 16) == Frob(x, k)
  {
    var y, z, w: bv16 := 0x100b, 0x0b2f, 0x1b27;
    Squares0(x, 0x0004, 0x0010, 0x0100, y, k + 12);
    Squares1(y, 0x1bfe, 0x5c24, 0xe647, z, k + 8);
    Squares2(z, 0x169e, 0x0a78, 0x1780, w, k + 4);
    Squares3(w, 0x0d65, 0x564d, 0xf0c6, x, k);
  }

  lemma TimesX(x: bv16, b: bv16)
    requires x == 2
    ensures Times(x, b) == MulX(b)
  {
    TimesComm(x, b);
    assert MulX(1) == x;
    TimesMulX(b, 1, 16);
    TimesOne(b);
  }

  lemma FrobBit(a: bv16, k: nat)
    requires a == 0 || a == 1
    ensures Frob(a, k) == a
  {
    if a == 0 {
      TimesZero(a, 16);
    } else {
      TimesOne(a);
    }
    FrobFixed(a, k);
  }

  lemma PeriodOfBit(a: bv16, k: nat)
    ensures Frob(IfLow(a, 1), k + 16) == Frob(IfLow(a, 1), k)
  {
    IfLowIs(a, 1);
    FrobBit(IfLow(a, 1), k + 16);
    FrobBit(IfLow(a, 1), k);
  }

  lemma RebuildTimes(a: bv16, x: bv16)
    requires x == 2
    ensures Add(Times(x, Shr(a)), IfLow(a, 1)) == a
  {
    TimesX(x, Shr(a));
    Rebuild(a);
  }

  lemma PeriodOfSum(a: bv16, x: bv16, s: bv16, bit: bv16, k: nat, m: nat)
    requires Add(Times(x, s), bit) == a
    requires Frob(x, m) == Frob(x, k) && Frob(s, m) == Frob(s, k) && Frob(bit, m) == Frob(bit, k)
    ensures Frob(a, m) == Frob(a, k)
  {
    FrobAdd(Times(x, s), bit, k);
    FrobTimes(x, s, k);
    FrobAdd(Times(x, s), bit, m);
    FrobTimes(x, s, m);
  }

  /// Sixteen squarings fix everything: they are additive, multiplicative and fix x.
  lemma {:induction false} FrobPeriod(a: bv16, n: nat, x: bv16, k: nat)
    requires x == 2
    requires Fits16(a, n)
    ensures Frob(a, k + 16) == Frob(a, k)
    decreases n
  {
    hide Frob, Add, Shr, IfLow;
    if n == 0 {
      FrobBit(a, k + 16);
      FrobBit(a, k);
    } else {
      FrobPeriod(Shr(a), n - 1, x, k);
      PeriodOfBit(a, k);
      RebuildTimes(a, x);
      FrobX(x, k);
      PeriodOfSum(a, x, Shr(a), IfLow(a, 1), k, k + 16);
    }
  }

  // ---------------------------------------------------------------- powers

  function Pow(a: bv16, n: nat): bv16
    decreases n, a
  {
    if n == 0 then 1 else Times(a, Pow(a, n - 1))
  }

  lemma {:induction false} PowAdd(a: bv16, m: nat, n: nat)
    ensures Pow(a, m + n) == Times(Pow(a, m), Pow(a, n))
    decreases m
  {
    hide Times;
    if m == 0 {
      TimesComm(1, Pow(a, n));
      TimesOne(Pow(a, n));
    } else {
      PowAdd(a, m - 1, n);
      TimesAssoc(a, Pow(a, m - 1), Pow(a, n));
    }
  }

  lemma {:induction false} PowSquare(a: bv16, n: nat)
    ensures Pow(Square(a), n) == Pow(a, 2 * n)
    decreases n
  {
    if n > 0 {
      PowSquare(a, n - 1);
      PowAdd(a, 2, 2 * (n - 1));
      PowTwo(a);
    }
  }

  lemma PowTwo(a: bv16)
    ensures Pow(a, 2) == Square(a) && Pow(a, 1) == a
  {
    assert Pow(a, 0) == 1;
    TimesOne(a);
    assert Pow(a, 1) == Times(a, Pow(a, 0));
    assert Pow(a, 2) == Times(a, Pow(a, 1));
  }

  function TwoTo(k: nat): nat {
    if k == 0 then 1 else 2 * TwoTo(k - 1)
  }

  lemma {:induction false} PowFrob(a: bv16, k: nat)
    ensures Pow(a, TwoTo(k)) == Frob(a, k)
    decreases k
  {
    if k == 0 {
      PowTwo(a);
    } else {
      PowFrob(Square(a), k - 1);
      PowSquare(a, TwoTo(k - 1));
    }
  }

  /// Fermat: a^65536 = a for every element.
  lemma Fermat(a: bv16)
    ensures Pow(a, 65536) == a
  {
    AllFit(a);
    FrobPeriod(a, 16, 2, 0);
    PowFrob(a, 16);
    assert TwoTo(8) == 256;
    assert TwoTo(16) == 65536;
  }

  /// The multiplicative group has exponent 65535.
  lemma UnitPower(a: bv16)
    requires a != 0
    ensures Pow(a, 65535) == 1
  {
    var e := Pow(a, 65535);
    Fermat(a);
    assert Times(a, e) == a;
    PowAdd(a, 65535, 65535);
    PowAdd(a, 65536, 65534);
    assert Square(e) == Times(a, Pow(a, 65534)) == e;
    SquareIsSpread(e);
    SpreadKernel(e);
    TimesZero(a, 16);
  }

  // ---------------------------------------------------------------- the inverse

  function Inverse(a: bv16): bv16 {
    if a == 0 then 0 else Pow(a, 65534)
  }

  /// Square-and-multiply, as the source runs it.
  method Inv(a: bv16) returns (result: bv16)
    ensures result == Inverse(a)
  {
    hide Times;
    if a == 0 {
      return 0;
    }
    result := 1;
    var base := a;
    var exp: nat := 0xFFFE;
    TimesComm(1, Pow(a, 65534));
    TimesOne(Pow(a, 65534));
    while exp > 0
      invariant Times(result, Pow(base, exp)) == Pow(a, 65534)
    {
      SquareAndMultiply(result, base, exp);
      MulIsTimes(result, base);
      MulIsTimes(base, base);
      if exp % 2 != 0 {
        result := Mul(result, base);
      }
      base := Mul(base, base);
      exp := exp / 2;
    }
    TimesOne(result);
  }

  /// One round keeps result * base^exp.
  lemma SquareAndMultiply(result: bv16, base: bv16, exp: nat)
    requires exp > 0
    ensures exp % 2 == 0 ==> Times(result, Pow(Square(base), exp / 2)) == Times(result, Pow(base, exp))
    ensures exp % 2 != 0 ==>
      Times(Times(result, base), Pow(Square(base), exp / 2)) == Times(result, Pow(base, exp))
  {
    PowSquare(base, exp / 2);
    if exp % 2 == 0 {
      assert 2 * (exp / 2) == exp;
    } else {
      assert 2 * (exp / 2) == exp - 1;
      TimesAssoc(result, base, Pow(base, exp - 1));
    }
  }

  // ---------------------------------------------------------------- the field, for the source's operations

  /// Add and Mul make a commutative ring with unit 1.
  lemma Ring(a: bv16, b: bv16, c: bv16)
    ensures Add(Add(a, b), c) == Add(a, Add(b, c)) && Add(a, b) == Add(b, a)
    ensures Add(a, 0) == a && Add(a, a) == 0
    ensures Mul(Mul(a, b), c) == Mul(a, Mul(b, c)) && Mul(a, b) == Mul(b, a)
    ensures Mul(a, 1) == a && Mul(a, 0) == 0
    ensures Mul(a, Add(b, c)) == Add(Mul(a, b), Mul(a, c))
  {
    AddAssoc(a, b, c);
    AddComm(a, b);
    AddZero(a);
    MulIsTimes(a, b);
    MulIsTimes(b, c);
    MulIsTimes(b, a);
    MulIsTimes(a, c);
    MulIsTimes(a, 1);
    MulIsTimes(a, 0);
    MulIsTimes(Mul(a, b), c);
    MulIsTimes(a, Mul(b, c));
    MulIsTimes(a, Add(b, c));
    TimesAssoc(a, b, c);
    TimesComm(a, b);
    TimesOne(a);
    TimesZero(a, 16);
    TimesAddRight(a, b, c, 16);
  }

  /// Every nonzero element has the inverse that the source computes.
  lemma InverseWorks(a: bv16)
    requires a != 0
    ensures Mul(a, Inverse(a)) == 1
  {
    MulIsTimes(a, Inverse(a));
    UnitPower(a);
  }

  /// There are no zero divisors.
  lemma NoZeroDivisors(a: bv16, b: bv16)
    ensures Mul(a, b) == 0 <==> a == 0 || b == 0
  {
    Ring(a, b, 0);
    Ring(b, a, 0);
    if Mul(a, b) == 0 && a != 0 {
      var i := Inverse(a);
      InverseWorks(a);
      Ring(i, a, b);
      Ring(i, a, 0);
      Ring(b, 1, 0);
    }
  }
}
