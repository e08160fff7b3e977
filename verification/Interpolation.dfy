/// Lagrange interpolation over GF(2^16) (src/spqr/poly_codec.zig) is exact: through n points
/// with distinct x-coordinates it evaluates the one polynomial of degree below n, everywhere.
module Interpolation {
  import opened Gf16
  import opened Gf16Field

  /// A polynomial is its list of coefficients, lowest degree first.
  type Poly = seq<bv16>

  function Eval(p: Poly, x: bv16): bv16 {
    if p == [] then 0 else Add(p[0], Mul(x, Eval(p[1..], x)))
  }

  // ---------------------------------------------------------------- ring steps

  // Each lemma below instantiates the ring laws and hides the definitions of the operations.

  lemma Zero(a: bv16)
    ensures Add(a, 0) == a && Add(0, a) == a && Add(a, a) == 0
    ensures Mul(a, 0) == 0 && Mul(0, a) == 0 && Mul(a, 1) == a && Mul(1, a) == a
  {
    hide *;
    Ring(a, 0, 0);
    Ring(0, a, 0);
    Ring(a, 1, 0);
  }

  lemma Shuffle(a: bv16, b: bv16, c: bv16, d: bv16)
    ensures Add(Add(a, b), Add(c, d)) == Add(Add(a, c), Add(b, d))
  {
    AddShuffle(a, b, c, d);
  }

  lemma Distribute(a: bv16, b: bv16, c: bv16)
    ensures Mul(a, Add(b, c)) == Add(Mul(a, b), Mul(a, c))
    ensures Mul(Add(b, c), a) == Add(Mul(b, a), Mul(c, a))
  {
    hide *;
    Ring(a, b, c);
    Ring(Add(b, c), a, 0);
    Ring(b, a, 0);
    Ring(c, a, 0);
  }

  lemma Swap(a: bv16, b: bv16, c: bv16)
    ensures Mul(a, Mul(b, c)) == Mul(b, Mul(a, c))
  {
    hide *;
    Ring(a, b, c);
    Ring(b, a, c);
  }

  // ---------------------------------------------------------------- operations on polynomials

  function Sum(p: Poly, q: Poly): Poly {
    if p == [] then q else if q == [] then p else [Add(p[0], q[0])] + Sum(p[1..], q[1..])
  }

  function Scale(c: bv16, p: Poly): Poly {
    if p == [] then [] else [Mul(c, p[0])] + Scale(c, p[1..])
  }

  lemma {:induction false} EvalSum(p: Poly, q: Poly, x: bv16)
    ensures Eval(Sum(p, q), x) == Add(Eval(p, x), Eval(q, x))
    ensures |Sum(p, q)| == if |p| < |q| then |q| else |p|
  {
    hide Add, Mul;
    if p == [] {
      Zero(Eval(q, x));
    } else if q == [] {
      Zero(Eval(p, x));
    } else {
      EvalSum(p[1..], q[1..], x);
      assert Sum(p, q)[1..] == Sum(p[1..], q[1..]);
      Distribute(x, Eval(p[1..], x), Eval(q[1..], x));
      Shuffle(p[0], Mul(x, Eval(p[1..], x)), q[0], Mul(x, Eval(q[1..], x)));
    }
  }

  lemma {:induction false} EvalScale(c: bv16, p: Poly, x: bv16)
    ensures Eval(Scale(c, p), x) == Mul(c, Eval(p, x))
    ensures |Scale(c, p)| == |p|
  {
    hide Add, Mul;
    if p == [] {
      Zero(c);
    } else {
      EvalScale(c, p[1..], x);
      assert Scale(c, p)[1..] == Scale(c, p[1..]);
      Swap(x, c, Eval(p[1..], x));
      Distribute(c, p[0], Mul(x, Eval(p[1..], x)));
    }
  }

  /// (X + c) * p.
  function TimesLinear(p: Poly, c: bv16): Poly {
    Sum([0] + p, Scale(c, p))
  }

  lemma EvalTimesLinear(p: Poly, c: bv16, x: bv16)
    ensures Eval(TimesLinear(p, c), x) == Mul(Add(x, c), Eval(p, x))
    ensures |TimesLinear(p, c)| == |p| + 1
  {
    hide Add, Mul;
    EvalSum([0] + p, Scale(c, p), x);
    EvalScale(c, p, x);
    assert ([0] + p)[1..] == p;
    Zero(Mul(x, Eval(p, x)));
    Distribute(Eval(p, x), x, c);
  }

  // ---------------------------------------------------------------- roots

  /// Division by X + r: the quotient.
  function Quotient(p: Poly, r: bv16): Poly {
    if |p| <= 1 then [] else [Eval(p[1..], r)] + Quotient(p[1..], r)
  }

  /// p(x) = p(r) + (x + r) * q(x).
  lemma {:induction false} Division(p: Poly, r: bv16, x: bv16)
    ensures Eval(p, x) == Add(Eval(p, r), Mul(Add(x, r), Eval(Quotient(p, r), x)))
    ensures |Quotient(p, r)| == if p == [] then 0 else |p| - 1
  {
    hide Add, Mul;
    if |p| <= 1 {
      Zero(Add(x, r));
      Zero(Eval(p, r));
      if |p| == 1 {
        assert p[1..] == [];
        Zero(x);
        Zero(r);
      }
    } else {
      var t := p[1..];
      Division(t, r, x);
      assert Quotient(p, r)[1..] == Quotient(t, r);
      DivisionStep(p[0], x, r, Eval(t, x), Eval(t, r), Eval(Quotient(t, r), x));
    }
  }

  /// With t(x) = t(r) + (x + r) q:  p0 + x t(x) = (p0 + r t(r)) + (x + r)(t(r) + x q).
  lemma DivisionStep(p0: bv16, x: bv16, r: bv16, tx: bv16, tr: bv16, q: bv16)
    requires tx == Add(tr, Mul(Add(x, r), q))
    ensures Add(p0, Mul(x, tx)) == Add(Add(p0, Mul(r, tr)), Mul(Add(x, r), Add(tr, Mul(x, q))))
  {
    hide *;
    var d := Add(x, r);
    Distribute(x, tr, Mul(d, q));
    Distribute(d, tr, Mul(x, q));
    Swap(x, d, q);
    Distribute(tr, x, r);
    var a, b, e := Mul(x, tr), Mul(r, tr), Mul(d, Mul(x, q));
    AddAssoc(b, Add(a, b), e);
    AddComm(a, b);
    AddAssoc(b, b, a);
    Zero(b);
    Zero(a);
    AddAssoc(p0, b, Add(Add(a, b), e));
  }

  predicate Distinct(xs: seq<bv16>) {
    forall i, j :: 0 <= i < j < |xs| ==> xs[i] != xs[j]
  }

  /// A polynomial with fewer coefficients than distinct roots -- or as many -- vanishes everywhere.
  lemma {:induction false} TooManyRoots(p: Poly, roots: seq<bv16>, x: bv16)
    requires Distinct(roots) && |p| <= |roots|
    requires forall i :: 0 <= i < |roots| ==> Eval(p, roots[i]) == 0
    ensures Eval(p, x) == 0
    decreases |roots|
  {
    hide Add, Mul, Quotient;
    if p != [] {
      var r := roots[0];
      var q := Quotient(p, r);
      var rest := roots[1..];
      Division(p, r, x);
      forall i | 0 <= i < |rest| ensures Eval(q, rest[i]) == 0 {
        var s := rest[i];
        assert s == roots[i + 1] && s != r;
        Division(p, r, s);
        RootOfQuotient(s, r, Eval(q, s));
      }
      TooManyRoots(q, rest, x);
      Zero(Add(x, r));
      Zero(0);
    }
  }

  lemma RootOfQuotient(s: bv16, r: bv16, q: bv16)
    requires s != r
    requires Add(0, Mul(Add(s, r), q)) == 0
    ensures q == 0
  {
    hide *;
    Zero(Mul(Add(s, r), q));
    NoZeroDivisors(Add(s, r), q);
    SumZero(s, r);
  }

  lemma SumZero(s: bv16, r: bv16)
    ensures Add(s, r) == 0 <==> s == r
  {
    hide *;
    AddAssoc(s, r, r);
    Zero(s);
    Zero(r);
  }

  /// Two polynomials with at most n coefficients that agree at n points agree everywhere.
  lemma Unique(p: Poly, q: Poly, xs: seq<bv16>, x: bv16)
    requires Distinct(xs) && |p| <= |xs| && |q| <= |xs|
    requires forall i :: 0 <= i < |xs| ==> Eval(p, xs[i]) == Eval(q, xs[i])
    ensures Eval(p, x) == Eval(q, x)
  {
    hide *;
    EvalSum(p, q, x);
    forall i | 0 <= i < |xs| ensures Eval(Sum(p, q), xs[i]) == 0 {
      EvalSum(p, q, xs[i]);
      SumZero(Eval(p, xs[i]), Eval(q, xs[i]));
    }
    TooManyRoots(Sum(p, q), xs, x);
    SumZero(Eval(p, x), Eval(q, x));
  }

  // ---------------------------------------------------------------- the source's interpolation

  /// start * product of (x + xs[k]) over k < j, k != i.
  function Product(start: bv16, x: bv16, xs: seq<bv16>, i: nat, j: nat): bv16
    requires j <= |xs|
  {
    if j == 0 then start
    else if j - 1 == i then Product(start, x, xs, i, j - 1)
    else Mul(Product(start, x, xs, i, j - 1), Add(x, xs[j - 1]))
  }

  /// The i-th summand at x.
  function Term(x: bv16, xs: seq<bv16>, ys: seq<bv16>, i: nat): bv16
    requires i < |xs| == |ys|
  {
    Mul(Product(ys[i], x, xs, i, |xs|), Inverse(Product(1, xs[i], xs, i, |xs|)))
  }

  function Interpolate(x: bv16, xs: seq<bv16>, ys: seq<bv16>, n: nat): bv16
    requires n <= |xs| == |ys|
  {
    if n == 0 then 0 else Add(Interpolate(x, xs, ys, n - 1), Term(x, xs, ys, n - 1))
  }

  /// `lagrange`: the value at x of the interpolation through (xs[i], ys[i]).
  method Lagrange(x: bv16, xs: seq<bv16>, ys: seq<bv16>) returns (result: bv16)
    requires |xs| == |ys|
    ensures result == Interpolate(x, xs, ys, |xs|)
  {
    hide Add, Mul, Inverse;
    result := 0;
    var n := |xs|;
    for i := 0 to n
      invariant result == Interpolate(x, xs, ys, i)
    {
      var num := ys[i];
      var den: bv16 := 1;
      for j := 0 to n
        invariant num == Product(ys[i], x, xs, i, j)
        invariant den == Product(1, xs[i], xs, i, j)
      {
        if j != i {
          num := Mul(num, Add(x, xs[j]));
          den := Mul(den, Add(xs[i], xs[j]));
        }
      }
      var inverse := Inv(den);
      result := Add(result, Mul(num, inverse));
    }
  }

  lemma {:induction false} ProductScales(start: bv16, x: bv16, xs: seq<bv16>, i: nat, j: nat)
    requires j <= |xs|
    ensures Product(start, x, xs, i, j) == Mul(start, Product(1, x, xs, i, j))
  {
    hide Add, Mul;
    if j == 0 {
      Zero(start);
    } else {
      ProductScales(start, x, xs, i, j - 1);
      if j - 1 != i {
        hide *;
        Ring(start, Product(1, x, xs, i, j - 1), Add(x, xs[j - 1]));
      }
    }
  }

  /// The product vanishes exactly at the points it runs over.
  lemma {:induction false} ProductVanishes(x: bv16, xs: seq<bv16>, i: nat, j: nat)
    requires j <= |xs|
    ensures Product(1, x, xs, i, j) == 0 <==> exists k :: 0 <= k < j && k != i && xs[k] == x
  {
    hide Add, Mul;
    if j > 0 {
      ProductVanishes(x, xs, i, j - 1);
      if j - 1 != i {
        NoZeroDivisors(Product(1, x, xs, i, j - 1), Add(x, xs[j - 1]));
        SumZero(x, xs[j - 1]);
      }
    }
  }

  /// As a function of x, the product of n linear factors is a polynomial.
  function ProductPoly(xs: seq<bv16>, i: nat, j: nat): Poly
    requires j <= |xs|
  {
    if j == 0 then [1]
    else if j - 1 == i then ProductPoly(xs, i, j - 1)
    else TimesLinear(ProductPoly(xs, i, j - 1), xs[j - 1])
  }

  lemma {:induction false} EvalProduct(x: bv16, xs: seq<bv16>, i: nat, j: nat)
    requires j <= |xs|
    ensures Eval(ProductPoly(xs, i, j), x) == Product(1, x, xs, i, j)
    ensures |ProductPoly(xs, i, j)| == if i < j then j else j + 1
  {
    hide Add, Mul, TimesLinear;
    if j == 0 {
      var one: Poly := [1];
      assert one[1..] == [];
      Zero(x);
      Zero(1);
    } else {
      EvalProduct(x, xs, i, j - 1);
      if j - 1 != i {
        EvalTimesLinear(ProductPoly(xs, i, j - 1), xs[j - 1], x);
        MulCommutes(Add(x, xs[j - 1]), Product(1, x, xs, i, j - 1));
      }
    }
  }

  lemma MulCommutes(a: bv16, b: bv16)
    ensures Mul(a, b) == Mul(b, a)
  {
    hide *;
    Ring(a, b, 0);
  }

  /// The interpolation polynomial of the first n points, with at most |xs| coefficients.
  function InterpolationPoly(xs: seq<bv16>, ys: seq<bv16>, n: nat): Poly
    requires n <= |xs| == |ys|
  {
    if n == 0 then []
    else Sum(InterpolationPoly(xs, ys, n - 1),
             Scale(Mul(ys[n - 1], Inverse(Product(1, xs[n - 1], xs, n - 1, |xs|))), ProductPoly(xs, n - 1, |xs|)))
  }

  lemma {:induction false} EvalInterpolation(x: bv16, xs: seq<bv16>, ys: seq<bv16>, n: nat)
    requires n <= |xs| == |ys|
    ensures Eval(InterpolationPoly(xs, ys, n), x) == Interpolate(x, xs, ys, n)
    ensures |InterpolationPoly(xs, ys, n)| <= |xs|
  {
    hide Add, Mul, Inverse, Sum, Scale, ProductPoly;
    if n > 0 {
      var i := n - 1;
      var d := Inverse(Product(1, xs[i], xs, i, |xs|));
      var c := Mul(ys[i], d);
      EvalInterpolation(x, xs, ys, i);
      EvalProduct(x, xs, i, |xs|);
      EvalScale(c, ProductPoly(xs, i, |xs|), x);
      EvalSum(InterpolationPoly(xs, ys, i), Scale(c, ProductPoly(xs, i, |xs|)), x);
      ProductScales(ys[i], x, xs, i, |xs|);
      TermOrder(ys[i], Product(1, x, xs, i, |xs|), d);
    }
  }

  lemma TermOrder(y: bv16, p: bv16, d: bv16)
    ensures Mul(Mul(y, p), d) == Mul(Mul(y, d), p)
  {
    hide *;
    Ring(y, p, d);
    Ring(y, d, p);
    MulCommutes(p, d);
  }

  /// At xs[k] the k-th summand is ys[k] and the others are 0.
  lemma TermAtPoint(xs: seq<bv16>, ys: seq<bv16>, i: nat, k: nat)
    requires Distinct(xs) && i < |xs| == |ys| && k < |xs|
    ensures Term(xs[k], xs, ys, i) == if i == k then ys[k] else 0
  {
    hide Add, Mul, Inverse, Product;
    var p := Product(1, xs[k], xs, i, |xs|);
    var d := Product(1, xs[i], xs, i, |xs|);
    ProductScales(ys[i], xs[k], xs, i, |xs|);
    ProductVanishes(xs[k], xs, i, |xs|);
    if i == k {
      InverseWorks(p);
      Ring(ys[i], p, Inverse(p));
      Zero(ys[i]);
    } else {
      assert p == 0;
      Zero(ys[i]);
      Zero(Inverse(d));
    }
  }

  lemma {:induction false} InterpolateAtPoint(xs: seq<bv16>, ys: seq<bv16>, n: nat, k: nat)
    requires Distinct(xs) && n <= |xs| == |ys| && k < |xs|
    ensures Interpolate(xs[k], xs, ys, n) == if k < n then ys[k] else 0
  {
    hide Add, Mul, Term;
    if n > 0 {
      InterpolateAtPoint(xs, ys, n - 1, k);
      TermAtPoint(xs, ys, n - 1, k);
      Zero(0);
      Zero(ys[k]);
    }
  }

  /// Interpolation goes through its points.
  lemma ThroughPoints(xs: seq<bv16>, ys: seq<bv16>, k: nat)
    requires Distinct(xs) && k < |xs| == |ys|
    ensures Interpolate(xs[k], xs, ys, |xs|) == ys[k]
  {
    InterpolateAtPoint(xs, ys, |xs|, k);
  }

  /// The interpolation polynomial through all the points.
  function Curve(xs: seq<bv16>, ys: seq<bv16>): Poly
    requires |xs| == |ys|
  {
    InterpolationPoly(xs, ys, |xs|)
  }

  lemma EvalCurve(xs: seq<bv16>, ys: seq<bv16>, x: bv16)
    requires |xs| == |ys|
    ensures Eval(Curve(xs, ys), x) == Interpolate(x, xs, ys, |xs|)
    ensures |Curve(xs, ys)| <= |xs|
  {
    hide Eval, Interpolate, InterpolationPoly;
    EvalInterpolation(x, xs, ys, |xs|);
  }

  lemma SameAtPoint(xs: seq<bv16>, ys: seq<bv16>, us: seq<bv16>, vs: seq<bv16>, i: nat)
    requires |xs| == |ys|
    requires Distinct(us) && i < |us| == |vs|
    requires vs[i] == Interpolate(us[i], xs, ys, |xs|)
    ensures Eval(Curve(us, vs), us[i]) == Eval(Curve(xs, ys), us[i])
  {
    hide *;
    EvalCurve(xs, ys, us[i]);
    EvalCurve(us, vs, us[i]);
    ThroughPoints(us, vs, i);
  }

  /// Interpolation is exact: re-interpolating through any points of the curve, at least as many
  /// as defined it, gives the same curve.
  lemma Exact(xs: seq<bv16>, ys: seq<bv16>, us: seq<bv16>, vs: seq<bv16>, x: bv16)
    requires |xs| == |ys|
    requires Distinct(us) && |xs| <= |us| == |vs|
    requires forall i :: 0 <= i < |us| ==> vs[i] == Interpolate(us[i], xs, ys, |xs|)
    ensures Interpolate(x, us, vs, |us|) == Interpolate(x, xs, ys, |xs|)
  {
    hide *;
    forall i | 0 <= i < |us| ensures Eval(Curve(us, vs), us[i]) == Eval(Curve(xs, ys), us[i]) {
      SameAtPoint(xs, ys, us, vs, i);
    }
    EvalCurve(xs, ys, x);
    EvalCurve(us, vs, x);
    Unique(Curve(us, vs), Curve(xs, ys), us, x);
  }
}
