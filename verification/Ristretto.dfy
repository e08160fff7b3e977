/// The Ristretto group as src/username.zig uses it: an abstract abelian group of known order, its
/// scalars, and the linear combination that hashes and proofs are made of.
module Ristretto {
  import opened Bytes

  /// The order of the Ristretto group, 2^252 + 27742317777372353535851937790883648493.
  const ORDER: nat := 0x10000000_00000000_00000000_00000000_14def9de_a2f79cd6_5812631a_5cf5d3ed

  type Scalar = n: nat | n < ORDER
  type Wide = b: bytes | |b| == 64 witness Zeros(64)

  /// The hash and the group that the standard library provides: points are given by their canonical
  /// 32-byte encodings.  parse is decimal parsing of a discriminator.
  datatype Group = Group(
    sha512: bytes -> Wide,
    hmac: (bytes, bytes) -> Key,
    valid: Key -> bool,
    zero: Key,
    add: (Key, Key) -> Key,
    neg: Key -> Key,
    g1: Key, g2: Key, g3: Key,
    parse: bytes -> Option<u64>
  )

  // ---------------------------------------------------------------- the group

  ghost predicate ConstantLaw(z: Group) {
    z.valid(z.zero) && z.valid(z.g1) && z.valid(z.g2) && z.valid(z.g3)
  }

  // Each law is stated of some points, so that a proof uses it where it names them.

  predicate SumAt(z: Group, p: Key, q: Key) {
    z.valid(p) && z.valid(q) ==> z.valid(z.add(p, q)) && z.add(p, q) == z.add(q, p)
  }

  predicate AssociativeAt(z: Group, p: Key, q: Key, r: Key) {
    z.valid(p) && z.valid(q) && z.valid(r) ==> z.add(z.add(p, q), r) == z.add(p, z.add(q, r))
  }

  predicate InverseAt(z: Group, p: Key) {
    z.valid(p) ==> z.add(p, z.zero) == p && z.valid(z.neg(p)) && z.add(p, z.neg(p)) == z.zero
  }

  predicate OrderAt(z: Group, p: Key) {
    z.valid(p) ==> Times(z, ORDER, p) == z.zero
  }

  ghost predicate SumLaw(z: Group) {
    forall p: Key, q: Key :: SumAt(z, p, q)
  }

  ghost predicate AssociativeLaw(z: Group) {
    forall p: Key, q: Key, r: Key :: AssociativeAt(z, p, q, r)
  }

  ghost predicate InverseLaw(z: Group) {
    forall p: Key :: InverseAt(z, p)
  }

  ghost predicate OrderLaw(z: Group) {
    forall p: Key :: OrderAt(z, p)
  }

  /// An abelian group whose elements have an order dividing ORDER.
  ghost predicate GroupLaw(z: Group) {
    ConstantLaw(z) && SumLaw(z) && AssociativeLaw(z) && InverseLaw(z) && OrderLaw(z)
  }

  /// n p, by repeated addition.
  function Times(z: Group, n: nat, p: Key): Key
    decreases n, p
  {
    if n == 0 then z.zero else z.add(Times(z, n - 1, p), p)
  }

  lemma Closed(z: Group, p: Key, q: Key)
    requires GroupLaw(z) && z.valid(p) && z.valid(q)
    ensures z.valid(z.add(p, q)) && z.add(p, q) == z.add(q, p) && z.add(p, z.zero) == p && z.add(z.zero, p) == p
  {
    assert SumAt(z, p, q) && SumAt(z, p, z.zero) && InverseAt(z, p);
  }

  lemma Assoc(z: Group, p: Key, q: Key, r: Key)
    requires GroupLaw(z) && z.valid(p) && z.valid(q) && z.valid(r)
    ensures z.add(z.add(p, q), r) == z.add(p, z.add(q, r))
  {
    assert AssociativeAt(z, p, q, r);
  }

  lemma Opposite(z: Group, p: Key)
    requires GroupLaw(z) && z.valid(p)
    ensures z.valid(z.neg(p)) && z.add(p, z.neg(p)) == z.zero
  {
    assert InverseAt(z, p);
  }

  lemma ValidConstants(z: Group)
    requires GroupLaw(z)
    ensures z.valid(z.zero) && z.valid(z.g1) && z.valid(z.g2) && z.valid(z.g3)
  {
  }

  lemma OrderKills(z: Group, p: Key)
    requires GroupLaw(z) && z.valid(p)
    ensures Times(z, ORDER, p) == z.zero
  {
    hide Times;
    assert OrderAt(z, p);
  }

  lemma {:induction false} TimesValid(z: Group, n: nat, p: Key)
    requires GroupLaw(z) && z.valid(p)
    ensures z.valid(Times(z, n, p))
    decreases n, p
  {
    hide GroupLaw;
    ValidConstants(z);
    if n > 0 {
      TimesValid(z, n - 1, p);
      Closed(z, Times(z, n - 1, p), p);
    }
  }

  lemma {:induction false} TimesSum(z: Group, a: nat, b: nat, p: Key)
    requires GroupLaw(z) && z.valid(p)
    ensures Times(z, a + b, p) == z.add(Times(z, a, p), Times(z, b, p))
    decreases b, a
  {
    hide GroupLaw;
    TimesValid(z, a, p);
    if b == 0 {
      Closed(z, Times(z, a, p), p);
    } else {
      TimesSum(z, a, b - 1, p);
      TimesValid(z, b - 1, p);
      Assoc(z, Times(z, a, p), Times(z, b - 1, p), p);
    }
  }

  lemma {:induction false} TimesZero(z: Group, n: nat)
    requires GroupLaw(z)
    ensures Times(z, n, z.zero) == z.zero
    decreases n, z.zero
  {
    hide GroupLaw;
    ValidConstants(z);
    if n > 0 {
      TimesZero(z, n - 1);
      Closed(z, z.zero, z.zero);
    }
  }

  /// (p + q) + (r + t) == (p + r) + (q + t)
  lemma Exchange(z: Group, p: Key, q: Key, r: Key, t: Key)
    requires GroupLaw(z) && z.valid(p) && z.valid(q) && z.valid(r) && z.valid(t)
    ensures z.add(z.add(p, q), z.add(r, t)) == z.add(z.add(p, r), z.add(q, t))
  {
    hide GroupLaw;
    Closed(z, r, t);
    Closed(z, q, t);
    Closed(z, q, r);
    Assoc(z, p, q, z.add(r, t));
    Assoc(z, q, r, t);
    Assoc(z, r, q, t);
    Assoc(z, p, r, z.add(q, t));
  }

  lemma {:induction false} TimesAdd(z: Group, n: nat, p: Key, q: Key)
    requires GroupLaw(z) && z.valid(p) && z.valid(q)
    ensures Times(z, n, z.add(p, q)) == z.add(Times(z, n, p), Times(z, n, q))
    decreases n, p
  {
    hide GroupLaw;
    ValidConstants(z);
    if n == 0 {
      Closed(z, z.zero, z.zero);
    } else {
      TimesAdd(z, n - 1, p, q);
      TimesValid(z, n - 1, p);
      TimesValid(z, n - 1, q);
      Exchange(z, Times(z, n - 1, p), Times(z, n - 1, q), p, q);
    }
  }

  function Product(a: nat, b: nat): nat {
    a * b
  }

  lemma ProductStep(a: nat, b: nat)
    ensures Product(a, b + 1) == Product(a, b) + a && Product(a, 0) == 0
  {
  }

  lemma {:induction false} TimesProduct(z: Group, a: nat, b: nat, p: Key)
    requires GroupLaw(z) && z.valid(p)
    ensures Times(z, Product(a, b), p) == Times(z, b, Times(z, a, p))
    decreases b, a
  {
    hide GroupLaw, Product;
    if b == 0 {
      ProductStep(a, 0);
    } else {
      TimesProduct(z, a, b - 1, p);
      ProductStep(a, b - 1);
      TimesSum(z, Product(a, b - 1), a, p);
    }
  }

  /// Only the scalar modulo ORDER matters.
  lemma TimesReduced(z: Group, n: nat, p: Key)
    requires GroupLaw(z) && z.valid(p)
    ensures Times(z, n % ORDER, p) == Times(z, n, p)
  {
    hide GroupLaw, Times, Product;
    var q, r := n / ORDER, n % ORDER;
    TimesProduct(z, ORDER, q, p);
    OrderKills(z, p);
    TimesZero(z, q);
    Quotient(n);
    TimesSum(z, Product(ORDER, q), r, p);
    TimesValid(z, r, p);
    Closed(z, Times(z, r, p), p);
  }

  lemma Quotient(n: nat)
    ensures n == Product(ORDER, n / ORDER) + n % ORDER
  {
  }

  // ---------------------------------------------------------------- scalars

  function Encode(n: nat): Key {
    LittleEndian(n, 32)
  }

  lemma {:induction false} Pow256Sum(a: nat, b: nat)
    ensures Pow256(a + b) == Pow256(a) * Pow256(b)
    decreases a
  {
    if a > 0 {
      Pow256Sum(a - 1, b);
      Regroup(Pow256(a - 1), Pow256(b));
    }
  }

  lemma Regroup(a: nat, b: nat)
    ensures 256 * (a * b) == (256 * a) * b
  {
  }

  lemma OrderFits()
    ensures ORDER < Pow256(32)
  {
    hide Pow256;
    Pow256Eight();
    Pow256Sum(8, 8);
    Pow256Sum(16, 16);
  }

  lemma Pow256Eight()
    ensures Pow256(8) == TWO64
  {
    assert Pow256(4) == TWO32;
  }

  lemma EncodeRoundTrip(n: Scalar)
    ensures FromLittleEndian(Encode(n)) == n
  {
    OrderFits();
    LittleEndianRoundTrip(n, 32);
  }

  /// Reduction of 64 hash bytes.
  function Reduce(w: Wide): Scalar {
    FromLittleEndian(w) % ORDER
  }

  /// Multiplication refuses the identity.
  function Mul(z: Group, p: Key, n: nat): Result<Key> {
    var r := Times(z, n, p);
    if r == z.zero then Err(IdentityElement) else Ok(r)
  }

  /// scalarMulOpt: nothing for the zero scalar.
  function MulOpt(z: Group, p: Key, n: nat): Result<Option<Key>> {
    if n == 0 then Ok(None)
    else
      var r :- Mul(z, p, n);
      Ok(Some(r))
  }

  /// a G1 + b G2 + c G3
  function Combination(z: Group, a: nat, b: nat, c: nat): Key {
    z.add(z.add(Times(z, a, z.g1), Times(z, b, z.g2)), Times(z, c, z.g3))
  }

  /// The same as the source computes it.
  function Combine(z: Group, a: nat, b: nat, c: nat): Result<Key> {
    var p1 :- Mul(z, z.g1, a);
    var p2 :- Mul(z, z.g2, b);
    var p3 :- MulOpt(z, z.g3, c);
    Ok(if p3.None? then z.add(p1, p2) else z.add(z.add(p1, p2), p3.value))
  }

  /// No product is the identity, but for a zero third scalar.
  predicate NoIdentity(z: Group, a: nat, b: nat, c: nat) {
    && Times(z, a, z.g1) != z.zero
    && Times(z, b, z.g2) != z.zero
    && (c == 0 || Times(z, c, z.g3) != z.zero)
  }

  lemma CombineIs(z: Group, a: nat, b: nat, c: nat)
    requires GroupLaw(z)
    ensures Combine(z, a, b, c) == if NoIdentity(z, a, b, c) then Ok(Combination(z, a, b, c)) else Err(IdentityElement)
    ensures z.valid(Combination(z, a, b, c))
  {
    hide GroupLaw;
    ValidConstants(z);
    TimesValid(z, a, z.g1);
    TimesValid(z, b, z.g2);
    TimesValid(z, c, z.g3);
    Closed(z, Times(z, a, z.g1), Times(z, b, z.g2));
    Closed(z, z.add(Times(z, a, z.g1), Times(z, b, z.g2)), Times(z, c, z.g3));
  }

  // ---------------------------------------------------------------- the laws have a model

  function Value(p: Key): nat {
    FromLittleEndian(p)
  }

  function SumOf(p: Key, q: Key): Key {
    Encode((Value(p) + Value(q)) % ORDER)
  }

  function NegativeOf(p: Key): Key {
    Encode((ORDER - Value(p) % ORDER) % ORDER)
  }

  /// Integers modulo ORDER as points.
  function Integers(): Group {
    Group((m: bytes) => Zeros(64), (k: bytes, m: bytes) => Zeros(32),
          (p: Key) => Value(p) < ORDER, Encode(0), SumOf, NegativeOf, Encode(1), Encode(1), Encode(1), (d: bytes) => None)
  }

  lemma {:induction false} LittleEndianOf(s: bytes)
    ensures LittleEndian(FromLittleEndian(s), |s|) == s
  {
    if s != [] {
      LittleEndianOf(s[1..]);
      var v := FromLittleEndian(s);
      assert v % 256 == s[0] as nat && v / 256 == FromLittleEndian(s[1..]);
    }
  }

  lemma ValueOfSum(p: Key, q: Key)
    ensures Value(SumOf(p, q)) == (Value(p) + Value(q)) % ORDER && SumOf(p, q) == SumOf(q, p)
  {
    hide LittleEndian, FromLittleEndian;
    EncodeRoundTrip((Value(p) + Value(q)) % ORDER);
  }

  lemma SumAssociative(p: Key, q: Key, r: Key)
    ensures SumOf(SumOf(p, q), r) == SumOf(p, SumOf(q, r))
  {
    hide LittleEndian, FromLittleEndian, Encode, Value;
    ValueOfSum(p, q);
    ValueOfSum(q, r);
    SumModulo(Value(p), Value(q), Value(r));
  }

  lemma SumWithZero(p: Key)
    requires Value(p) < ORDER
    ensures SumOf(p, Encode(0)) == p
    ensures Value(NegativeOf(p)) < ORDER && SumOf(p, NegativeOf(p)) == Encode(0)
  {
    hide LittleEndian, FromLittleEndian, Encode, NegativeOf;
    Opposites(Value(p));
    EncodeRoundTrip(0);
    EncodeValue(p);
    NegativeValue(p);
  }

  lemma EncodeValue(p: Key)
    requires Value(p) < ORDER
    ensures Encode(Value(p)) == p
  {
    LittleEndianOf(p);
  }

  lemma NegativeValue(p: Key)
    ensures Value(NegativeOf(p)) == (ORDER - Value(p) % ORDER) % ORDER
  {
    hide LittleEndian, FromLittleEndian;
    EncodeRoundTrip((ORDER - Value(p) % ORDER) % ORDER);
  }

  lemma Opposites(v: nat)
    requires v < ORDER
    ensures (v + (ORDER - v % ORDER) % ORDER) % ORDER == 0 && v % ORDER == v
  {
  }

  lemma SumModulo(a: nat, b: nat, c: nat)
    ensures ((a + b) % ORDER + c) % ORDER == (a + b + c) % ORDER
    ensures (a + (b + c) % ORDER) % ORDER == (a + b + c) % ORDER
  {
    ModuloAdds(a + b, c);
    ModuloAdds(b + c, a);
  }

  lemma ModuloAdds(x: nat, c: nat)
    ensures (x % ORDER + c) % ORDER == (x + c) % ORDER
  {
  }

  lemma {:induction false} IntegerTimes(n: nat, p: Key)
    requires Value(p) < ORDER
    ensures Times(Integers(), n, p) == Encode(Product(Value(p), n) % ORDER)
    decreases n, p
  {
    hide LittleEndian, FromLittleEndian, Product, Value, Encode, SumOf;
    if n == 0 {
      ProductStep(Value(p), 0);
    } else {
      IntegerTimes(n - 1, p);
      assert Times(Integers(), n, p) == SumOf(Times(Integers(), n - 1, p), p);
      IntegerStep(n, p);
    }
  }

  lemma IntegerStep(n: nat, p: Key)
    requires n > 0
    ensures SumOf(Encode(Product(Value(p), n - 1) % ORDER), p) == Encode(Product(Value(p), n) % ORDER)
  {
    hide LittleEndian, FromLittleEndian, Product;
    var v := Value(p);
    EncodeRoundTrip(Product(v, n - 1) % ORDER);
    ProductStep(v, n - 1);
    ModuloAdds(Product(v, n - 1), v);
  }

  /// The laws are consistent.
  lemma IntegersAreGroup()
    ensures GroupLaw(Integers())
  {
    hide ConstantLaw, SumLaw, AssociativeLaw, InverseLaw, OrderLaw;
    UnitsValid();
    IntegerSums();
    IntegerAssociative();
    IntegerInverses();
    IntegerOrder();
  }

  lemma IntegerSums()
    ensures SumLaw(Integers())
  {
    hide LittleEndian, FromLittleEndian, Value, SumOf;
    forall p: Key, q: Key ensures SumAt(Integers(), p, q) {
      ValueOfSum(p, q);
    }
  }

  lemma IntegerAssociative()
    ensures AssociativeLaw(Integers())
  {
    hide LittleEndian, FromLittleEndian, Value, SumOf;
    forall p: Key, q: Key, r: Key ensures AssociativeAt(Integers(), p, q, r) {
      SumAssociative(p, q, r);
    }
  }

  lemma IntegerInverses()
    ensures InverseLaw(Integers())
  {
    hide LittleEndian, FromLittleEndian, Value, SumOf, NegativeOf, Encode;
    forall p: Key ensures InverseAt(Integers(), p) {
      if Value(p) < ORDER {
        SumWithZero(p);
      }
    }
  }

  lemma IntegerOrder()
    ensures OrderLaw(Integers())
  {
    hide LittleEndian, FromLittleEndian, Value, SumOf, NegativeOf, Encode, Times, Product;
    forall p: Key ensures OrderAt(Integers(), p) {
      if Value(p) < ORDER {
        IntegerTimes(ORDER, p);
        MultipleOfOrder(Value(p));
      }
    }
  }

  lemma UnitsValid()
    ensures ConstantLaw(Integers())
  {
    hide LittleEndian, FromLittleEndian;
    EncodeRoundTrip(0);
    EncodeRoundTrip(1);
  }

  lemma MultipleOfOrder(v: nat)
    ensures Product(v, ORDER) % ORDER == 0
  {
  }
}
