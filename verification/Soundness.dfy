/// What the verification of a username proof decides (src/username.zig): the challenge of the one
/// commitment that its equation determines; and that two answers to one commitment give away a
/// representation of the hash.
module Soundness {
  import opened Bytes
  import opened Kdf
  import opened Ristretto
  import opened Username
  import Ctr

  // ---------------------------------------------------------------- the challenge

  /// The challenge in terms of HMAC: domain, statement with generators and hash, commitment with
  /// hash, and two blocks of output as a little-endian number modulo the group order.
  lemma ChallengeIs(z: Group, hash: Key, commitment: Key)
    ensures var k0 := z.hmac(Zeros(32), Ascii("POKSHO_Ristretto_SHOHMACSHA256") + [0]);
      var k1 := z.hmac(k0, StatementBytes() + z.g1 + z.g2 + z.g3 + hash + [0]);
      var k2 := z.hmac(k1, commitment + hash + [0]);
      Challenge(z, hash, commitment)
        == FromLittleEndian(z.hmac(k2, [0, 0, 0, 0, 1]) + z.hmac(k2, [0, 0, 0, 1, 1])) % ORDER
  {
    hide FromLittleEndian, StatementBytes, Ascii;
    var start := ShoStart(z, Domain());
    assert [] + Domain() == Domain();
    var absorbed := Absorbed(Absorbed(Absorbed(Absorbed(Absorbed(start, StatementBytes()), z.g1), z.g2), z.g3), hash);
    assert absorbed.input == StatementBytes() + z.g1 + z.g2 + z.g3 + hash;
    var st := Ratcheted(z, Absorbed(Absorbed(Transcript(z, hash), commitment), hash));
    assert [] + commitment + hash == commitment + hash;
    TwoBlocks(z, st);
  }

  lemma TwoBlocks(z: Group, st: ShoState)
    requires st.input == []
    ensures Squeezed(z, st, 64) == z.hmac(st.key, [0, 0, 0, 0, 1]) + z.hmac(st.key, [0, 0, 0, 1, 1])
  {
    FourBytes(0);
    FourBytes(1);
    assert [0, 0, 0, 0] + [] + [1] == [0, 0, 0, 0, 1];
    assert [0, 0, 0, 1] + [] + [1] == [0, 0, 0, 1, 1];
    assert SqueezeBlock(z, st, 0) == z.hmac(st.key, [0, 0, 0, 0, 1]);
    assert SqueezeBlock(z, st, 1) == z.hmac(st.key, [0, 0, 0, 1, 1]);
    hide SqueezeBlock;
    assert SqueezeBlocks(z, st, 0) == [];
    assert SqueezeBlocks(z, st, 1) == SqueezeBlock(z, st, 0);
    assert SqueezeBlocks(z, st, 2) == SqueezeBlock(z, st, 0) + SqueezeBlock(z, st, 1);
  }

  lemma FourBytes(i: byte)
    ensures Ctr.BigEndian(i as nat, 4) == [0, 0, 0, i]
  {
    assert Ctr.BigEndian(0, 0) == [];
    assert Ctr.BigEndian(0, 1) == [0];
    assert Ctr.BigEndian(0, 2) == Ctr.BigEndian(0, 1) + [0];
    assert Ctr.BigEndian(0, 3) == Ctr.BigEndian(0, 2) + [0];
    assert Ctr.BigEndian(i as nat, 4) == Ctr.BigEndian(0, 3) + [i];
  }

  // ---------------------------------------------------------------- the hash

  /// A username has a hash exactly when it is 3 to 32 characters long, its discriminator can be read,
  /// its nickname is made of letters, digits and underscores and starts with no digit, and no
  /// multiplication gives the identity; the hash is then that of the lower-cased nickname.
  lemma HashIs(z: Group, username: bytes)
    requires GroupLaw(z)
    ensures var r := Compute(z, username);
      var p := Split(z, username);
      var formed := 3 <= |username| <= 32 && p.Ok? && AllNicknameChars(p.value.nickname)
                    && p.value.nickname != [] && !IsDigit(p.value.nickname[0]);
      && (!formed ==> r == Err(InvalidArgument))
      && (formed ==>
            var lc, d := Lower(p.value.nickname), p.value.discriminator;
            var s1 := FromLittleEndian(z.sha512(lc + [0] + Ctr.BigEndian(d, 8))) % ORDER;
            r == if NoIdentity(z, s1, NicknameNumber(lc), d) then Ok(SumOfThree(z, s1, NicknameNumber(lc), d))
                 else Err(IdentityElement))
  {
    hide GroupLaw, Times, FromLittleEndian, NicknameNumber, Combine, NoIdentity, Ctr.BigEndian;
    var p := Split(z, username);
    if 3 <= |username| <= 32 && p.Ok? {
      var lc, d := Lower(p.value.nickname), p.value.discriminator;
      CombineIs(z, S1(z, lc, d), NicknameNumber(lc), d);
    }
  }

  // ---------------------------------------------------------------- the decision

  /// The numbers of a proof: its challenge, and its three responses.
  function ChallengeOf(proof: bytes): nat
    requires |proof| == 128
  {
    FromLittleEndian(proof[..32])
  }

  /// a G1 + b G2 + c G3
  function SumOfThree(z: Group, a: nat, b: nat, c: nat): Key {
    z.add(z.add(Times(z, a, z.g1), Times(z, b, z.g2)), Times(z, c, z.g3))
  }

  /// That of the responses.
  function Answered(z: Group, proof: bytes): Key
    requires |proof| == 128
  {
    SumOfThree(z, FromLittleEndian(proof[32..64]), FromLittleEndian(proof[64..96]), FromLittleEndian(proof[96..]))
  }

  /// The verification equation: R + c hash == r1 G1 + r2 G2 + r3 G3.
  predicate Equation(z: Group, hash: Key, proof: bytes, commitment: Key)
    requires |proof| == 128
  {
    z.valid(commitment) && z.add(commitment, Times(z, ChallengeOf(proof), hash)) == Answered(z, proof)
  }

  lemma ThreeIs(z: Group, a: nat, b: nat, c: nat)
    ensures SumOfThree(z, a, b, c) == Combination(z, a, b, c)
  {
    hide Times;
  }

  lemma AnsweredIs(z: Group, proof: bytes)
    requires |proof| == 128
    ensures Answered(z, proof)
         == Combination(z, FromLittleEndian(proof[32..64]), FromLittleEndian(proof[64..96]), FromLittleEndian(proof[96..]))
  {
    hide Times, FromLittleEndian, Combination, SumOfThree;
    ThreeIs(z, FromLittleEndian(proof[32..64]), FromLittleEndian(proof[64..96]), FromLittleEndian(proof[96..]));
  }

  lemma AnsweredValid(z: Group, proof: bytes)
    requires GroupLaw(z) && |proof| == 128
    ensures z.valid(Answered(z, proof))
  {
    hide GroupLaw, Times, Combination, FromLittleEndian, Answered;
    AnsweredIs(z, proof);
    CombineIs(z, FromLittleEndian(proof[32..64]), FromLittleEndian(proof[64..96]), FromLittleEndian(proof[96..]));
  }

  /// p + x == q if and only if p == q - x.
  lemma Moved(z: Group, p: Key, x: Key, q: Key)
    requires GroupLaw(z) && z.valid(p) && z.valid(x) && z.valid(q)
    ensures z.add(p, x) == q <==> p == z.add(q, z.neg(x))
  {
    hide GroupLaw;
    Opposite(z, x);
    Closed(z, x, z.neg(x));
    Assoc(z, p, x, z.neg(x));
    Assoc(z, q, z.neg(x), x);
    Closed(z, p, p);
    Closed(z, q, q);
  }

  /// The equation has exactly one solution.
  lemma OneCommitment(z: Group, hash: Key, proof: bytes, commitment: Key)
    requires GroupLaw(z) && |proof| == 128 && z.valid(hash)
    ensures Equation(z, hash, proof, commitment)
       <==> commitment == z.add(Answered(z, proof), z.neg(Times(z, ChallengeOf(proof), hash)))
  {
    hide GroupLaw, Times, Answered, ChallengeOf;
    AnsweredValid(z, proof);
    var scaled := Times(z, ChallengeOf(proof), hash);
    TimesValid(z, ChallengeOf(proof), hash);
    Opposite(z, scaled);
    Closed(z, Answered(z, proof), z.neg(scaled));
    Moved(z, z.add(Answered(z, proof), z.neg(scaled)), scaled, Answered(z, proof));
    if z.valid(commitment) {
      Moved(z, commitment, scaled, Answered(z, proof));
    }
  }

  /// For every proof of the right length and every hash: no point, or an identity among the
  /// multiplications, decides at once; otherwise the proof is accepted if and only if its first part is
  /// the challenge of the one commitment that solves its equation, and refused if it is not.
  lemma VerifyDecides(z: Group, hash: Key, proof: bytes, commitment: Key)
    requires GroupLaw(z)
    ensures |proof| != 128 || !z.valid(hash) ==> Verify(z, hash, proof) == Ok(false)
    ensures |proof| == 128 && z.valid(hash) && !Verifiable(z, hash, proof) ==> Verify(z, hash, proof) == Err(IdentityElement)
    ensures |proof| == 128 && z.valid(hash) && Verifiable(z, hash, proof) && Equation(z, hash, proof, commitment) ==>
      Verify(z, hash, proof) == Ok(proof[..32] == Encode(Challenge(z, hash, commitment)))
  {
    hide GroupLaw, Times, FromLittleEndian, Combination, NoIdentity, Challenge, Encode, Equation, Answered;
    if |proof| == 128 && z.valid(hash) {
      AnsweredIs(z, proof);
      CombineIs(z, FromLittleEndian(proof[32..64]), FromLittleEndian(proof[64..96]), FromLittleEndian(proof[96..]));
      OneCommitment(z, hash, proof, commitment);
    }
  }

  lemma EquationSolved(z: Group, hash: Key, proof: bytes)
    requires GroupLaw(z) && |proof| == 128 && z.valid(hash)
    ensures exists commitment :: Equation(z, hash, proof, commitment)
  {
    hide GroupLaw, Equation;
    OneCommitment(z, hash, proof, z.add(Answered(z, proof), z.neg(Times(z, ChallengeOf(proof), hash))));
  }

  // ---------------------------------------------------------------- special soundness

  /// a - b modulo the order, as a number not below 0.
  function Minus(a: nat, b: nat): nat {
    a % ORDER + (ORDER - b % ORDER)
  }

  /// (a - b) p + b p == a p
  lemma MinusTimes(z: Group, a: nat, b: nat, p: Key)
    requires GroupLaw(z) && z.valid(p)
    ensures z.add(Times(z, Minus(a, b), p), Times(z, b, p)) == Times(z, a, p)
  {
    hide GroupLaw, Times;
    TimesReduced(z, a, p);
    TimesReduced(z, b, p);
    TimesSum(z, Minus(a, b), b % ORDER, p);
    assert Minus(a, b) + b % ORDER == a % ORDER + ORDER;
    TimesSum(z, a % ORDER, ORDER, p);
    OrderKills(z, p);
    TimesValid(z, a % ORDER, p);
    Closed(z, Times(z, a % ORDER, p), p);
  }

  lemma MinusCombination(z: Group, a: nat, b: nat, c: nat, a': nat, b': nat, c': nat)
    requires GroupLaw(z)
    ensures z.add(Combination(z, Minus(a, a'), Minus(b, b'), Minus(c, c')), Combination(z, a', b', c')) == Combination(z, a, b, c)
  {
    hide GroupLaw, Times, Minus;
    ValidConstants(z);
    MinusTimes(z, a, a', z.g1);
    MinusTimes(z, b, b', z.g2);
    MinusTimes(z, c, c', z.g3);
    TimesValid(z, Minus(a, a'), z.g1);
    TimesValid(z, Minus(b, b'), z.g2);
    TimesValid(z, Minus(c, c'), z.g3);
    TimesValid(z, a', z.g1);
    TimesValid(z, b', z.g2);
    TimesValid(z, c', z.g3);
    var p, q, r := Times(z, Minus(a, a'), z.g1), Times(z, Minus(b, b'), z.g2), Times(z, Minus(c, c'), z.g3);
    var x, y, w := Times(z, a', z.g1), Times(z, b', z.g2), Times(z, c', z.g3);
    Closed(z, p, q);
    Closed(z, x, y);
    Exchange(z, z.add(p, q), r, z.add(x, y), w);
    Exchange(z, p, q, x, y);
  }

  /// From R + c h == a and R + c' h == a', with k h + c' h == c h and d + a' == a:  k h == d.
  lemma Difference(z: Group, r: Key, ch: Key, ch': Key, kh: Key, a: Key, a': Key, d: Key)
    requires GroupLaw(z) && z.valid(r) && z.valid(ch) && z.valid(ch') && z.valid(kh) && z.valid(d) && z.valid(a')
    requires z.add(r, ch) == a && z.add(r, ch') == a' && z.add(kh, ch') == ch && z.add(d, a') == a
    ensures kh == d
  {
    hide GroupLaw;
    Closed(z, kh, a');
    Assoc(z, r, ch', kh);
    Closed(z, kh, ch');
    assert z.add(kh, a') == a;
    Closed(z, kh, a');
    Closed(z, d, a');
    Moved(z, kh, a', a);
    Moved(z, d, a', a);
  }

  function Scaled(n: nat, d: nat): Scalar {
    Product(n, d) % ORDER
  }

  lemma ScaledTimes(z: Group, n: nat, d: nat, p: Key)
    requires GroupLaw(z) && z.valid(p)
    ensures Times(z, Scaled(n, d), p) == Times(z, d, Times(z, n, p))
  {
    hide GroupLaw, Times, Product;
    TimesReduced(z, Product(n, d), p);
    TimesProduct(z, n, d, p);
  }

  lemma ScaledAll(z: Group, a: nat, b: nat, c: nat, d: nat)
    requires GroupLaw(z)
    ensures Combination(z, Scaled(a, d), Scaled(b, d), Scaled(c, d)) == Times(z, d, Combination(z, a, b, c))
  {
    hide GroupLaw, Times, Scaled;
    ValidConstants(z);
    ScaledTimes(z, a, d, z.g1);
    ScaledTimes(z, b, d, z.g2);
    ScaledTimes(z, c, d, z.g3);
    TimesValid(z, a, z.g1);
    TimesValid(z, b, z.g2);
    TimesValid(z, c, z.g3);
    var p, q, r := Times(z, a, z.g1), Times(z, b, z.g2), Times(z, c, z.g3);
    Closed(z, p, q);
    TimesAdd(z, d, z.add(p, q), r);
    TimesAdd(z, d, p, q);
  }

  lemma TimesOne(z: Group, p: Key)
    requires GroupLaw(z) && z.valid(p)
    ensures Times(z, 1, p) == p
  {
    hide GroupLaw;
    Closed(z, p, p);
    assert Times(z, 0, p) == z.zero;
  }

  /// Special soundness: two proofs for one commitment whose challenges differ by something that d
  /// inverts modulo the order determine three scalars whose combination is the hash.
  lemma Extracts(z: Group, hash: Key, commitment: Key, proof: bytes, other: bytes, d: nat)
    requires GroupLaw(z) && z.valid(hash) && |proof| == 128 && |other| == 128
    requires Equation(z, hash, proof, commitment) && Equation(z, hash, other, commitment)
    requires Product(Minus(ChallengeOf(proof), ChallengeOf(other)), d) % ORDER == 1
    ensures hash == SumOfThree(z,
      Scaled(Minus(FromLittleEndian(proof[32..64]), FromLittleEndian(other[32..64])), d),
      Scaled(Minus(FromLittleEndian(proof[64..96]), FromLittleEndian(other[64..96])), d),
      Scaled(Minus(FromLittleEndian(proof[96..]), FromLittleEndian(other[96..])), d))
  {
    hide GroupLaw, Times, Minus, Product, FromLittleEndian, Combination, SumOfThree, Answered, Scaled;
    AnsweredIs(z, proof);
    AnsweredIs(z, other);
    var c, c' := ChallengeOf(proof), ChallengeOf(other);
    var a1, a2, a3 := FromLittleEndian(proof[32..64]), FromLittleEndian(proof[64..96]), FromLittleEndian(proof[96..]);
    var b1, b2, b3 := FromLittleEndian(other[32..64]), FromLittleEndian(other[64..96]), FromLittleEndian(other[96..]);
    var k, difference := Minus(c, c'), Combination(z, Minus(a1, b1), Minus(a2, b2), Minus(a3, b3));
    MinusTimes(z, c, c', hash);
    MinusCombination(z, a1, a2, a3, b1, b2, b3);
    TimesValid(z, c, hash);
    TimesValid(z, c', hash);
    TimesValid(z, k, hash);
    CombineIs(z, Minus(a1, b1), Minus(a2, b2), Minus(a3, b3));
    AnsweredValid(z, other);
    Difference(z, commitment, Times(z, c, hash), Times(z, c', hash), Times(z, k, hash), Answered(z, proof), Answered(z, other), difference);
    ScaledAll(z, Minus(a1, b1), Minus(a2, b2), Minus(a3, b3), d);
    ThreeIs(z, Scaled(Minus(a1, b1), d), Scaled(Minus(a2, b2), d), Scaled(Minus(a3, b3), d));
    ScaledTimes(z, k, d, hash);
    assert Scaled(k, d) == 1 by {
      ScaledIs(k, d);
    }
    TimesOne(z, hash);
  }

  lemma ScaledIs(n: nat, d: nat)
    ensures Scaled(n, d) == Product(n, d) % ORDER
  {
  }
}
