/// Username hashes and proofs (src/username.zig).
module Username {
  import opened Bytes
  import opened Crypto
  import opened Kdf
  import opened Ristretto
  import Ctr

  // ---------------------------------------------------------------- nicknames

  function CharToByte(c: byte): (d: nat)
    ensures d <= 37
  {
    if c == 95 then 1
    else if 97 <= c <= 122 then c as nat - 97 + 2
    else if 48 <= c <= 57 then c as nat - 48 + 28
    else 0
  }

  predicate IsDigit(c: byte) {
    48 <= c <= 57
  }

  predicate IsLower(c: byte) {
    97 <= c <= 122
  }

  predicate IsUpper(c: byte) {
    65 <= c <= 90
  }

  /// What a nickname is made of: letters, digits and '_'.
  predicate NicknameChar(c: byte) {
    IsDigit(c) || IsLower(c) || IsUpper(c) || c == 95
  }

  function ToLower(c: byte): byte {
    if IsUpper(c) then c + 32 else c
  }

  function Lower(s: bytes): (t: bytes)
    ensures |t| == |s|
  {
    seq(|s|, i requires 0 <= i < |s| => ToLower(s[i]))
  }

  /// d0 + 37 (d1 + 37 (...))
  function Rest(s: bytes): nat {
    if s == [] then 0 else CharToByte(s[0]) + 37 * Rest(s[1..])
  }

  /// The nickname as a number: the first character in radix 27, the others in radix 37.
  function NicknameNumber(s: bytes): nat {
    if s == [] then 0 else CharToByte(s[0]) + 27 * Rest(s[1..])
  }

  function Pow37(n: nat): (p: nat)
    ensures p > 0
  {
    if n == 0 then 1 else 37 * Pow37(n - 1)
  }

  lemma {:induction false} RestBound(s: bytes)
    ensures Rest(s) <= 2 * Pow37(|s|) - 2
  {
    if s != [] {
      RestBound(s[1..]);
    }
  }

  lemma {:induction false} Pow37Sum(a: nat, b: nat)
    ensures Pow37(a + b) == Pow37(a) * Pow37(b)
    decreases a
  {
    if a > 0 {
      Pow37Sum(a - 1, b);
      Regroup37(Pow37(a - 1), Pow37(b));
    }
  }

  lemma Regroup37(a: nat, b: nat)
    ensures 37 * (a * b) == (37 * a) * b
  {
  }

  lemma {:induction false} Pow37Monotone(a: nat, b: nat)
    requires a <= b
    ensures Pow37(a) <= Pow37(b)
    decreases b
  {
    if a < b {
      Pow37Monotone(a, b - 1);
    }
  }

  /// Far from both the group order and 256 bits.
  lemma Pow37Small()
    ensures 100 * Pow37(32) < ORDER
  {
    assert Pow37(4) == 1874161;
    Pow37Sum(4, 4);
    Pow37Sum(8, 8);
    Pow37Sum(16, 16);
  }

  /// The number of a suffix never reaches the order, nor does its next multiple overflow 256 bits.
  lemma NoWrap(s: bytes)
    requires |s| <= 32
    ensures Rest(s) * 37 + 37 < ORDER && NicknameNumber(s) < ORDER
  {
    RestBound(s);
    Pow37Monotone(|s|, 32);
    Pow37Small();
    if s != [] {
      RestBound(s[1..]);
      Pow37Monotone(|s| - 1, 32);
    }
  }

  /// makeS2: Horner's rule from the last character, reduced at every step.
  method MakeS2(lc: bytes) returns (out: Key)
    requires |lc| <= 32
    ensures out == Encode(NicknameNumber(lc))
  {
    hide Rest, NicknameNumber, CharToByte, LittleEndian;
    if |lc| == 0 {
      EmptyNumber();
      ZeroBytes(32);
      return Zeros(32);
    }
    var val: nat := 0;
    var i := |lc|;
    EmptyNumber();
    assert lc[i..] == [];
    while i > 1
      invariant 1 <= i <= |lc|
      invariant val == Rest(lc[i..])
    {
      NoWrap(lc[i..]);
      HornerStep(lc, i - 1);
      i := i - 1;
      val := (val * 37 + CharToByte(lc[i])) % ORDER;
    }
    NoWrap(lc);
    LastStep(lc);
    val := (val * 27 + CharToByte(lc[0])) % ORDER;
    out := ToBytes(val);
  }

  lemma EmptyNumber()
    ensures Rest([]) == 0 && NicknameNumber([]) == 0
  {
  }

  lemma HornerStep(lc: bytes, i: nat)
    requires i < |lc| && Rest(lc[i + 1..]) * 37 + 37 < ORDER
    ensures Rest(lc[i..]) == (Rest(lc[i + 1..]) * 37 + CharToByte(lc[i])) % ORDER
  {
    assert lc[i..][1..] == lc[i + 1..];
  }

  lemma LastStep(lc: bytes)
    requires lc != [] && NicknameNumber(lc) < ORDER
    ensures NicknameNumber(lc) == (Rest(lc[1..]) * 27 + CharToByte(lc[0])) % ORDER
  {
  }

  /// The loop that shifts the value out, least significant byte first.
  method ToBytes(val: nat) returns (out: Key)
    ensures out == Encode(val)
  {
    hide LittleEndian;
    var s := new byte[32];
    var tmp := val;
    for j := 0 to 32
      invariant s[..j] + LittleEndian(tmp, 32 - j) == Encode(val)
    {
      ghost var before := s[..j];
      LittleStep(tmp, 32 - j);
      s[j] := (tmp % 256) as byte;
      assert s[..j + 1] == before + [(tmp % 256) as byte];
      tmp := tmp / 256;
    }
    out := s[..];
    assert out == s[..32] + [];
    assert LittleEndian(tmp, 0) == [];
  }

  lemma LittleStep(v: nat, n: nat)
    requires n > 0
    ensures LittleEndian(v, n) == [(v % 256) as byte] + LittleEndian(v / 256, n - 1)
  {
  }

  lemma {:induction false} ZeroBytes(n: nat)
    ensures LittleEndian(0, n) == Zeros(n)
  {
    if n > 0 {
      ZeroBytes(n - 1);
      assert Zeros(n) == [0] + Zeros(n - 1);
    }
  }

  /// A lower-cased nickname with a first character that is not a digit.
  predicate Canonical(s: bytes) {
    && s != [] && !IsDigit(s[0])
    && forall i :: 0 <= i < |s| ==> NicknameChar(s[i]) && !IsUpper(s[i])
  }

  lemma CharInjective(a: byte, b: byte)
    requires NicknameChar(a) && !IsUpper(a) && NicknameChar(b) && !IsUpper(b)
    ensures 1 <= CharToByte(a) <= 37
    ensures !IsDigit(a) <==> CharToByte(a) <= 27
    ensures CharToByte(a) == CharToByte(b) ==> a == b
  {
  }

  lemma {:induction false} RestInjective(s: bytes, t: bytes)
    requires forall i :: 0 <= i < |s| ==> NicknameChar(s[i]) && !IsUpper(s[i])
    requires forall i :: 0 <= i < |t| ==> NicknameChar(t[i]) && !IsUpper(t[i])
    requires Rest(s) == Rest(t)
    ensures s == t
    decreases |s|
  {
    if s != [] && t != [] {
      CharInjective(s[0], t[0]);
      CharInjective(t[0], s[0]);
      DigitsEqual(CharToByte(s[0]), Rest(s[1..]), CharToByte(t[0]), Rest(t[1..]), 37);
      RestInjective(s[1..], t[1..]);
      assert s == [s[0]] + s[1..] && t == [t[0]] + t[1..];
    } else if s != [] {
      CharInjective(s[0], s[0]);
    } else if t != [] {
      CharInjective(t[0], t[0]);
    }
  }

  /// Digits 1..r determine a number in bijective radix r.
  lemma DigitsEqual(d: nat, m: nat, e: nat, n: nat, r: nat)
    requires 1 <= d <= r && 1 <= e <= r && d + r * m == e + r * n
    ensures d == e && m == n
  {
    if m > n {
      Larger(r, m, n);
    } else if m < n {
      Larger(r, n, m);
    }
  }

  /// The number determines a canonical nickname.
  lemma NicknameInjective(s: bytes, t: bytes)
    requires Canonical(s) && Canonical(t) && NicknameNumber(s) == NicknameNumber(t)
    ensures s == t
  {
    CharInjective(s[0], t[0]);
    CharInjective(t[0], s[0]);
    DigitsEqual(CharToByte(s[0]), Rest(s[1..]), CharToByte(t[0]), Rest(t[1..]), 27);
    RestInjective(s[1..], t[1..]);
    assert s == [s[0]] + s[1..] && t == [t[0]] + t[1..];
  }

  /// makeS3
  function S3(discriminator: u64): Key {
    LittleEndian(discriminator, 8) + Zeros(24)
  }

  lemma {:induction false} FromPadded(s: bytes, n: nat)
    ensures FromLittleEndian(s + Zeros(n)) == FromLittleEndian(s)
    decreases |s|, n
  {
    if s != [] {
      assert (s + Zeros(n))[1..] == s[1..] + Zeros(n);
      FromPadded(s[1..], n);
    } else if n > 0 {
      assert s + Zeros(n) == Zeros(n);
      assert Zeros(n)[1..] == Zeros(n - 1);
      FromPadded([], n - 1);
      assert [] + Zeros(n - 1) == Zeros(n - 1);
    } else {
      assert s + Zeros(n) == [];
    }
  }

  lemma S3Is(discriminator: u64)
    ensures FromLittleEndian(S3(discriminator)) == discriminator
  {
    FromPadded(LittleEndian(discriminator, 8), 24);
    assert Pow256(8) == TWO64 by {
      assert Pow256(4) == TWO32;
    }
    LittleEndianRoundTrip(discriminator, 8);
  }

  /// The second and third scalars determine the lower-cased nickname and the discriminator.
  lemma ScalarsDetermine(s: bytes, d: u64, t: bytes, e: u64)
    requires Canonical(s) && Canonical(t) && |s| <= 32 && |t| <= 32
    requires Encode(NicknameNumber(s)) == Encode(NicknameNumber(t)) && S3(d) == S3(e)
    ensures s == t && d == e
  {
    hide NicknameNumber, LittleEndian, FromLittleEndian;
    NoWrap(s);
    NoWrap(t);
    EncodeRoundTrip(NicknameNumber(s));
    EncodeRoundTrip(NicknameNumber(t));
    NicknameInjective(s, t);
    S3Is(d);
    S3Is(e);
  }

  // ---------------------------------------------------------------- the stateful hash

  datatype ShoState = ShoState(key: Key, input: bytes)

  function Absorbed(st: ShoState, data: bytes): ShoState {
    st.(input := st.input + data)
  }

  function Ratcheted(z: Group, st: ShoState): ShoState {
    ShoState(z.hmac(st.key, st.input + [0]), [])
  }

  function ShoStart(z: Group, text: bytes): ShoState {
    Ratcheted(z, Absorbed(ShoState(Zeros(32), []), text))
  }

  function SqueezeBlock(z: Group, st: ShoState, i: nat): Key {
    z.hmac(st.key, Ctr.BigEndian(i, 4) + st.input + [1])
  }

  function SqueezeBlocks(z: Group, st: ShoState, n: nat): (b: bytes)
    ensures |b| == 32 * n
  {
    if n == 0 then [] else SqueezeBlocks(z, st, n - 1) + SqueezeBlock(z, st, n - 1)
  }

  /// The first len bytes of the blocks.
  function Squeezed(z: Group, st: ShoState, len: nat): (b: bytes)
    ensures |b| == len
  {
    SqueezeBlocks(z, st, BlockCount(len))[..len]
  }

  class Sho {
    const z: Group
    var key: Key
    var input: bytes

    function View(): ShoState
      reads this
    {
      ShoState(key, input)
    }

    constructor (z: Group, text: bytes)
      ensures this.z == z && View() == ShoStart(z, text)
    {
      this.z := z;
      key, input := Zeros(32), [];
      new;
      AbsorbAndRatchet(text);
    }

    constructor Clone(other: Sho)
      ensures z == other.z && View() == other.View()
    {
      z, key, input := other.z, other.key, other.input;
    }

    method Absorb(data: bytes)
      modifies this
      ensures View() == Absorbed(old(View()), data)
    {
      input := input + data;
    }

    method Ratchet()
      modifies this
      ensures View() == Ratcheted(z, old(View()))
    {
      key, input := z.hmac(key, input + [0]), [];
    }

    method AbsorbAndRatchet(data: bytes)
      modifies this
      ensures View() == Ratcheted(z, Absorbed(old(View()), data))
    {
      Absorb(data);
      Ratchet();
    }

    method SqueezeAndRatchet(len: nat) returns (out: bytes)
      modifies this
      ensures out == Squeezed(z, old(View()), len) && View() == Ratcheted(z, old(View()))
    {
      hide SqueezeBlock;
      var buf := new byte[len];
      var produced, counter: nat := 0, 0;
      while produced < len
        invariant produced == if 32 * counter <= len then 32 * counter else len
        invariant produced == len ==> counter == BlockCount(len)
        invariant View() == old(View())
        invariant buf[..produced] == SqueezeBlocks(z, View(), counter)[..produced]
      {
        var block := Block(counter);
        var chunk := if len - produced < 32 then len - produced else 32;
        Copy(buf, produced, block[..chunk]);
        TakeMore(SqueezeBlocks(z, View(), counter), block, chunk);
        produced := produced + chunk;
        counter := counter + 1;
      }
      out := buf[..];
      Ratchet();
    }

    method Block(i: nat) returns (block: Key)
      ensures block == SqueezeBlock(z, View(), i)
    {
      block := z.hmac(key, Ctr.BigEndian(i, 4) + input + [1]);
    }
  }

  // ---------------------------------------------------------------- usernames

  /// The position of the first '.'; |s| when there is none.
  function IndexOfDot(s: bytes): (i: nat)
    ensures i <= |s|
  {
    if s == [] then 0 else if s[0] == 46 then 0 else 1 + IndexOfDot(s[1..])
  }

  datatype Parts = Parts(nickname: bytes, discriminator: u64)

  /// Nickname and discriminator, 0 when there is none.
  function Split(z: Group, username: bytes): Result<Parts> {
    var dot := IndexOfDot(username);
    if dot == |username| then Ok(Parts(username, 0))
    else
      var d := z.parse(username[dot + 1..]);
      if d.None? then Err(InvalidArgument) else Ok(Parts(username[..dot], d.value))
  }

  predicate AllNicknameChars(s: bytes) {
    forall i :: 0 <= i < |s| ==> NicknameChar(s[i])
  }

  function S1(z: Group, lc: bytes, discriminator: u64): Scalar {
    Reduce(z.sha512(lc + [0] + Ctr.BigEndian(discriminator, 8)))
  }

  /// The hash point of a lower-cased nickname and a discriminator.
  function HashPoint(z: Group, lc: bytes, discriminator: u64): Result<Key> {
    Combine(z, S1(z, lc, discriminator), NicknameNumber(lc), discriminator)
  }

  /// UsernameHash.compute
  function Compute(z: Group, username: bytes): Result<Key> {
    if |username| < 3 || |username| > 32 then Err(InvalidArgument)
    else
      var p :- Split(z, username);
      if !AllNicknameChars(p.nickname) || p.nickname == [] || IsDigit(p.nickname[0]) then Err(InvalidArgument)
      else HashPoint(z, Lower(p.nickname), p.discriminator)
  }

  /// UsernameHash.compute, with its validation and lower-casing loops.
  method ComputeHash(z: Group, username: bytes) returns (r: Result<Key>)
    ensures r == Compute(z, username)
  {
    hide Times, LittleEndian, FromLittleEndian, Combine, S1, NicknameNumber, Split, Zeros;
    if |username| < 3 || |username| > 32 {
      return Err(InvalidArgument);
    }
    var p := Split(z, username);
    if p.Err? {
      return Err(p.error);
    }
    SplitShorter(z, username);
    var nickname := p.value.nickname;
    for i := 0 to |nickname|
      invariant forall j :: 0 <= j < i ==> NicknameChar(nickname[j])
    {
      if !NicknameChar(nickname[i]) {
        return Err(InvalidArgument);
      }
    }
    if nickname == [] || IsDigit(nickname[0]) {
      return Err(InvalidArgument);
    }
    var buf := new byte[32];
    for i := 0 to |nickname|
      invariant forall j :: 0 <= j < i ==> buf[j] == ToLower(nickname[j])
    {
      buf[i] := ToLower(nickname[i]);
    }
    var lc := buf[..|nickname|];
    assert lc == Lower(nickname);
    var s2 := MakeS2(lc);
    NumberIsScalar(lc);
    EncodeRoundTrip(NicknameNumber(lc));
    var s3 := S3(p.value.discriminator);
    S3Is(p.value.discriminator);
    r := Combine(z, S1(z, lc, p.value.discriminator), FromLittleEndian(s2), FromLittleEndian(s3));
  }

  /// splitUsername: no check of the length; a nickname that the buffer cannot hold traps.
  function SplitLower(z: Group, username: bytes): Result<Parts> {
    var p :- Split(z, username);
    if !AllNicknameChars(p.nickname) then Err(InvalidArgument)
    else if |p.nickname| > 32 then Err(Panic)
    else Ok(Parts(Lower(p.nickname), p.discriminator))
  }

  function StatementBytes(): bytes {
    Ascii("username_hash") + [0] + Ascii("username_sha_scalar") + [0] + Ascii("G1") + [0]
    + Ascii("nickname_scalar") + [0] + Ascii("G2") + [0] + Ascii("discriminator_scalar") + [0] + Ascii("G3") + [0] + [0]
  }

  function Domain(): bytes {
    Ascii("POKSHO_Ristretto_SHOHMACSHA256")
  }

  /// The transcript after the statement, the generators and the hash.
  function Transcript(z: Group, hash: Key): ShoState {
    Ratcheted(z, Absorbed(Absorbed(Absorbed(Absorbed(Absorbed(ShoStart(z, Domain()), StatementBytes()), z.g1), z.g2), z.g3), hash))
  }

  /// The challenge for a commitment.
  function Challenge(z: Group, hash: Key, commitment: Key): Scalar {
    Reduce(Squeezed(z, Ratcheted(z, Absorbed(Absorbed(Transcript(z, hash), commitment), hash)), 64))
  }

  datatype Triple = Triple(a: Scalar, b: Scalar, c: Scalar)

  /// The synthetic nonces.
  function Nonces(z: Group, hash: Key, randomness: Key, s: Triple): Triple {
    var st := Absorbed(Absorbed(Absorbed(Absorbed(Transcript(z, hash), randomness), Encode(s.a)), Encode(s.b)), Encode(s.c));
    var out := Squeezed(z, Ratcheted(z, Absorbed(Ratcheted(z, st), hash)), 192);
    Triple(Reduce(out[..64]), Reduce(out[64..128]), Reduce(out[128..]))
  }

  function Respond(nonce: Scalar, secret: Scalar, challenge: Scalar): Scalar {
    (nonce + secret * challenge % ORDER) % ORDER
  }

  function Responses(n: Triple, s: Triple, challenge: Scalar): Triple {
    Triple(Respond(n.a, s.a, challenge), Respond(n.b, s.b, challenge), Respond(n.c, s.c, challenge))
  }

  function ProofBytes(challenge: Scalar, r: Triple): bytes {
    Encode(challenge) + Encode(r.a) + Encode(r.b) + Encode(r.c)
  }

  lemma NumberIsScalar(lc: bytes)
    requires |lc| <= 32
    ensures NicknameNumber(lc) < ORDER
  {
    NoWrap(lc);
  }

  function Secrets(z: Group, p: Parts): Triple
    requires |p.nickname| <= 32
  {
    NumberIsScalar(p.nickname);
    Triple(S1(z, p.nickname, p.discriminator), NicknameNumber(p.nickname), p.discriminator)
  }

  function ProveSecrets(z: Group, s: Triple, randomness: Key): Result<bytes> {
    var hash :- Combine(z, s.a, s.b, s.c);
    var n := Nonces(z, hash, randomness, s);
    var commitment :- Combine(z, n.a, n.b, n.c);
    var challenge := Challenge(z, hash, commitment);
    Ok(ProofBytes(challenge, Responses(n, s, challenge)))
  }

  /// usernameProof
  function Prove(z: Group, username: bytes, randomness: Key): Result<bytes> {
    var p :- SplitLower(z, username);
    ProveSecrets(z, Secrets(z, p), randomness)
  }

  /// usernameVerify
  function Verify(z: Group, hash: Key, proof: bytes): Result<bool> {
    if |proof| != 128 || !z.valid(hash) then Ok(false)
    else
      var part :- Combine(z, FromLittleEndian(proof[32..64]), FromLittleEndian(proof[64..96]), FromLittleEndian(proof[96..]));
      var scaled :- Mul(z, hash, FromLittleEndian(proof[..32]));
      Ok(proof[..32] == Encode(Challenge(z, hash, z.add(part, z.neg(scaled)))))
  }

  /// The nonces, from a copy of the transcript.
  method DrawNonces(sho2: Sho, hash: Key, randomness: Key, s: Triple) returns (n: Triple)
    requires sho2.View() == Transcript(sho2.z, hash)
    modifies sho2
    ensures n == Nonces(sho2.z, hash, randomness, s)
  {
    hide Encode, Squeezed, Reduce, Transcript;
    sho2.Absorb(randomness);
    sho2.Absorb(Encode(s.a));
    sho2.Absorb(Encode(s.b));
    sho2.Absorb(Encode(s.c));
    sho2.Ratchet();
    sho2.AbsorbAndRatchet(hash);
    var bytes := sho2.SqueezeAndRatchet(192);
    n := Triple(Reduce(bytes[..64]), Reduce(bytes[64..128]), Reduce(bytes[128..]));
  }

  method UsernameProof(z: Group, username: bytes, randomness: Key) returns (r: Result<bytes>)
    ensures r == Prove(z, username, randomness)
  {
    hide Times, LittleEndian, FromLittleEndian, Squeezed, Combine, StatementBytes, Domain, S1, NicknameNumber, Split, Nonces, Reduce;
    var p := SplitLower(z, username);
    if p.Err? {
      return Err(p.error);
    }
    var s := Secrets(z, p.value);
    var hash := Combine(z, s.a, s.b, s.c);
    if hash.Err? {
      return Err(hash.error);
    }
    var sho := new Sho(z, Domain());
    sho.Absorb(StatementBytes());
    sho.Absorb(z.g1);
    sho.Absorb(z.g2);
    sho.Absorb(z.g3);
    sho.Absorb(hash.value);
    sho.Ratchet();
    var sho2 := new Sho.Clone(sho);
    var n := DrawNonces(sho2, hash.value, randomness, s);
    var commitment := Combine(z, n.a, n.b, n.c);
    if commitment.Err? {
      return Err(commitment.error);
    }
    sho.Absorb(commitment.value);
    sho.AbsorbAndRatchet(hash.value);
    var wide := sho.SqueezeAndRatchet(64);
    var challenge := Reduce(wide);
    r := Ok(ProofBytes(challenge, Responses(n, s, challenge)));
  }

  method UsernameVerify(z: Group, hash: Key, proof: bytes) returns (r: Result<bool>)
    ensures r == Verify(z, hash, proof)
  {
    hide Times, LittleEndian, FromLittleEndian, Squeezed, Combine, StatementBytes, Domain;
    if |proof| != 128 || !z.valid(hash) {
      return Ok(false);
    }
    var part := Combine(z, FromLittleEndian(proof[32..64]), FromLittleEndian(proof[64..96]), FromLittleEndian(proof[96..]));
    if part.Err? {
      return Err(part.error);
    }
    var scaled := Mul(z, hash, FromLittleEndian(proof[..32]));
    if scaled.Err? {
      return Err(scaled.error);
    }
    var commitment := z.add(part.value, z.neg(scaled.value));
    var sho := new Sho(z, Domain());
    sho.Absorb(StatementBytes());
    sho.Absorb(z.g1);
    sho.Absorb(z.g2);
    sho.Absorb(z.g3);
    sho.Absorb(hash);
    sho.Ratchet();
    sho.Absorb(commitment);
    sho.AbsorbAndRatchet(hash);
    var wide := sho.SqueezeAndRatchet(64);
    r := Ok(proof[..32] == Encode(Reduce(wide)));
  }

  // ---------------------------------------------------------------- completeness

  /// r G == n G + c (s G) for a response r.
  lemma ResponsePoint(z: Group, n: Scalar, s: Scalar, c: Scalar, p: Key)
    requires GroupLaw(z) && z.valid(p)
    ensures Times(z, Respond(n, s, c), p) == z.add(Times(z, n, p), Times(z, c, Times(z, s, p)))
  {
    hide GroupLaw, Times;
    TimesReduced(z, n + s * c % ORDER, p);
    TimesSum(z, n, s * c % ORDER, p);
    assert Product(s, c) == s * c;
    TimesReduced(z, Product(s, c), p);
    TimesProduct(z, s, c, p);
  }

  /// The scaled combination of the secrets.
  lemma ScaledCombination(z: Group, s: Triple, c: Scalar)
    requires GroupLaw(z)
    ensures Times(z, c, Combination(z, s.a, s.b, s.c))
         == z.add(z.add(Times(z, c, Times(z, s.a, z.g1)), Times(z, c, Times(z, s.b, z.g2))), Times(z, c, Times(z, s.c, z.g3)))
  {
    hide GroupLaw, Times;
    ValidConstants(z);
    TimesValid(z, s.a, z.g1);
    TimesValid(z, s.b, z.g2);
    TimesValid(z, s.c, z.g3);
    var p, q, r := Times(z, s.a, z.g1), Times(z, s.b, z.g2), Times(z, s.c, z.g3);
    Closed(z, p, q);
    TimesAdd(z, c, z.add(p, q), r);
    TimesAdd(z, c, p, q);
  }

  /// (p + x) + (q + y) + (r + w) - (x + y + w) == p + q + r
  lemma Cancels(z: Group, p: Key, q: Key, r: Key, x: Key, y: Key, w: Key)
    requires GroupLaw(z) && z.valid(p) && z.valid(q) && z.valid(r) && z.valid(x) && z.valid(y) && z.valid(w)
    ensures z.add(z.add(z.add(z.add(p, x), z.add(q, y)), z.add(r, w)), z.neg(z.add(z.add(x, y), w)))
         == z.add(z.add(p, q), r)
  {
    hide GroupLaw;
    Closed(z, p, q);
    Closed(z, x, y);
    Exchange(z, p, x, q, y);
    Exchange(z, z.add(p, q), z.add(x, y), r, w);
    var kept, scaled := z.add(z.add(p, q), r), z.add(z.add(x, y), w);
    Closed(z, z.add(p, q), r);
    Closed(z, z.add(x, y), w);
    Opposite(z, scaled);
    Assoc(z, kept, scaled, z.neg(scaled));
    Closed(z, kept, kept);
  }

  /// The commitment that the verifier recomputes is the prover's.
  lemma SameCommitment(z: Group, n: Triple, s: Triple, c: Scalar)
    requires GroupLaw(z)
    ensures var r := Responses(n, s, c);
      z.add(Combination(z, r.a, r.b, r.c), z.neg(Times(z, c, Combination(z, s.a, s.b, s.c)))) == Combination(z, n.a, n.b, n.c)
  {
    hide GroupLaw, Times, Respond;
    ValidConstants(z);
    ResponsePoint(z, n.a, s.a, c, z.g1);
    ResponsePoint(z, n.b, s.b, c, z.g2);
    ResponsePoint(z, n.c, s.c, c, z.g3);
    ScaledCombination(z, s, c);
    TimesValid(z, n.a, z.g1);
    TimesValid(z, n.b, z.g2);
    TimesValid(z, n.c, z.g3);
    TimesValid(z, s.a, z.g1);
    TimesValid(z, s.b, z.g2);
    TimesValid(z, s.c, z.g3);
    TimesValid(z, c, Times(z, s.a, z.g1));
    TimesValid(z, c, Times(z, s.b, z.g2));
    TimesValid(z, c, Times(z, s.c, z.g3));
    Cancels(z, Times(z, n.a, z.g1), Times(z, n.b, z.g2), Times(z, n.c, z.g3),
            Times(z, c, Times(z, s.a, z.g1)), Times(z, c, Times(z, s.b, z.g2)), Times(z, c, Times(z, s.c, z.g3)));
  }

  /// What a proof of these secrets reads back as.
  lemma ProofParts(c: Scalar, r: Triple)
    ensures var proof := ProofBytes(c, r);
      && |proof| == 128 && proof[..32] == Encode(c)
      && FromLittleEndian(proof[..32]) == c && FromLittleEndian(proof[32..64]) == r.a
      && FromLittleEndian(proof[64..96]) == r.b && FromLittleEndian(proof[96..]) == r.c
  {
    hide LittleEndian, FromLittleEndian;
    var proof := ProofBytes(c, r);
    assert proof[..32] == Encode(c) && proof[32..64] == Encode(r.a) && proof[64..96] == Encode(r.b) && proof[96..] == Encode(r.c);
    EncodeRoundTrip(c);
    EncodeRoundTrip(r.a);
    EncodeRoundTrip(r.b);
    EncodeRoundTrip(r.c);
  }

  /// When the verifier's multiplications avoid the identity.
  predicate Verifiable(z: Group, hash: Key, proof: bytes)
    requires |proof| == 128
  {
    && NoIdentity(z, FromLittleEndian(proof[32..64]), FromLittleEndian(proof[64..96]), FromLittleEndian(proof[96..]))
    && Times(z, FromLittleEndian(proof[..32]), hash) != z.zero
  }

  /// A proof is accepted against the hash of its secrets, exactly unless one of the verifier's
  /// multiplications gives the identity, which is then its error.
  lemma SecretsVerify(z: Group, s: Triple, randomness: Key)
    requires GroupLaw(z)
    ensures var hash := Combine(z, s.a, s.b, s.c);
      var proof := ProveSecrets(z, s, randomness);
      proof.Ok? ==>
        && hash.Ok? && |proof.value| == 128
        && Verify(z, hash.value, proof.value) == if Verifiable(z, hash.value, proof.value) then Ok(true) else Err(IdentityElement)
  {
    hide GroupLaw, Times, LittleEndian, FromLittleEndian, Combine, Nonces, Challenge, Respond, Combination, NoIdentity;
    var proof := ProveSecrets(z, s, randomness);
    if proof.Ok? {
      CombineIs(z, s.a, s.b, s.c);
      var hash := Combination(z, s.a, s.b, s.c);
      var n := Nonces(z, hash, randomness, s);
      CombineIs(z, n.a, n.b, n.c);
      var c := Challenge(z, hash, Combination(z, n.a, n.b, n.c));
      var r := Responses(n, s, c);
      ProofParts(c, r);
      CombineIs(z, r.a, r.b, r.c);
      SameCommitment(z, n, s, c);
    }
  }

  /// For every valid username and randomness: the proof verifies against the username's hash, unless
  /// a multiplication gives the identity.
  lemma Complete(z: Group, username: bytes, randomness: Key)
    requires GroupLaw(z) && Compute(z, username).Ok?
    ensures var hash := Compute(z, username).value;
      var proof := Prove(z, username, randomness);
      && (proof.Err? ==> proof.error == IdentityElement)
      && (proof.Ok? ==>
            |proof.value| == 128
            && Verify(z, hash, proof.value) == if Verifiable(z, hash, proof.value) then Ok(true) else Err(IdentityElement))
  {
    hide GroupLaw, Combine, Nonces, Challenge, Responses, Verify, Verifiable, S1, NicknameNumber;
    var p := Split(z, username).value;
    SplitShorter(z, username);
    var s := Secrets(z, Parts(Lower(p.nickname), p.discriminator));
    SecretsVerify(z, s, randomness);
    var hash := Combine(z, s.a, s.b, s.c).value;
    CombineIs(z, s.a, s.b, s.c);
    var n := Nonces(z, hash, randomness, s);
    CombineIs(z, n.a, n.b, n.c);
  }

  lemma SplitShorter(z: Group, username: bytes)
    ensures Split(z, username).Ok? ==> |Split(z, username).value.nickname| <= |username|
  {
  }

  /// Usernames with the same second and third scalar are the same but for letter case and the way
  /// the discriminator is written.
  lemma SameScalars(z: Group, u: bytes, v: bytes)
    requires Compute(z, u).Ok? && Compute(z, v).Ok?
    requires var p, q := Split(z, u).value, Split(z, v).value;
      Encode(NicknameNumber(Lower(p.nickname))) == Encode(NicknameNumber(Lower(q.nickname)))
      && S3(p.discriminator) == S3(q.discriminator)
    ensures var p, q := Split(z, u).value, Split(z, v).value;
      Lower(p.nickname) == Lower(q.nickname) && p.discriminator == q.discriminator
  {
    hide NicknameNumber, LittleEndian, Combine, S1;
    var p, q := Split(z, u).value, Split(z, v).value;
    SplitShorter(z, u);
    SplitShorter(z, v);
    LowerCanonical(p.nickname);
    LowerCanonical(q.nickname);
    ScalarsDetermine(Lower(p.nickname), p.discriminator, Lower(q.nickname), q.discriminator);
  }

  lemma LowerCanonical(s: bytes)
    requires AllNicknameChars(s) && s != [] && !IsDigit(s[0])
    ensures Canonical(Lower(s))
  {
  }
}
