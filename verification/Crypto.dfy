/// The primitives the library takes from the standard library, as parameters, with the laws
/// that the protocols rely on; and HKDF (RFC 5869), which is built here from HMAC.
module Crypto {
  import opened Bytes

  /// A 64-byte XEdDSA signature.
  type Signature = s: bytes | |s| == 64 witness Zeros(64)

  /// The length of an ML-KEM-1024 ciphertext.
  const KEM_CIPHERTEXT: nat := 1568

  type KemCiphertext = s: bytes | |s| == KEM_CIPHERTEXT witness Zeros(KEM_CIPHERTEXT)

  /// What ML-KEM encapsulation returns.
  datatype Encapsulation = Encapsulation(ciphertext: KemCiphertext, secret: Key)

  /// States and messages of the post-quantum ratchet: far shorter than 4 GiB.
  type Chunk = s: bytes | |s| < TWO32

  datatype Suite = Suite(
    pub: Key -> Key,                              // X25519 public key of a private key
    dh: (Key, Key) -> Option<Key>,                // X25519(private, public); None is the identity error
    sign: (Key, bytes, bytes) -> Signature,       // private key, message, randomness
    verify: (Key, bytes, Signature) -> bool,      // public key, message, signature
    hmac: (bytes, bytes) -> Key,                  // HMAC-SHA256(key, data)
    encrypt: (Key, Block) -> Block,               // AES-256, one block
    decrypt: (Key, Block) -> Block,
    seal: (Key, bytes) -> bytes,                  // AES-256-GCM-SIV with the zero nonce and no data
    open: (Key, bytes) -> Option<bytes>,
    kemPub: bytes -> bytes,                       // ML-KEM-1024
    encaps: (bytes, Key) -> Encapsulation,        // public key, seed
    decaps: (bytes, bytes) -> Key,                // secret key, ciphertext
    pqInit: (Key, bool) -> Chunk,                 // SPQR: first state of the initiator or the responder
    pqSend: (bytes, bytes) -> Result<PqSent>,     // state, randomness
    pqReceive: (bytes, bytes) -> Result<(Chunk, Option<Key>)> // state, message
  )

  /// What a step of the post-quantum ratchet gives: the next state and the key of the message.
  datatype PqSent = PqSent(state: Chunk, message: Chunk, key: Option<Key>)
  datatype PqReceived = PqReceived(state: bytes, key: Option<Key>)

  // ---------------------------------------------------------------- laws

  /// Diffie-Hellman agreement is symmetric.
  ghost predicate DhLaw(s: Suite) {
    forall a: Key, b: Key :: s.dh(a, s.pub(b)) == s.dh(b, s.pub(a))
  }

  /// Genuine signatures verify.
  ghost predicate SignLaw(s: Suite) {
    forall k: Key, m: bytes, r: bytes :: s.verify(s.pub(k), m, s.sign(k, m, r))
  }

  /// The block cipher is a permutation.
  ghost predicate BlockLaw(s: Suite) {
    && (forall k: Key, b: Block :: s.decrypt(k, s.encrypt(k, b)) == b)
    && (forall k: Key, b: Block :: s.encrypt(k, s.decrypt(k, b)) == b)
  }

  /// Sealing adds a 16-byte tag, and opening undoes it.
  ghost predicate SealLaw(s: Suite) {
    forall k: Key, m: bytes :: s.open(k, s.seal(k, m)) == Some(m) && |s.seal(k, m)| == |m| + 16
  }

  /// Decapsulation undoes encapsulation.
  ghost predicate KemLaw(s: Suite) {
    forall sk: bytes, seed: Key ::
      s.decaps(sk, s.encaps(s.kemPub(sk), seed).ciphertext) == s.encaps(s.kemPub(sk), seed).secret
  }

  ghost predicate Lawful(s: Suite) {
    DhLaw(s) && SignLaw(s) && BlockLaw(s) && SealLaw(s) && KemLaw(s)
  }

  function XorKeys(a: Key, b: Key): Key {
    XorBytes(a, b)
  }

  /// The laws are consistent: a toy suite meets them all.
  function Toy(): Suite {
    Suite((k: Key) => k,
          (a: Key, b: Key) => Some(XorKeys(a, b)),
          (k: Key, m: bytes, r: bytes) => Zeros(64),
          (k: Key, m: bytes, g: Signature) => true,
          (k: bytes, m: bytes) => Zeros(32),
          (k: Key, b: Block) => b,
          (k: Key, b: Block) => b,
          (k: Key, m: bytes) => m + Zeros(16),
          (k: Key, c: bytes) => if |c| < 16 then None else Some(c[..|c| - 16]),
          (sk: bytes) => sk,
          (pk: bytes, seed: Key) => Encapsulation(seed + Zeros(1536), seed),
          (sk: bytes, c: bytes) => if |c| >= 32 then c[..32] else Zeros(32),
          (k: Key, initiator: bool) => k,
          (state: bytes, r: bytes) => Ok(PqSent([], [], None)),
          (state: bytes, m: bytes) => Ok(([], None)))
  }

  lemma ToyIsLawful()
    ensures Lawful(Toy())
  {
    var s := Toy();
    forall a: Key, b: Key ensures s.dh(a, s.pub(b)) == s.dh(b, s.pub(a)) {
      forall i | 0 <= i < 32 ensures XorKeys(a, b)[i] == XorKeys(b, a)[i] {
        XorInvolution(a[i], b[i]);
      }
      assert XorKeys(a, b) == XorKeys(b, a);
    }
    forall seed: Key ensures (seed + Zeros(1536))[..32] == seed {
    }
    forall k: Key, m: bytes ensures s.open(k, s.seal(k, m)) == Some(m) {
      assert (m + Zeros(16))[..|m|] == m;
    }
  }

  // ---------------------------------------------------------------- SPQR, src/spqr.zig

  /// An empty state is that of a session without the post-quantum ratchet.
  function SpqrSend(s: Suite, state: bytes, random: bytes): Result<PqSent> {
    if state == [] then Ok(PqSent([], [], None)) else s.pqSend(state, random)
  }

  function SpqrReceive(s: Suite, state: bytes, message: Option<bytes>): Result<PqReceived> {
    if state == [] then Ok(PqReceived([], None))
    else if message.None? || message.value == [] then Ok(PqReceived(state, None))
    else
      var r :- s.pqReceive(state, message.value);
      Ok(PqReceived(r.0, r.1))
  }

  // ---------------------------------------------------------------- HKDF, RFC 5869

  function Extract(s: Suite, salt: bytes, ikm: bytes): Key {
    s.hmac(salt, ikm)
  }

  /// T(i) of section 2.3 of RFC 5869, for i >= 1.
  function T(s: Suite, prk: Key, info: bytes, i: nat): Key
    requires 1 <= i <= 255
  {
    if i == 1 then s.hmac(prk, info + [1])
    else s.hmac(prk, T(s, prk, info, i - 1) + info + [i as byte])
  }

  /// T(1) || ... || T(n).
  function Blocks(s: Suite, prk: Key, info: bytes, n: nat): (b: bytes)
    requires n <= 255
    ensures |b| == 32 * n
  {
    if n == 0 then [] else Blocks(s, prk, info, n - 1) + T(s, prk, info, n)
  }

  function BlockCount(len: nat): nat {
    (len + 31) / 32
  }

  /// The first len bytes of T(1) || T(2) || ...
  function Expand(s: Suite, prk: Key, info: bytes, len: nat): (out: bytes)
    requires len <= 255 * 32
    ensures |out| == len
  {
    Blocks(s, prk, info, BlockCount(len))[..len]
  }

  /// More blocks only append.
  lemma {:induction false} BlocksPrefix(s: Suite, prk: Key, info: bytes, m: nat, n: nat)
    requires m <= n <= 255
    ensures Blocks(s, prk, info, m) <= Blocks(s, prk, info, n)
    decreases n - m
  {
    if m < n {
      BlocksPrefix(s, prk, info, m + 1, n);
    }
  }

  /// Outputs of up to three blocks, by the authentication codes alone.
  lemma ExpandIs(s: Suite, prk: Key, info: bytes)
    ensures var t1 := s.hmac(prk, info + [1]);
      var t2 := s.hmac(prk, t1 + info + [2]);
      var t3 := s.hmac(prk, t2 + info + [3]);
      && Expand(s, prk, info, 16) == t1[..16] && Expand(s, prk, info, 32) == t1
      && Expand(s, prk, info, 64) == t1 + t2
      && Expand(s, prk, info, 80) == t1 + t2 + t3[..16] && Expand(s, prk, info, 96) == t1 + t2 + t3
  {
    assert T(s, prk, info, 2) == s.hmac(prk, T(s, prk, info, 1) + info + [2]);
    assert T(s, prk, info, 3) == s.hmac(prk, T(s, prk, info, 2) + info + [3]);
    hide T;
    assert Blocks(s, prk, info, 1) == T(s, prk, info, 1);
    assert Blocks(s, prk, info, 2) == T(s, prk, info, 1) + T(s, prk, info, 2);
    assert Blocks(s, prk, info, 3) == T(s, prk, info, 1) + T(s, prk, info, 2) + T(s, prk, info, 3);
  }

  /// hkdfV2: the expand loop over an output buffer.  The one-byte counter is incremented after
  /// every block, so it traps (ok is false) exactly when a 255th block is needed.
  method HkdfV2(s: Suite, ikm: bytes, info: bytes, out: array<byte>) returns (ok: bool)
    modifies out
    ensures ok <==> out.Length <= 254 * 32
    ensures ok ==> out[..] == Expand(s, Extract(s, [], ikm), info, out.Length)
  {
    hide T;
    var prk := Extract(s, [], ikm);
    var counter: nat := 1;
    var prev: Key := Zeros(32);
    var produced := 0;
    while produced < out.Length
      invariant 1 <= counter <= 255
      invariant produced == if 32 * (counter - 1) <= out.Length then 32 * (counter - 1) else out.Length
      invariant produced == out.Length ==> counter - 1 == BlockCount(out.Length)
      invariant counter > 1 ==> prev == T(s, prk, info, counter - 1)
      invariant out[..produced] == Blocks(s, prk, info, counter - 1)[..produced]
    {
      var chained := if produced > 0 then prev else [];
      var block: Key := s.hmac(prk, chained + info + [counter as byte]);
      HkdfStep(s, prk, info, counter, prev, chained);
      prev := block;
      var chunk := if out.Length - produced < 32 then out.Length - produced else 32;
      Copy(out, produced, block[..chunk]);
      TakeMore(Blocks(s, prk, info, counter - 1), block, chunk);
      produced := produced + chunk;
      if counter == 255 {
        return false;
      }
      counter := counter + 1;
    }
    ok := true;
  }

  lemma TakeMore(blocks: bytes, block: bytes, chunk: nat)
    requires chunk <= |block|
    ensures (blocks + block)[..|blocks| + chunk] == blocks + block[..chunk]
  {
  }

  lemma HkdfStep(s: Suite, prk: Key, info: bytes, i: nat, prev: Key, chained: bytes)
    requires 1 <= i <= 255
    requires i > 1 ==> prev == T(s, prk, info, i - 1) && chained == prev
    requires i == 1 ==> chained == []
    ensures s.hmac(prk, chained + info + [i as byte]) == T(s, prk, info, i)
  {
    if i == 1 {
      assert chained + info + [1] == info + [1];
    }
  }
}
