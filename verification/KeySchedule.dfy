/// The keys of sessions and groups told from HMAC and Diffie-Hellman alone: src/kdf.zig with the
/// extraction and expansion of RFC 5869 carried out, and sections 3.3 of the X3DH and 5.2 of the
/// Double Ratchet specification.
module KeySchedule {
  import opened Bytes
  import opened Crypto
  import opened Kdf
  import opened Ratchet
  import X3dh
  import Group

  /// Two keys from one secret.
  predicate TwoFrom(s: Suite, prk: Key, info: bytes, a: Key, b: Key) {
    a == s.hmac(prk, info + [1]) && b == s.hmac(prk, a + info + [2])
  }

  lemma Halves(a: Key, b: Key)
    ensures (a + b)[..32] == a && (a + b)[32..] == b
  {
  }

  lemma Thirds(a: Key, b: Key, c: bytes)
    ensures (a + b + c)[..32] == a && (a + b + c)[32..64] == b && (a + b + c)[64..] == c
    ensures (a + b + c)[32..48] == b[..16]
  {
  }

  /// A DH ratchet step: it fails exactly when the agreement is the identity element.
  lemma RootStepIs(s: Suite, root: Key, theirs: Key, ours: Key)
    ensures var shared := s.dh(ours, theirs);
      var r := RootStep(s, root, theirs, ours);
      && (shared.None? ==> r == Err(IdentityElement))
      && (shared.Some? ==> r.Ok? && TwoFrom(s, s.hmac(root, shared.value), Ascii("WhisperRatchet"), r.value.root, r.value.chain))
  {
    hide Expand, Ascii;
    var shared := s.dh(ours, theirs);
    if shared.Some? {
      var prk, info := s.hmac(root, shared.value), Ascii("WhisperRatchet");
      ExpandIs(s, prk, info);
      Halves(s.hmac(prk, info + [1]), s.hmac(prk, s.hmac(prk, info + [1]) + info + [2]));
    }
  }

  /// Message n of a chain: n steps with 2 from the first chain key, one with 1, and three blocks.
  lemma MessageKeysAre(s: Suite, start: Key, n: u32, pqr: Option<Key>)
    ensures ChainKeyAt(s, start, 0) == start
    ensures n > 0 ==> ChainKeyAt(s, start, n) == s.hmac(ChainKeyAt(s, start, n - 1), [2])
    ensures var prk := s.hmac(if pqr.Some? then pqr.value else Zeros(32), s.hmac(ChainKeyAt(s, start, n), [1]));
      var info := Ascii("WhisperMessageKeys");
      var k := KeysOfMessage(s, start, n, pqr);
      && TwoFrom(s, prk, info, k.keys.cipher, k.keys.mac)
      && k.keys.iv == s.hmac(prk, k.keys.mac + info + [3])[..16]
      && k.counter == n
  {
    hide Expand, Ascii;
    var prk := s.hmac(if pqr.Some? then pqr.value else Zeros(32), s.hmac(ChainKeyAt(s, start, n), [1]));
    var info := Ascii("WhisperMessageKeys");
    ExpandIs(s, prk, info);
    var t1 := s.hmac(prk, info + [1]);
    var t2 := s.hmac(prk, t1 + info + [2]);
    Thirds(t1, t2, s.hmac(prk, t2 + info + [3])[..16]);
  }

  /// The agreements of X3DH, in order, after 32 bytes 0xFF; the one-time key and the encapsulated
  /// secret are appended when there are any.
  lemma AgreedKeysAre(s: Suite, p: X3dh.AliceParams)
    requires X3dh.Alice(s, p).Ok?
    ensures s.dh(p.identity, p.theirSignedPreKey).Some? && s.dh(p.base, p.theirIdentity).Some? && s.dh(p.base, p.theirSignedPreKey).Some?
    ensures p.theirOneTime.Some? ==> s.dh(p.base, p.theirOneTime.value).Some?
    ensures var secret := seq(32, i => 0xFF as byte)
                          + s.dh(p.identity, p.theirSignedPreKey).value
                          + s.dh(p.base, p.theirIdentity).value
                          + s.dh(p.base, p.theirSignedPreKey).value
                          + (if p.theirOneTime.Some? then s.dh(p.base, p.theirOneTime.value).value else [])
                          + (if p.theirKyber.Some? then s.encaps(p.theirKyber.value, p.seed).secret else []);
      var prk := s.hmac(Zeros(32), secret);
      var info := if p.theirKyber.Some? then Ascii("WhisperText_X25519_SHA-256_CRYSTALS-KYBER-1024") else Ascii("WhisperText");
      var d := X3dh.Alice(s, p).value;
      && TwoFrom(s, prk, info, d.keys.root, d.keys.chain)
      && d.keys.pqr == (if p.theirKyber.Some? then Some(s.hmac(prk, d.keys.chain + info + [3])) else None)
      && d.kyberCiphertext == (if p.theirKyber.Some? then Some(s.encaps(p.theirKyber.value, p.seed).ciphertext) else None)
  {
    hide CreateSessionKeys, Ascii;
    var dh4 := if p.theirOneTime.Some? then Some(s.dh(p.base, p.theirOneTime.value).value) else None;
    var shared: Option<Key> := if p.theirKyber.Some? then Some(s.encaps(p.theirKyber.value, p.seed).secret) else None;
    var secret := X3dh.Secret(s.dh(p.identity, p.theirSignedPreKey).value, s.dh(p.base, p.theirIdentity).value,
                              s.dh(p.base, p.theirSignedPreKey).value, dh4, shared);
    assert seq(32, i => 0xFF as byte) == X3dh.Discontinuity();
    SessionKeysAre(s, secret, p.theirKyber.Some?);
  }

  /// The responder's side: it fails exactly for an identity element, or for a Kyber pre-key without a
  /// ciphertext of the right length; else the same agreements in the same order.
  lemma RespondedKeysAre(s: Suite, p: X3dh.BobParams)
    ensures var r := X3dh.Bob(s, p);
      var agreed := s.dh(p.signedPreKey, p.theirIdentity).Some? && s.dh(p.identity, p.theirBase).Some?
                    && s.dh(p.signedPreKey, p.theirBase).Some? && (p.oneTime.Some? ==> s.dh(p.oneTime.value, p.theirBase).Some?);
      var sized := p.kyber.Some? ==> p.kyberCiphertext.Some? && |p.kyberCiphertext.value| == 1568;
      && (!agreed ==> r == Err(IdentityElement))
      && (agreed && !sized ==> r == Err(InvalidArgument))
      && (agreed && sized ==>
            var secret := seq(32, i => 0xFF as byte)
                          + s.dh(p.signedPreKey, p.theirIdentity).value
                          + s.dh(p.identity, p.theirBase).value
                          + s.dh(p.signedPreKey, p.theirBase).value
                          + (if p.oneTime.Some? then s.dh(p.oneTime.value, p.theirBase).value else [])
                          + (if p.kyber.Some? then s.decaps(p.kyber.value, p.kyberCiphertext.value) else []);
            r == Ok(CreateSessionKeys(s, secret, p.kyber.Some?)))
  {
    hide CreateSessionKeys;
    assert seq(32, i => 0xFF as byte) == X3dh.Discontinuity();
  }

  lemma SessionKeysAre(s: Suite, secret: bytes, pq: bool)
    ensures var prk := s.hmac(Zeros(32), secret);
      var info := if pq then Ascii("WhisperText_X25519_SHA-256_CRYSTALS-KYBER-1024") else Ascii("WhisperText");
      var k := CreateSessionKeys(s, secret, pq);
      TwoFrom(s, prk, info, k.root, k.chain) && k.pqr == if pq then Some(s.hmac(prk, k.chain + info + [3])) else None
  {
    hide Expand, Ascii;
    var prk := s.hmac(Zeros(32), secret);
    var info := if pq then Ascii("WhisperText_X25519_SHA-256_CRYSTALS-KYBER-1024") else Ascii("WhisperText");
    ExpandIs(s, prk, info);
    var t1 := s.hmac(prk, info + [1]);
    var t2 := s.hmac(prk, t1 + info + [2]);
    Halves(t1, t2);
    Thirds(t1, t2, s.hmac(prk, t2 + info + [3]));
  }

  /// Message n of a sender key: n extractions and expansions from the first chain key, then one
  /// with the iteration in little-endian order.
  lemma GroupKeysAre(s: Suite, first: Key, n: u32)
    ensures Group.ChainKeyAt(s, first, 0) == first
    ensures n > 0 ==> Group.ChainKeyAt(s, first, n)
                      == s.hmac(s.hmac(Zeros(32), Group.ChainKeyAt(s, first, n - 1)), Ascii("WhisperGroup") + [1])
    ensures var prk := s.hmac(Zeros(32), Group.ChainKeyAt(s, first, n) + LittleEndian(n, 4));
      var info := Ascii("WhisperGroup");
      var k := SenderKeyDerive(s, n, Group.ChainKeyAt(s, first, n));
      k.cipher == s.hmac(prk, info + [1]) && k.iv == s.hmac(prk, k.cipher + info + [2])[..16]
  {
    hide Expand, Ascii, LittleEndian;
    var info := Ascii("WhisperGroup");
    var prk := s.hmac(Zeros(32), Group.ChainKeyAt(s, first, n) + LittleEndian(n, 4));
    ExpandIs(s, prk, info);
    var t1 := s.hmac(prk, info + [1]);
    var t2 := s.hmac(prk, t1 + info + [2]);
    Thirds(t1, t2, s.hmac(prk, t2 + info + [3])[..16]);
    if n > 0 {
      ExpandIs(s, s.hmac(Zeros(32), Group.ChainKeyAt(s, first, n - 1)), info);
    }
  }
}
