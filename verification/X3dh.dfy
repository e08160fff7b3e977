/// Session key agreement: src/ratchet/alice.zig and src/ratchet/bob.zig, sections 3.3 and 3.4 of
/// the X3DH specification.
module X3dh {
  import opened Bytes
  import opened Crypto
  import opened Kdf

  datatype AliceParams = AliceParams(
    identity: Key,                 // private keys of ours
    base: Key,
    theirIdentity: Key,            // public keys of theirs
    theirSignedPreKey: Key,
    theirOneTime: Option<Key>,
    theirKyber: Option<bytes>,
    seed: Key                      // encapsulation randomness
  )

  datatype BobParams = BobParams(
    identity: Key,
    signedPreKey: Key,
    oneTime: Option<Key>,
    kyber: Option<bytes>,          // secret key
    theirIdentity: Key,
    theirBase: Key,
    kyberCiphertext: Option<bytes>
  )

  datatype Derived = Derived(keys: SessionKeys, kyberCiphertext: Option<bytes>)

  /// 32 bytes 0xFF before the shared secrets.
  function Discontinuity(): bytes {
    seq(32, i => 0xFF)
  }

  function Agree(s: Suite, ours: Key, theirs: Key): Result<Key> {
    var shared := s.dh(ours, theirs);
    if shared.None? then Err(IdentityElement) else Ok(shared.value)
  }

  /// FF..FF || DH1 || DH2 || DH3 [|| DH4] [|| SS]
  function Secret(dh1: Key, dh2: Key, dh3: Key, dh4: Option<Key>, shared: Option<Key>): bytes {
    Discontinuity() + dh1 + dh2 + dh3 + (if dh4.Some? then dh4.value else []) + (if shared.Some? then shared.value else [])
  }

  /// An agreement that is made only with a one-time key.
  function AgreeOneTime(s: Suite, present: bool, ours: Key, theirs: Key): Result<Option<Key>> {
    if !present then Ok(None)
    else
      var k :- Agree(s, ours, theirs);
      Ok(Some(k))
  }

  function Alice(s: Suite, p: AliceParams): Result<Derived> {
    var dh1 :- Agree(s, p.identity, p.theirSignedPreKey);
    var dh2 :- Agree(s, p.base, p.theirIdentity);
    var dh3 :- Agree(s, p.base, p.theirSignedPreKey);
    var dh4 :- AgreeOneTime(s, p.theirOneTime.Some?, p.base, if p.theirOneTime.Some? then p.theirOneTime.value else p.base);
    if p.theirKyber.None? then Ok(Derived(CreateSessionKeys(s, Secret(dh1, dh2, dh3, dh4, None), false), None))
    else
      var enc := s.encaps(p.theirKyber.value, p.seed);
      Ok(Derived(CreateSessionKeys(s, Secret(dh1, dh2, dh3, dh4, Some(enc.secret)), true), Some(enc.ciphertext)))
  }

  function Bob(s: Suite, p: BobParams): Result<SessionKeys> {
    var dh1 :- Agree(s, p.signedPreKey, p.theirIdentity);
    var dh2 :- Agree(s, p.identity, p.theirBase);
    var dh3 :- Agree(s, p.signedPreKey, p.theirBase);
    var dh4 :- AgreeOneTime(s, p.oneTime.Some?, if p.oneTime.Some? then p.oneTime.value else p.identity, p.theirBase);
    if p.kyber.None? then Ok(CreateSessionKeys(s, Secret(dh1, dh2, dh3, dh4, None), false))
    else if p.kyberCiphertext.None? || |p.kyberCiphertext.value| != KEM_CIPHERTEXT then Err(InvalidArgument)
    else Ok(CreateSessionKeys(s, Secret(dh1, dh2, dh3, dh4, Some(s.decaps(p.kyber.value, p.kyberCiphertext.value))), true))
  }

  /// initialize of alice.zig: the secret is appended to piece by piece.
  method AliceInitialize(s: Suite, p: AliceParams) returns (r: Result<Derived>)
    ensures r == Alice(s, p)
  {
    hide CreateSessionKeys, Discontinuity;
    var dh1 := Agree(s, p.identity, p.theirSignedPreKey);
    if dh1.Err? {
      return Err(dh1.error);
    }
    var dh2 := Agree(s, p.base, p.theirIdentity);
    if dh2.Err? {
      return Err(dh2.error);
    }
    var dh3 := Agree(s, p.base, p.theirSignedPreKey);
    if dh3.Err? {
      return Err(dh3.error);
    }
    var secret := Discontinuity();
    secret := secret + dh1.value;
    secret := secret + dh2.value;
    secret := secret + dh3.value;
    ghost var fourth: Option<Key> := None;
    if p.theirOneTime.Some? {
      var dh4 := Agree(s, p.base, p.theirOneTime.value);
      if dh4.Err? {
        return Err(dh4.error);
      }
      secret := secret + dh4.value;
      fourth := Some(dh4.value);
    }
    assert secret == Secret(dh1.value, dh2.value, dh3.value, fourth, None);
    var ciphertext: Option<bytes> := None;
    if p.theirKyber.Some? {
      var enc := s.encaps(p.theirKyber.value, p.seed);
      secret := secret + enc.secret;
      assert secret == Secret(dh1.value, dh2.value, dh3.value, fourth, Some(enc.secret));
      ciphertext := Some(enc.ciphertext);
    }
    r := Ok(Derived(CreateSessionKeys(s, secret, p.theirKyber.Some?), ciphertext));
  }

  method BobInitialize(s: Suite, p: BobParams) returns (r: Result<SessionKeys>)
    ensures r == Bob(s, p)
  {
    hide CreateSessionKeys, Discontinuity;
    var dh1 := Agree(s, p.signedPreKey, p.theirIdentity);
    if dh1.Err? {
      return Err(dh1.error);
    }
    var dh2 := Agree(s, p.identity, p.theirBase);
    if dh2.Err? {
      return Err(dh2.error);
    }
    var dh3 := Agree(s, p.signedPreKey, p.theirBase);
    if dh3.Err? {
      return Err(dh3.error);
    }
    var secret := Discontinuity();
    secret := secret + dh1.value;
    secret := secret + dh2.value;
    secret := secret + dh3.value;
    ghost var fourth: Option<Key> := None;
    if p.oneTime.Some? {
      var dh4 := Agree(s, p.oneTime.value, p.theirBase);
      if dh4.Err? {
        return Err(dh4.error);
      }
      secret := secret + dh4.value;
      fourth := Some(dh4.value);
    }
    assert secret == Secret(dh1.value, dh2.value, dh3.value, fourth, None);
    if p.kyber.Some? {
      if p.kyberCiphertext.None? || |p.kyberCiphertext.value| != KEM_CIPHERTEXT {
        return Err(InvalidArgument);
      }
      var shared := s.decaps(p.kyber.value, p.kyberCiphertext.value);
      secret := secret + shared;
      assert secret == Secret(dh1.value, dh2.value, dh3.value, fourth, Some(shared));
    }
    r := Ok(CreateSessionKeys(s, secret, p.kyber.Some?));
  }

  /// Each side holds the public halves of the other's keys, with or without a one-time pre-key
  /// and a Kyber pre-key.
  predicate Matching(s: Suite, a: AliceParams, b: BobParams) {
    && a.theirIdentity == s.pub(b.identity)
    && a.theirSignedPreKey == s.pub(b.signedPreKey)
    && a.theirOneTime == (if b.oneTime.Some? then Some(s.pub(b.oneTime.value)) else None)
    && a.theirKyber == (if b.kyber.Some? then Some(s.kemPub(b.kyber.value)) else None)
    && b.theirIdentity == s.pub(a.identity)
    && b.theirBase == s.pub(a.base)
  }

  lemma KyberPresent(s: Suite, p: AliceParams)
    ensures Alice(s, p).Ok? ==> (Alice(s, p).value.kyberCiphertext.Some? <==> p.theirKyber.Some?)
  {
    hide CreateSessionKeys, Secret;
  }

  /// Both sides derive the same root, chain and post-quantum keys, in all four cases; and neither
  /// fails where the other does not.
  lemma SameKeys(s: Suite, a: AliceParams, b: BobParams)
    requires DhLaw(s) && KemLaw(s) && Matching(s, a, b)
    requires Alice(s, a).Ok? ==> b.kyberCiphertext == Alice(s, a).value.kyberCiphertext
    ensures Alice(s, a).Ok? ==> Bob(s, b) == Ok(Alice(s, a).value.keys)
    ensures Alice(s, a).Err? ==> Bob(s, b) == Err(IdentityElement) && Alice(s, a) == Err(IdentityElement)
  {
    hide CreateSessionKeys, Secret;
    assert Agree(s, a.identity, a.theirSignedPreKey) == Agree(s, b.signedPreKey, b.theirIdentity);
    assert Agree(s, a.base, a.theirIdentity) == Agree(s, b.identity, b.theirBase);
    assert Agree(s, a.base, a.theirSignedPreKey) == Agree(s, b.signedPreKey, b.theirBase);
    if b.oneTime.Some? {
      assert Agree(s, a.base, a.theirOneTime.value) == Agree(s, b.oneTime.value, b.theirBase);
    }
  }
}
