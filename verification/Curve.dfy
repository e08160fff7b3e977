/// Key encodings (src/curve.zig) and the key derivations of src/kdf.zig.
module Curve {
  import opened Bytes

  /// A serialized public key.
  type PublicBytes = b: bytes | |b| == 33 witness Zeros(33)

  /// 0x05, then the 32 bytes of the key.
  function SerializePublic(k: Key): PublicBytes {
    [5] + k
  }

  /// Longer input is accepted and its excess ignored.
  function DeserializePublic(b: bytes): Result<Key> {
    if |b| < 33 then Err(InvalidKey)
    else if b[0] != 5 then Err(InvalidType)
    else Ok(b[1..33])
  }

  function DeserializePrivate(b: bytes): Result<Key> {
    if |b| < 32 then Err(InvalidKey) else Ok(b[..32])
  }

  lemma PublicRoundTrip(k: Key)
    ensures DeserializePublic(SerializePublic(k)) == Ok(k)
  {
    assert SerializePublic(k)[1..33] == k;
  }

  lemma PrivateRoundTrip(k: Key)
    ensures DeserializePrivate(k) == Ok(k)
  {
    assert k[..32] == k;
  }
}

module Kdf {
  import opened Bytes
  import opened Crypto

  function Ascii(s: string): (b: bytes)
    ensures |b| == |s| && forall i :: 0 <= i < |s| && s[i] < 128 as char ==> b[i] as int == s[i] as int
  {
    seq(|s|, i requires 0 <= i < |s| => (s[i] as int % 256) as byte)
  }

  function DeriveSecrets(s: Suite, ikm: bytes, salt: bytes, info: bytes, len: nat): (out: bytes)
    requires len <= 255 * 32
    ensures |out| == len
  {
    Expand(s, Extract(s, salt, ikm), info, len)
  }

  datatype RootAndChain = RootAndChain(root: Key, chain: Key)

  function CreateChain(s: Suite, root: Key, shared: Key): RootAndChain {
    var out := DeriveSecrets(s, shared, root, Ascii("WhisperRatchet"), 64);
    RootAndChain(out[..32], out[32..])
  }

  datatype SessionKeys = SessionKeys(root: Key, chain: Key, pqr: Option<Key>)

  function CreateSessionKeys(s: Suite, secret: bytes, pq: bool): SessionKeys {
    if pq then
      var out := DeriveSecrets(s, secret, Zeros(32), Ascii("WhisperText_X25519_SHA-256_CRYSTALS-KYBER-1024"), 96);
      SessionKeys(out[..32], out[32..64], Some(out[64..]))
    else
      var out := DeriveSecrets(s, secret, Zeros(32), Ascii("WhisperText"), 64);
      SessionKeys(out[..32], out[32..], None)
  }

  datatype MessageKeys = MessageKeys(cipher: Key, mac: Key, iv: Block)

  function DeriveMessageKeys(s: Suite, seed: Key, pqr: Option<Key>): MessageKeys {
    var out := DeriveSecrets(s, seed, if pqr.Some? then pqr.value else Zeros(32), Ascii("WhisperMessageKeys"), 80);
    MessageKeys(out[..32], out[32..64], out[64..])
  }

  function MessageKeySeed(s: Suite, chain: Key): Key {
    s.hmac(chain, [1])
  }

  function NextChainKey(s: Suite, chain: Key): Key {
    s.hmac(chain, [2])
  }

  datatype SenderKeys = SenderKeys(cipher: Key, iv: Block)

  function SenderKeyDerive(s: Suite, iteration: nat, chain: Key): SenderKeys {
    var out := DeriveSecrets(s, chain + LittleEndian(iteration, 4), Zeros(32), Ascii("WhisperGroup"), 80);
    SenderKeys(out[..32], out[32..48])
  }

  function NextSenderKey(s: Suite, chain: Key): Key {
    DeriveSecrets(s, chain, Zeros(32), Ascii("WhisperGroup"), 32)
  }
}
