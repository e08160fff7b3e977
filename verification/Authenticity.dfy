/// What a session accepts, told from the primitives alone: which MAC decides about a message, which
/// signatures decide about a bundle, and which pre-keys a message uses up.
module Authenticity {
  import opened Bytes
  import opened Crypto
  import opened Kdf
  import opened Curve
  import opened Proto
  import opened Messages
  import opened Ratchet
  import opened SessionBytes
  import opened Session
  import X3dh
  import Cbc

  // ---------------------------------------------------------------- messages

  /// The last eight bytes are the start of the MAC of both identities and all bytes before them.
  predicate MacFits(s: Suite, macKey: Key, sender: Key, receiver: Key, data: bytes) {
    |data| >= 8 && data[|data| - 8..] == s.hmac(macKey, [5] + sender + [5] + receiver + data[..|data| - 8])[..8]
  }

  /// For every state and all data: a message that parses and whose keys are taken opens exactly when
  /// its MAC fits under those keys and its ciphertext is well padded; otherwise it is invalid.
  lemma MacDecides(s: Suite, st: State, data: bytes, sender: Key, receiver: Key, freshKey: Key)
    ensures var r := DecryptWhisper(s, st, data, sender, receiver, freshKey);
      var m := ParseSignal(data);
      && (|data| < 9 ==> r == Err(InvalidMessage))
      && (|data| >= 9 && data[0] / 16 < 3 ==> r == Err(LegacyCiphertextVersion))
      && (m.Err? ==> r == Err(m.error))
      && (m.Ok? ==>
            var taken := TakeSignal(s, st, m.value, freshKey);
            && (taken.Err? ==> r == Err(taken.error))
            && (taken.Ok? ==>
                  var keys, after := taken.value.0.keys, taken.value.1;
                  var fits := MacFits(s, keys.mac, sender, receiver, data);
                  var plaintext := Cbc.Decrypt(s, keys.cipher, keys.iv, m.value.ciphertext);
                  && (!fits ==> r == Err(InvalidMessage))
                  && (fits && plaintext.Err? ==> r == Err(plaintext.error))
                  && (fits && plaintext.Ok? ==> r == Ok((plaintext.value, after)))))
  {
    hide Scan, TakeSignal, Cbc.Decrypt;
    assert [5] + sender + ([5] + receiver) == [5] + sender + [5] + receiver;
  }

  /// A message that parses and whose MAC is not that of the keys which a state has for it.
  predicate Forged(s: Suite, st: State, data: bytes, sender: Key, receiver: Key, freshKey: Key) {
    var m := ParseSignal(data);
    && m.Ok?
    && var taken := TakeSignal(s, st, m.value, freshKey);
       taken.Ok? ==> !MacFits(s, taken.value.0.keys.mac, sender, receiver, data)
  }

  /// It changes no stored session, given to either operation.
  lemma ForgedRefused(s: Suite, us: Local, sessions: Sessions, a: Address, data: bytes, freshKey: Key, wrapped: bytes, keys: PreKeys)
    requires Current(sessions, a).Ok?
    requires var st := Current(sessions, a).value; Forged(s, st, data, st.remoteIdentity, s.pub(us.identity), freshKey)
    ensures var r := DecryptIn(s, us, sessions, a, data, freshKey); r.0.Err? && r.1 == sessions
    ensures var outer := DeserializePreKey(wrapped);
      var r := DecryptPreKeyIn(s, us, sessions, keys, a, true, wrapped, freshKey);
      (outer.Ok? && outer.value.message == data && SameSession(RecordOf(sessions, a), outer.value)) ==>
        (r.0.Err? && r.1 == sessions && r.2 == keys)
  {
    hide ParseSignal, TakeSignal, DecryptWhisper, DeserializePreKey, SameSession;
    var st := Current(sessions, a).value;
    MacDecides(s, st, data, st.remoteIdentity, s.pub(us.identity), freshKey);
  }

  /// What encryption sends ends in that MAC, under the next keys of the sender chain.
  lemma EncryptedWithMac(s: Suite, st: State, identity: Key, plaintext: bytes, random: bytes)
    ensures var r := EncryptWith(s, st, identity, plaintext, random);
      r.Ok? ==>
        && SpqrSend(s, st.pqState, random).Ok? && st.version < 256
        && var pq := SpqrSend(s, st.pqState, random).value;
        && var mac := MessageKeysOf(s, st.senderChain, pq.key).keys.mac;
        && var signal := SignalBytes(s, st, identity, plaintext, pq.message, pq.key);
        && r.value.0 == Wrap(st, identity, signal) && MacFits(s, mac, identity, st.remoteIdentity, signal)
  {
    hide FieldsBytes, Cbc.Encrypt, Wrap, SpqrSend, MessageKeysOf, Advance, SerializePublic;
    if EncryptWith(s, st, identity, plaintext, random).Ok? {
      var pq := SpqrSend(s, st.pqState, random).value;
      var keys := MessageKeysOf(s, st.senderChain, pq.key);
      var m := SignalOf(st, keys, Cbc.Encrypt(s, keys.keys.cipher, keys.keys.iv, plaintext), pq.message);
      MacAtEnd(s, m, identity, st.remoteIdentity, keys.keys.mac);
    }
  }

  lemma MacAtEnd(s: Suite, m: SignalMessage, sender: Key, receiver: Key, macKey: Key)
    ensures var signal := SerializeSignal(s, m, sender, receiver, macKey);
      && |signal| >= 9 && signal[..|signal| - 8] == SignalPart(m)
      && MacFits(s, macKey, sender, receiver, signal)
  {
    hide FieldsBytes;
    var signal := SerializeSignal(s, m, sender, receiver, macKey);
    assert signal[..|signal| - 8] == SignalPart(m);
    assert [5] + sender + ([5] + receiver) == [5] + sender + [5] + receiver;
  }

  // ---------------------------------------------------------------- bundles

  /// The identity key signed the signed pre-key, and the Kyber pre-key if there is one.
  predicate Signed(s: Suite, b: Bundle) {
    && s.verify(b.identity, [5] + b.signedPreKey, b.signedPreKeySignature)
    && (b.kyberKey.Some? ==> b.kyberSignature.Some? && s.verify(b.identity, b.kyberKey.value, b.kyberSignature.value))
  }

  /// A bundle makes a session only if its identity is trusted and signed all its pre-keys; otherwise
  /// the exact error, and no session is made or changed.
  lemma BundleDecides(s: Suite, us: Local, sessions: Sessions, a: Address, trusted: bool, b: Bundle, f: Fresh)
    ensures var (r, after) := ProcessBundleIn(s, us, sessions, a, trusted, b, f);
      var st := AliceState(s, us, b, f);
      && (!trusted ==> r == Err(UntrustedIdentity))
      && (trusted && !s.verify(b.identity, [5] + b.signedPreKey, b.signedPreKeySignature) ==> r == Err(InvalidSignature))
      && (trusted && s.verify(b.identity, [5] + b.signedPreKey, b.signedPreKeySignature) && b.kyberKey.Some? ==>
            && (b.kyberSignature.None? ==> r == Err(InvalidArgument))
            && (b.kyberSignature.Some? && !s.verify(b.identity, b.kyberKey.value, b.kyberSignature.value) ==> r == Err(InvalidSignature)))
      && (trusted && Signed(s, b) && st.Err? ==> r == Err(st.error))
      && (r.Ok? <==> trusted && Signed(s, b) && st.Ok?)
      && (r.Ok? ==> Current(after, a) == Ok(Reload(st.value)) && after - {a} == sessions - {a})
      && (r.Err? ==> after == sessions)
  {
    hide AliceState, SerializeState;
  }

  /// When agreement with a bundle fails: one of the agreements is the identity element, or a Kyber
  /// pre-key comes without its number.
  lemma AgreementFails(s: Suite, us: Local, b: Bundle, f: Fresh)
    ensures var st := AliceState(s, us, b, f);
      var agreed := s.dh(us.identity, b.signedPreKey).Some? && s.dh(f.base, b.identity).Some? && s.dh(f.base, b.signedPreKey).Some?
                    && (b.preKey.Some? ==> s.dh(f.base, b.preKey.value).Some?) && s.dh(f.ratchet, b.signedPreKey).Some?;
      && (st.Ok? <==> agreed && (b.kyberKey.Some? ==> b.kyberId.Some?))
      && (!agreed ==> st == Err(IdentityElement))
      && (agreed && st.Err? ==> st == Err(Panic))
  {
    hide CreateSessionKeys, CreateChain, X3dh.Secret;
  }

  // ---------------------------------------------------------------- pre-key messages

  /// From an identity that is not trusted nothing is taken, and nothing changes.
  lemma UntrustedRefused(s: Suite, us: Local, sessions: Sessions, keys: PreKeys, a: Address, data: bytes, freshKey: Key)
    ensures var r := DecryptPreKeyIn(s, us, sessions, keys, a, false, data, freshKey);
      r.1 == sessions && r.2 == keys
      && (DeserializePreKey(data).Ok? ==> r.0 == Err(UntrustedIdentity))
      && (DeserializePreKey(data).Err? ==> r.0 == Err(DeserializePreKey(data).error))
  {
    hide DeserializePreKey, DecryptWhisper, X3dh.Bob, SameSession;
  }

  /// Which of the pre-keys that a message names are looked up, and which missing one is the error.
  lemma KeysFound(us: Local, keys: PreKeys, m: PreKeySignalMessage)
    ensures var r := BobParamsOf(us, keys, m);
      && (r.Err? <==> || m.signedPreKeyId !in keys.signed
                      || (m.preKeyId.Some? && m.preKeyId.value !in keys.oneTime)
                      || (m.kyberPreKeyId.Some? && keys.kyber.Some? && m.kyberPreKeyId.value !in keys.kyber.value))
      && (r.Err? ==> r.error == InvalidKeyIdentifier)
      && (r.Ok? ==>
            && r.value.identity == us.identity && r.value.signedPreKey == keys.signed[m.signedPreKeyId]
            && r.value.oneTime.Some? == m.preKeyId.Some?
            && (m.preKeyId.Some? ==> r.value.oneTime == Some(keys.oneTime[m.preKeyId.value]))
            && (r.value.kyber.Some? <==> m.kyberPreKeyId.Some? && keys.kyber.Some?)
            && (r.value.kyber.Some? ==> r.value.kyber == Some(keys.kyber.value[m.kyberPreKeyId.value]))
            && r.value.theirIdentity == m.identityKey && r.value.theirBase == m.baseKey && r.value.kyberCiphertext == m.kyberCiphertext)
  {
  }

  /// A message that gets as far as agreement, for a session that is not there yet.
  predicate Starts(s: Suite, us: Local, sessions: Sessions, keys: PreKeys, a: Address, m: PreKeySignalMessage) {
    && !SameSession(RecordOf(sessions, a), m)
    && BobParamsOf(us, keys, m).Ok? && X3dh.Bob(s, BobParamsOf(us, keys, m).value).Ok?
  }

  /// Exactly then pre-keys are used up, whether or not the message decrypts: the named one-time key
  /// is gone, the named Kyber key is marked, and nothing else changes; the sessions change only with
  /// success, and then only that of the sender.
  lemma PreKeysUsed(s: Suite, us: Local, sessions: Sessions, keys: PreKeys, a: Address, data: bytes, freshKey: Key)
    requires DeserializePreKey(data).Ok?
    ensures var m := DeserializePreKey(data).value;
      var (r, after, left) := DecryptPreKeyIn(s, us, sessions, keys, a, true, data, freshKey);
      && (r.Err? ==> after == sessions) && after - {a} == sessions - {a}
      && left.signed == keys.signed && left.kyber == keys.kyber
      && (Starts(s, us, sessions, keys, a, m) ==>
            && (forall id :: id in left.oneTime <==> id in keys.oneTime && m.preKeyId != Some(id))
            && (forall id :: id in left.oneTime ==> left.oneTime[id] == keys.oneTime[id])
            && (forall id :: id in left.kyberUsed <==> id in keys.kyberUsed || (keys.kyber.Some? && m.kyberPreKeyId == Some(id))))
      && (!Starts(s, us, sessions, keys, a, m) ==> left == keys)
  {
    hide DeserializePreKey, DecryptWhisper, X3dh.Bob, SameSession, BobParamsOf, BobState, Stored, Promote;
  }

  /// A one-time pre-key starts one session: the next message that names it for another is refused.
  lemma OneTimeOnce(s: Suite, us: Local, sessions: Sessions, keys: PreKeys, a: Address, first: bytes, freshKey: Key,
                    later: Sessions, b: Address, second: bytes, freshKey': Key)
    requires DeserializePreKey(first).Ok? && DeserializePreKey(second).Ok?
    requires Starts(s, us, sessions, keys, a, DeserializePreKey(first).value)
    requires var id := DeserializePreKey(first).value.preKeyId; id.Some? && DeserializePreKey(second).value.preKeyId == id
    requires !SameSession(RecordOf(later, b), DeserializePreKey(second).value)
    ensures var left := DecryptPreKeyIn(s, us, sessions, keys, a, true, first, freshKey).2;
      DecryptPreKeyIn(s, us, later, left, b, true, second, freshKey') == (Err(InvalidKeyIdentifier), later, left)
  {
    hide DeserializePreKey, DecryptWhisper, X3dh.Bob, SameSession, BobState, DecryptPreKeyIn, Starts;
    PreKeysUsed(s, us, sessions, keys, a, first, freshKey);
    var left := DecryptPreKeyIn(s, us, sessions, keys, a, true, first, freshKey).2;
    MissingKey(s, us, later, left, b, second, freshKey');
  }

  lemma MissingKey(s: Suite, us: Local, sessions: Sessions, keys: PreKeys, a: Address, data: bytes, freshKey: Key)
    requires DeserializePreKey(data).Ok? && !SameSession(RecordOf(sessions, a), DeserializePreKey(data).value)
    requires var id := DeserializePreKey(data).value.preKeyId; id.Some? && id.value !in keys.oneTime
    ensures DecryptPreKeyIn(s, us, sessions, keys, a, true, data, freshKey) == (Err(InvalidKeyIdentifier), sessions, keys)
  {
    hide DeserializePreKey, DecryptWhisper, X3dh.Bob, SameSession, BobState;
  }
}
