/// Sessions: src/messages/signal_message.zig, src/session_builder.zig, src/session_cipher.zig and
/// src/state/session_record.zig.
module Session {
  import opened Bytes
  import opened Crypto
  import opened Kdf
  import opened Curve
  import opened Proto
  import opened Messages
  import opened Ratchet
  import opened SessionBytes
  import X3dh
  import Cbc

  // ---------------------------------------------------------------- SignalMessage

  datatype SignalMessage = SignalMessage(
    version: byte, ratchet: Key, counter: u32, previousCounter: u32, ciphertext: bytes, pq: Option<bytes>)

  function SignalFields(m: SignalMessage): seq<Field> {
    [Len(1, SerializePublic(m.ratchet))] + [Varint(2, m.counter)] + [Varint(3, m.previousCounter)]
    + [Len(4, m.ciphertext)] + OptLen(5, m.pq)
  }

  function SignalPart(m: SignalMessage): bytes {
    [VersionByte(m.version)] + FieldsBytes(SignalFields(m))
  }

  /// The first eight bytes of the MAC over both identities and the message.
  function SignalMac(s: Suite, macKey: Key, sender: Key, receiver: Key, part: bytes): (mac: bytes)
    ensures |mac| == 8
  {
    s.hmac(macKey, SerializePublic(sender) + SerializePublic(receiver) + part)[..8]
  }

  function SerializeSignal(s: Suite, m: SignalMessage, sender: Key, receiver: Key, macKey: Key): bytes {
    SignalPart(m) + SignalMac(s, macKey, sender, receiver, SignalPart(m))
  }

  method SerializeSignalMessage(s: Suite, m: SignalMessage, sender: Key, receiver: Key, macKey: Key) returns (out: bytes)
    requires |m.ciphertext| < LIMIT && (m.pq.Some? ==> |m.pq.value| < TWO32)
    ensures out == SerializeSignal(s, m, sender, receiver, macKey)
    ensures |out| < TWO64
  {
    hide FieldsBytes, AllEncodable, SerializePublic, OptLen;
    var enc := new Encoder();
    enc.WriteBytesField(1, SerializePublic(m.ratchet));
    assert enc.fields == [Len(1, SerializePublic(m.ratchet))];
    enc.WriteVarintField(2, m.counter);
    enc.WriteVarintField(3, m.previousCounter);
    enc.WriteBytesField(4, m.ciphertext);
    enc.WriteOptBytes(5, m.pq);
    var part := [VersionByte(m.version)] + enc.buf;
    SignalSize(m);
    out := part + SignalMac(s, macKey, sender, receiver, part);
  }

  lemma SignalSize(m: SignalMessage)
    requires |m.ciphertext| < LIMIT && (m.pq.Some? ==> |m.pq.value| < TWO32)
    ensures AllSmall(SignalFields(m))
    ensures |FieldsBytes(SignalFields(m))| < 5 * LIMIT + 1000
  {
    hide FieldsBytes;
    FieldsSize(SignalFields(m));
    AtMost(SignalFields(m), 5, LIMIT);
  }

  datatype SignalLocals = SignalLocals(ratchet: Option<bytes>, counter: u32, ciphertext: Option<bytes>, pq: Option<bytes>)

  const SIGNAL_INIT: SignalLocals := SignalLocals(None, 0, None, None)

  function SignalStep(a: SignalLocals, f: Field): Result<SignalLocals> {
    match f
    case Varint(n, v) =>
      if n != 2 then Ok(a) else if v >= TWO32 then Err(Panic) else Ok(a.(counter := v))
    case Len(n, d) =>
      Ok(if n == 1 then a.(ratchet := Some(d))
         else if n == 4 then a.(ciphertext := Some(d))
         else if n == 5 then a.(pq := Some(d))
         else a)
    case _ => Ok(a)
  }

  /// What the parsing loop finds in a written message.
  function SignalRead(m: SignalMessage): SignalLocals {
    SignalLocals(Some(SerializePublic(m.ratchet)), m.counter, Some(m.ciphertext), m.pq)
  }

  lemma SignalScan(m: SignalMessage)
    requires |m.ciphertext| < LIMIT && (m.pq.Some? ==> |m.pq.value| < TWO32)
    ensures Scan(SignalStep, SIGNAL_INIT, FieldsBytes(SignalFields(m))) == Ok(SignalRead(m))
  {
    hide Fold, Scan, FieldsBytes, SerializePublic, OptLen;
    SignalSize(m);
    Fits(SignalFields(m));
    ScanEncoded(SignalStep, SIGNAL_INIT, SignalFields(m));
    var rk, ct := Len(1, SerializePublic(m.ratchet)), Len(4, m.ciphertext);
    var r0 := OptLen(5, m.pq) + [];
    var r1 := [ct] + r0;
    var r2 := [Varint(3, m.previousCounter)] + r1;
    var r3 := [Varint(2, m.counter)] + r2;
    assert SignalFields(m) == [rk] + r3;
    var a1 := SIGNAL_INIT.(ratchet := Some(rk.data));
    var a2 := a1.(counter := m.counter);
    var a3 := a2.(ciphertext := Some(m.ciphertext));
    var a4 := a3.(pq := m.pq);
    FoldCons(SignalStep, SIGNAL_INIT, rk, r3);
    FoldCons(SignalStep, a1, Varint(2, m.counter), r2);
    FoldCons(SignalStep, a2, Varint(3, m.previousCounter), r1);
    FoldCons(SignalStep, a2, ct, r0);
    FoldOptLen(SignalStep, a3, 5, m.pq, a4, []);
    FoldOne(SignalStep, a4, rk);
  }

  // ---------------------------------------------------------------- one message on a state

  /// What encryption returns to its caller: the type of the message and its bytes.
  datatype Ciphertext = PreKeyMessage(data: bytes) | WhisperMessage(data: bytes)

  function SignalOf(st: State, keys: KeysAt, ciphertext: bytes, pq: bytes): SignalMessage
    requires st.version < 256
  {
    SignalMessage(st.version as byte, st.senderPublic, keys.counter, st.previousCounter, ciphertext, NonEmpty(pq))
  }

  /// While a pre-key is pending, the message is wrapped with it.
  function Wrap(st: State, identity: Key, signal: bytes): Ciphertext
    requires st.version < 256
  {
    if st.pendingPreKey.None? then WhisperMessage(signal)
    else PreKeyMessage(SerializePreKey(PreKeyOf(st, identity, signal)))
  }

  function PreKeyOf(st: State, identity: Key, signal: bytes): PreKeySignalMessage
    requires st.version < 256 && st.pendingPreKey.Some?
  {
    var p := st.pendingPreKey.value;
    PreKeySignalMessage(
      st.version as byte, st.localRegistration, p.preKeyId, p.signedPreKeyId,
      if st.pendingKyber.Some? then Some(st.pendingKyber.value.preKeyId) else None,
      p.baseKey, identity,
      if st.pendingKyber.Some? then Some(st.pendingKyber.value.ciphertext) else None,
      signal)
  }

  /// The inner message: encrypted and authenticated with the next keys of the sender chain.
  function SignalBytes(s: Suite, st: State, identity: Key, plaintext: bytes, pq: bytes, pqr: Option<Key>): bytes
    requires st.version < 256
  {
    var keys := MessageKeysOf(s, st.senderChain, pqr);
    var ciphertext := Cbc.Encrypt(s, keys.keys.cipher, keys.keys.iv, plaintext);
    SerializeSignal(s, SignalOf(st, keys, ciphertext, pq), identity, st.remoteIdentity, keys.keys.mac)
  }

  /// SessionCipher.encrypt on a state; identity is our public identity key.
  function EncryptWith(s: Suite, st: State, identity: Key, plaintext: bytes, random: bytes): Result<(Ciphertext, State)> {
    var pq :- SpqrSend(s, st.pqState, random);
    var next :- Advance(s, st.senderChain);
    if st.version >= 256 then Err(Panic)
    else
      var signal := SignalBytes(s, st, identity, plaintext, pq.message, pq.key);
      Ok((Wrap(st, identity, signal), st.(pqState := pq.state, senderChain := next)))
  }

  /// What decryption reads in a message.
  datatype SignalParts = SignalParts(ratchet: Key, counter: u32, ciphertext: bytes, pq: Option<bytes>)

  function ParseSignal(data: bytes): (r: Result<SignalParts>)
    ensures r.Ok? ==> |data| >= 9
  {
    if |data| < 9 then Err(InvalidMessage)
    else if data[0] / 16 < 3 then Err(LegacyCiphertextVersion)
    else
      var a :- Scan(SignalStep, SIGNAL_INIT, data[1..|data| - 8]);
      if a.ratchet.None? then Err(InvalidMessage) else
      var ratchet :- DeserializePublic(a.ratchet.value);
      if a.ciphertext.None? then Err(InvalidMessage)
      else Ok(SignalParts(ratchet, a.counter, a.ciphertext.value, a.pq))
  }

  /// The keys that a state has for a message, and the state afterwards.
  function TakeSignal(s: Suite, st: State, m: SignalParts, freshKey: Key): Result<(KeysAt, State)> {
    var pq :- SpqrReceive(s, st.pqState, m.pq);
    GetMessageKeys(s, st.(pqState := pq.state), m.ratchet, m.counter, pq.key, freshKey)
  }

  /// decryptWhisperMessage: the plaintext and the state after it.
  function DecryptWhisper(s: Suite, st: State, data: bytes, sender: Key, receiver: Key, freshKey: Key): Result<(bytes, State)> {
    var m :- ParseSignal(data);
    DecryptParsed(s, st, data[..|data| - 8], data[|data| - 8..], m, sender, receiver, freshKey)
  }

  function DecryptParsed(s: Suite, st: State, part: bytes, mac: bytes, m: SignalParts, sender: Key, receiver: Key, freshKey: Key)
    : Result<(bytes, State)>
  {
    var (keys, after) :- TakeSignal(s, st, m, freshKey);
    if mac != SignalMac(s, keys.keys.mac, sender, receiver, part) then Err(InvalidMessage) else
    var plaintext :- Cbc.Decrypt(s, keys.keys.cipher, keys.keys.iv, m.ciphertext);
    Ok((plaintext, after))
  }

  // ---------------------------------------------------------------- new sessions

  /// A peer's published keys, with the signatures that validate() checks.
  datatype Bundle = Bundle(
    registrationId: u32,
    identity: Key,
    preKeyId: Option<u32>,
    preKey: Option<Key>,
    signedPreKeyId: u32,
    signedPreKey: Key,
    signedPreKeySignature: Signature,
    kyberId: Option<u32>,
    kyberKey: Option<bytes>,
    kyberSignature: Option<Signature>
  )

  function Validate(s: Suite, b: Bundle): Result<()> {
    if !s.verify(b.identity, SerializePublic(b.signedPreKey), b.signedPreKeySignature) then Err(InvalidSignature)
    else if b.kyberKey.None? then Ok(())
    else if b.kyberSignature.None? then Err(InvalidArgument)
    else if !s.verify(b.identity, b.kyberKey.value, b.kyberSignature.value) then Err(InvalidSignature)
    else Ok(())
  }

  /// Our identity, and the random values drawn for a new session.
  datatype Local = Local(identity: Key, registrationId: u32)
  datatype Fresh = Fresh(base: Key, ratchet: Key, seed: Key)

  function AliceParamsOf(s: Suite, us: Local, b: Bundle, f: Fresh): X3dh.AliceParams {
    X3dh.AliceParams(us.identity, f.base, b.identity, b.signedPreKey, b.preKey, b.kyberKey, f.seed)
  }

  /// The initiator's state: a first sending step from the agreed root, and the agreed chain as
  /// receiver chain under the signed pre-key.
  function AliceState(s: Suite, us: Local, b: Bundle, f: Fresh): Result<State> {
    var derived :- X3dh.Alice(s, AliceParamsOf(s, us, b, f));
    var send :- RootStep(s, derived.keys.root, b.signedPreKey, f.ratchet);
    if derived.kyberCiphertext.Some? && b.kyberId.None? then Err(Panic) else
    Ok(State(
         if derived.keys.pqr.Some? then 4 else 3,
         s.pub(us.identity), b.identity, send.root, 0, ChainKey(send.chain, 0), s.pub(f.ratchet), f.ratchet,
         AddChain([], ReceiverChain(b.signedPreKey, ChainKey(derived.keys.chain, 0), [])),
         Some(PendingPreKey(b.preKeyId, b.signedPreKeyId, s.pub(f.base), 0)),
         if derived.kyberCiphertext.Some? then Some(PendingKyber(b.kyberId.value, derived.kyberCiphertext.value)) else None,
         b.registrationId, us.registrationId,
         Some(SerializePublic(s.pub(f.base))),
         if derived.keys.pqr.Some? then s.pqInit(derived.keys.pqr.value, true) else []))
  }

  /// Our pre-keys, by identifier; private keys.
  datatype PreKeys = PreKeys(oneTime: map<u32, Key>, signed: map<u32, Key>, kyber: Option<map<u32, bytes>>, kyberUsed: set<u32>)

  /// The keys that a pre-key message names; a missing one is the store's error.
  function BobParamsOf(us: Local, keys: PreKeys, m: PreKeySignalMessage): Result<X3dh.BobParams> {
    if m.signedPreKeyId !in keys.signed then Err(InvalidKeyIdentifier)
    else if m.preKeyId.Some? && m.preKeyId.value !in keys.oneTime then Err(InvalidKeyIdentifier)
    else if m.kyberPreKeyId.Some? && keys.kyber.Some? && m.kyberPreKeyId.value !in keys.kyber.value then Err(InvalidKeyIdentifier)
    else Ok(X3dh.BobParams(
              us.identity, keys.signed[m.signedPreKeyId],
              if m.preKeyId.Some? then Some(keys.oneTime[m.preKeyId.value]) else None,
              if m.kyberPreKeyId.Some? && keys.kyber.Some? then Some(keys.kyber.value[m.kyberPreKeyId.value]) else None,
              m.identityKey, m.baseKey, m.kyberCiphertext))
  }

  /// The responder's state: the agreed root, the agreed chain as sender chain under the signed
  /// pre-key, and no receiver chain.
  function BobState(s: Suite, us: Local, m: PreKeySignalMessage, p: X3dh.BobParams, derived: SessionKeys): State {
    State(
      if derived.pqr.Some? then 4 else 3,
      s.pub(us.identity), m.identityKey, derived.root, 0, ChainKey(derived.chain, 0),
      s.pub(p.signedPreKey), p.signedPreKey, [], None, None, m.registrationId, us.registrationId,
      Some(SerializePublic(m.baseKey)),
      if derived.pqr.Some? then s.pqInit(derived.pqr.value, false) else [])
  }

  /// The pre-keys that a message uses up.
  function Consume(keys: PreKeys, m: PreKeySignalMessage): PreKeys {
    keys.(oneTime := if m.preKeyId.Some? then keys.oneTime - {m.preKeyId.value} else keys.oneTime,
          kyberUsed := if m.kyberPreKeyId.Some? && keys.kyber.Some? then keys.kyberUsed + {m.kyberPreKeyId.value} else keys.kyberUsed)
  }

  // ---------------------------------------------------------------- records and stores

  const MAX_ARCHIVED_STATES: nat := 40

  datatype SessionRecord = SessionRecord(current: Option<State>, previous: seq<bytes>)

  const NEW_RECORD: SessionRecord := SessionRecord(None, [])

  /// The current state is archived and replaced; the oldest archived state is dropped.
  function Promote(r: SessionRecord, st: State): SessionRecord {
    if r.current.None? then r.(current := Some(st))
    else
      var previous := [SerializeState(r.current.value)] + r.previous;
      SessionRecord(Some(st), if |previous| > MAX_ARCHIVED_STATES then previous[..|previous| - 1] else previous)
  }

  /// A record as its bytes keep it (SessionRecordRoundTrip).
  function Stored(r: SessionRecord): SessionRecord {
    if r.current.None? then r else r.(current := Some(Reload(r.current.value)))
  }

  function PreviousFields(previous: seq<bytes>): seq<Field> {
    if previous == [] then []
    else PreviousFields(previous[..|previous| - 1]) + [Len(2, previous[|previous| - 1])]
  }

  function RecordFields(r: SessionRecord): seq<Field> {
    OptLen(1, if r.current.None? then None else Some(SerializeState(r.current.value))) + PreviousFields(r.previous)
  }

  function SerializeRecord(r: SessionRecord): bytes {
    FieldsBytes(RecordFields(r))
  }

  /// The key pair of the blank state that SessionState.deserialize starts from.
  datatype Blanks = Blanks(public: Key, private: Key)

  function RecordStep(blank: Blanks): (SessionRecord, Field) -> Result<SessionRecord> {
    (a: SessionRecord, f: Field) =>
      match f
      case Len(n, d) =>
        if n == 1 then
          var st := DeserializeState(d, blank.public, blank.private);
          if st.Err? then Err(st.error) else Ok(a.(current := Some(st.value)))
        else if n == 2 then Ok(a.(previous := a.previous + [d]))
        else Ok(a)
      case _ => Ok(a)
  }

  function DeserializeRecord(data: bytes, blank: Blanks): Result<SessionRecord> {
    Scan(RecordStep(blank), NEW_RECORD, data)
  }

  method DeserializeSessionRecord(data: bytes, blank: Blanks) returns (r: Result<SessionRecord>)
    ensures r == DeserializeRecord(data, blank)
  {
    r := ScanLoop(RecordStep(blank), NEW_RECORD, data);
  }

  lemma {:induction false} PreviousFold(blank: Blanks, previous: seq<bytes>, a: SessionRecord)
    ensures Fold(RecordStep(blank), a, PreviousFields(previous)) == Ok(a.(previous := a.previous + previous))
    ensures AllInRange(PreviousFields(previous))
  {
    hide Fold, DeserializeState;
    if previous == [] {
      FoldOne(RecordStep(blank), a, Varint(1, 0));
      assert a.previous + previous == a.previous;
    } else {
      var n := |previous| - 1;
      PreviousFold(blank, previous[..n], a);
      FoldConcat(RecordStep(blank), a, PreviousFields(previous[..n]), [Len(2, previous[n])]);
      FoldOne(RecordStep(blank), a.(previous := a.previous + previous[..n]), Len(2, previous[n]));
      assert a.previous + previous[..n] + [previous[n]] == a.previous + previous;
    }
  }

  /// A stored record comes back with its archived states as they were and its current state without
  /// cached message keys.
  lemma SessionRecordRoundTrip(r: SessionRecord, blank: Blanks)
    requires |SerializeRecord(r)| < TWO64
    ensures DeserializeRecord(SerializeRecord(r), blank) == Ok(Stored(r))
  {
    hide Fold, Scan, FieldsBytes, DeserializeState, SerializeState, Reload, PreviousFields;
    var step := RecordStep(blank);
    var fs := RecordFields(r);
    var data := if r.current.None? then None else Some(SerializeState(r.current.value));
    var tail := PreviousFields(r.previous);
    PreviousFold(blank, r.previous, Stored(r).(previous := []));
    assert AllInRange(OptLen(1, data));
    InRangeConcat(OptLen(1, data), tail);
    ScanWritten(step, NEW_RECORD, fs);
    if r.current.Some? {
      DataFits(fs);
      assert fs[0] == Len(1, data.value) && Encodable(fs[0]);
      StateRoundTrip(r.current.value, blank.public, blank.private);
    }
    FoldOptLen(step, NEW_RECORD, 1, data, Stored(r).(previous := []), tail);
    assert [] + r.previous == r.previous;
  }

  type Sessions = map<Address, SessionRecord>

  function Current(sessions: Sessions, a: Address): Result<State> {
    if a !in sessions then Err(SessionNotFound)
    else if sessions[a].current.None? then Err(InvalidSession)
    else Ok(sessions[a].current.value)
  }

  /// The current state replaced, in a record that has one.
  function Update(sessions: Sessions, a: Address, st: State): Sessions
    requires a in sessions
  {
    sessions[a := Stored(sessions[a].(current := Some(st)))]
  }

  function RecordOf(sessions: Sessions, a: Address): SessionRecord {
    if a in sessions then sessions[a] else NEW_RECORD
  }

  function EncryptIn(s: Suite, us: Local, sessions: Sessions, a: Address, plaintext: bytes, random: bytes)
    : (Result<Ciphertext>, Sessions)
  {
    var st := Current(sessions, a);
    if st.Err? then (Err(st.error), sessions)
    else
      var r := EncryptWith(s, st.value, s.pub(us.identity), plaintext, random);
      if r.Err? then (Err(r.error), sessions) else (Ok(r.value.0), Update(sessions, a, r.value.1))
  }

  /// decryptMessage: the state is stored only when the message decrypts.
  function DecryptIn(s: Suite, us: Local, sessions: Sessions, a: Address, data: bytes, freshKey: Key)
    : (Result<bytes>, Sessions)
  {
    var st := Current(sessions, a);
    if st.Err? then (Err(st.error), sessions)
    else
      var r := DecryptWhisper(s, st.value, data, st.value.remoteIdentity, s.pub(us.identity), freshKey);
      if r.Err? then (Err(r.error), sessions) else (Ok(r.value.0), Update(sessions, a, r.value.1))
  }

  /// Whether a record's current state is that of the session a pre-key message belongs to.
  predicate SameSession(r: SessionRecord, m: PreKeySignalMessage) {
    r.current.Some? && r.current.value.aliceBaseKey == Some(SerializePublic(m.baseKey))
  }

  /// decryptPreKeyMessage.  A message of the current session is decrypted and nothing is stored;
  /// one of a new session uses up the pre-keys even when it then fails.
  function DecryptPreKeyIn(s: Suite, us: Local, sessions: Sessions, keys: PreKeys, a: Address, trusted: bool, data: bytes, freshKey: Key)
    : (Result<bytes>, Sessions, PreKeys)
  {
    var parsed := DeserializePreKey(data);
    if parsed.Err? then (Err(parsed.error), sessions, keys)
    else if !trusted then (Err(UntrustedIdentity), sessions, keys)
    else
      var m := parsed.value;
      var record := RecordOf(sessions, a);
      if SameSession(record, m) then
        var st := record.current.value;
        var r := DecryptWhisper(s, st, m.message, st.remoteIdentity, s.pub(us.identity), freshKey);
        (if r.Err? then Err(r.error) else Ok(r.value.0), sessions, keys)
      else
        var p := BobParamsOf(us, keys, m);
        if p.Err? then (Err(p.error), sessions, keys)
        else
          var derived := X3dh.Bob(s, p.value);
          if derived.Err? then (Err(derived.error), sessions, keys)
          else
            var st := BobState(s, us, m, p.value, derived.value);
            var r := DecryptWhisper(s, st, m.message, m.identityKey, s.pub(us.identity), freshKey);
            if r.Err? then (Err(r.error), sessions, Consume(keys, m))
            else (Ok(r.value.0), sessions[a := Stored(Promote(record, r.value.1))], Consume(keys, m))
  }

  /// processPreKeyBundle.
  function ProcessBundleIn(s: Suite, us: Local, sessions: Sessions, a: Address, trusted: bool, b: Bundle, f: Fresh)
    : (Result<()>, Sessions)
  {
    if !trusted then (Err(UntrustedIdentity), sessions)
    else
      var valid := Validate(s, b);
      if valid.Err? then (valid, sessions)
      else
        var st := AliceState(s, us, b, f);
        if st.Err? then (Err(st.error), sessions)
        else (Ok(()), sessions[a := Stored(Promote(RecordOf(sessions, a), st.value))])
  }

  // ---------------------------------------------------------------- the classes

  /// States whose byte strings the encoder can write.
  predicate InMemory(st: State) {
    |st.pqState| < TWO64 && (st.pendingKyber.Some? ==> |st.pendingKyber.value.ciphertext| < LIMIT)
  }

  class SessionStore {
    var sessions: Sessions

    ghost predicate Valid()
      reads this
    {
      forall a :: a in sessions && sessions[a].current.Some? ==> InMemory(sessions[a].current.value)
    }

    constructor ()
      ensures Valid() && sessions == map[]
    {
      sessions := map[];
    }
  }

  class PreKeyStore {
    var keys: PreKeys

    constructor (keys: PreKeys)
      ensures this.keys == keys
    {
      this.keys := keys;
    }
  }

  method PromoteState(r: SessionRecord, st: State) returns (out: SessionRecord)
    requires r.current.Some? ==> InMemory(r.current.value)
    ensures out == Promote(r, st)
    ensures |r.previous| <= MAX_ARCHIVED_STATES ==> |out.previous| <= MAX_ARCHIVED_STATES
  {
    hide SerializeState;
    if r.current.None? {
      return r.(current := Some(st));
    }
    var data := SerializeSessionState(r.current.value);
    var previous := [data] + r.previous;
    if |previous| > MAX_ARCHIVED_STATES {
      previous := previous[..|previous| - 1];
    }
    out := SessionRecord(Some(st), previous);
  }

  /// Promoting archives the former state in front, from where it loads as from the store; of the
  /// states archived before, at most the oldest is gone.
  lemma Archived(r: SessionRecord, st: State, blank: Blanks)
    requires r.current.Some? && |SerializeState(r.current.value)| < TWO64
    ensures var after := Promote(r, st);
      && after.current == Some(st) && |after.previous| > 0
      && DeserializeState(after.previous[0], blank.public, blank.private) == Ok(Reload(r.current.value))
      && after.previous[1..] <= r.previous
      && |after.previous| == if |r.previous| >= 40 then |r.previous| else |r.previous| + 1
  {
    hide SerializeState, DeserializeState, Reload;
    StateRoundTrip(r.current.value, blank.public, blank.private);
  }

  class SessionBuilder {
    const suite: Suite
    const us: Local
    const sessionStore: SessionStore
    const remote: Address

    constructor (s: Suite, us: Local, store: SessionStore, remote: Address)
      ensures suite == s && this.us == us && sessionStore == store && this.remote == remote
    {
      suite, this.us, sessionStore, this.remote := s, us, store, remote;
    }

    /// The identity store's answer and the random values are parameters.
    method ProcessPreKeyBundle(trusted: bool, b: Bundle, f: Fresh) returns (r: Result<()>)
      requires sessionStore.Valid()
      modifies sessionStore
      ensures (r, sessionStore.sessions) == ProcessBundleIn(suite, us, old(sessionStore.sessions), remote, trusted, b, f)
      ensures sessionStore.Valid()
    {
      hide X3dh.Alice, RootStep, SerializeState;
      if !trusted {
        return Err(UntrustedIdentity);
      }
      r := Validate(suite, b);
      if r.Err? {
        return;
      }
      var derived := X3dh.AliceInitialize(suite, AliceParamsOf(suite, us, b, f));
      if derived.Err? {
        return Err(derived.error);
      }
      var keys := derived.value.keys;
      var send := RootStep(suite, keys.root, b.signedPreKey, f.ratchet);
      if send.Err? {
        return Err(send.error);
      }
      var st := Blank(suite.pub(us.identity), us.identity);
      st := st.(version := if keys.pqr.Some? then 4 else 3);
      st := st.(remoteIdentity := b.identity, localIdentity := suite.pub(us.identity));
      st := st.(remoteRegistration := b.registrationId, localRegistration := us.registrationId);
      st := st.(root := send.value.root, senderChain := ChainKey(send.value.chain, 0));
      st := st.(senderPublic := suite.pub(f.ratchet), senderPrivate := f.ratchet);
      st := st.(chains := AddChain(st.chains, ReceiverChain(b.signedPreKey, ChainKey(keys.chain, 0), [])));
      if keys.pqr.Some? {
        st := st.(pqState := suite.pqInit(keys.pqr.value, true));
      }
      st := st.(aliceBaseKey := Some(SerializePublic(suite.pub(f.base))));
      st := st.(pendingPreKey := Some(PendingPreKey(b.preKeyId, b.signedPreKeyId, suite.pub(f.base), 0)));
      if derived.value.kyberCiphertext.Some? {
        if b.kyberId.None? {
          return Err(Panic);
        }
        AliceCiphertext(suite, AliceParamsOf(suite, us, b, f));
        st := st.(pendingKyber := Some(PendingKyber(b.kyberId.value, derived.value.kyberCiphertext.value)));
      }
      var record := PromoteState(RecordOf(sessionStore.sessions, remote), st);
      sessionStore.sessions := sessionStore.sessions[remote := Stored(record)];
      r := Ok(());
    }
  }

  lemma StaysInMemory(s: Suite, st: State, data: bytes, sender: Key, receiver: Key, freshKey: Key)
    requires InMemory(st)
    ensures var r := DecryptWhisper(s, st, data, sender, receiver, freshKey); r.Ok? ==> InMemory(r.value.1)
  {
    hide GetOrCompute, RootStep, Cbc.Decrypt, SignalMac, Scan;
  }

  lemma SentInMemory(s: Suite, st: State, identity: Key, plaintext: bytes, random: bytes)
    requires InMemory(st)
    ensures var r := EncryptWith(s, st, identity, plaintext, random); r.Ok? ==> InMemory(r.value.1)
  {
    hide Wrap, SignalBytes, Advance;
  }

  lemma AliceCiphertext(s: Suite, p: X3dh.AliceParams)
    ensures var r := X3dh.Alice(s, p);
      r.Ok? && r.value.kyberCiphertext.Some? ==> |r.value.kyberCiphertext.value| == KEM_CIPHERTEXT
  {
    hide CreateSessionKeys, X3dh.Secret;
  }

  class SessionCipher {
    const suite: Suite
    const us: Local
    const sessionStore: SessionStore
    const preKeyStore: PreKeyStore
    const remote: Address

    constructor (s: Suite, us: Local, sessions: SessionStore, preKeys: PreKeyStore, remote: Address)
      ensures suite == s && this.us == us && sessionStore == sessions && preKeyStore == preKeys && this.remote == remote
    {
      suite, this.us, sessionStore, preKeyStore, this.remote := s, us, sessions, preKeys, remote;
    }

    method Encrypt(plaintext: bytes, random: bytes) returns (r: Result<Ciphertext>)
      requires sessionStore.Valid() && |plaintext| < LIMIT - 16
      modifies sessionStore
      ensures (r, sessionStore.sessions) == EncryptIn(suite, us, old(sessionStore.sessions), remote, plaintext, random)
      ensures sessionStore.Valid()
    {
      hide EncryptWith;
      var current := Current(sessionStore.sessions, remote);
      if current.Err? {
        return Err(current.error);
      }
      var st := new SessionState(suite, current.value);
      SentInMemory(suite, current.value, suite.pub(us.identity), plaintext, random);
      r := EncryptOn(suite, st, suite.pub(us.identity), plaintext, random);
      if r.Ok? {
        sessionStore.sessions := Update(sessionStore.sessions, remote, st.View());
      }
    }

    method DecryptMessage(data: bytes, freshKey: Key) returns (r: Result<bytes>)
      requires sessionStore.Valid()
      modifies sessionStore
      ensures (r, sessionStore.sessions) == DecryptIn(suite, us, old(sessionStore.sessions), remote, data, freshKey)
      ensures sessionStore.Valid()
    {
      hide DecryptWhisper;
      var current := Current(sessionStore.sessions, remote);
      if current.Err? {
        return Err(current.error);
      }
      var st := new SessionState(suite, current.value);
      StaysInMemory(suite, st.View(), data, current.value.remoteIdentity, suite.pub(us.identity), freshKey);
      r := DecryptWhisperMessage(suite, st, data, current.value.remoteIdentity, suite.pub(us.identity), freshKey);
      if r.Ok? {
        sessionStore.sessions := Update(sessionStore.sessions, remote, st.View());
      }
    }

    method DecryptPreKeyMessage(trusted: bool, data: bytes, freshKey: Key) returns (r: Result<bytes>)
      requires sessionStore.Valid()
      modifies sessionStore, preKeyStore
      ensures (r, sessionStore.sessions, preKeyStore.keys)
           == DecryptPreKeyIn(suite, us, old(sessionStore.sessions), old(preKeyStore.keys), remote, trusted, data, freshKey)
      ensures sessionStore.Valid()
    {
      hide DecryptWhisper, DeserializePreKey, X3dh.Bob, SerializeState;
      var parsed := DeserializePreKeyMessage(data);
      if parsed.Err? {
        return Err(parsed.error);
      }
      if !trusted {
        return Err(UntrustedIdentity);
      }
      var m := parsed.value;
      var record := RecordOf(sessionStore.sessions, remote);
      if SameSession(record, m) {
        var current := record.current.value;
        var existing := new SessionState(suite, current);
        r := DecryptWhisperMessage(suite, existing, m.message, current.remoteIdentity, suite.pub(us.identity), freshKey);
        return;
      }
      var p := BobParamsOf(us, preKeyStore.keys, m);
      if p.Err? {
        return Err(p.error);
      }
      var derived := X3dh.BobInitialize(suite, p.value);
      if derived.Err? {
        return Err(derived.error);
      }
      var st := new SessionState(suite, BobState(suite, us, m, p.value, derived.value));
      preKeyStore.keys := Consume(preKeyStore.keys, m);
      StaysInMemory(suite, st.View(), m.message, m.identityKey, suite.pub(us.identity), freshKey);
      r := DecryptWhisperMessage(suite, st, m.message, m.identityKey, suite.pub(us.identity), freshKey);
      if r.Ok? {
        record := PromoteState(record, st.View());
        sessionStore.sessions := sessionStore.sessions[remote := Stored(record)];
      }
    }
  }

  /// Encryption with a state's next keys, in place; one that fails may leave the state half changed.
  method EncryptOn(s: Suite, st: SessionState, identity: Key, plaintext: bytes, random: bytes) returns (r: Result<Ciphertext>)
    requires st.suite == s && |plaintext| < LIMIT - 16
    requires st.fixed.pendingKyber.Some? ==> |st.fixed.pendingKyber.value.ciphertext| < LIMIT
    modifies st
    ensures match EncryptWith(s, old(st.View()), identity, plaintext, random)
            case Err(e) => r == Err(e)
            case Ok((message, after)) => r == Ok(message) && st.View() == after
  {
    hide DeriveMessageKeys, MessageKeySeed, NextChainKey, Cbc.Encrypt, SerializeSignal, SerializePreKey, SpqrSend;
    var pq := SpqrSend(s, st.pqState, random);
    if pq.Err? {
      return Err(pq.error);
    }
    st.pqState := pq.value.state;
    var keys := MessageKeysOf(s, st.senderChain, pq.value.key);
    var next := Advance(s, st.senderChain);
    if next.Err? {
      return Err(next.error);
    }
    st.senderChain := next.value;
    var buf := Cbc.EncryptLoop(s, keys.keys.cipher, keys.keys.iv, plaintext);
    Cbc.EncryptLength(s, keys.keys.cipher, keys.keys.iv, plaintext);
    if st.fixed.version >= 256 {
      return Err(Panic);
    }
    var signal := SignalOf(st.View(), keys, buf[..], pq.value.message);
    var data := SerializeSignalMessage(s, signal, identity, st.fixed.remoteIdentity, keys.keys.mac);
    if st.fixed.pendingPreKey.Some? {
      var wrapped := SerializePreKeyMessage(PreKeyOf(st.View(), identity, data));
      r := Ok(PreKeyMessage(wrapped));
    } else {
      r := Ok(WhisperMessage(data));
    }
  }

  /// A decryption that fails may leave the state half changed: its callers then drop it.
  method DecryptWhisperMessage(s: Suite, st: SessionState, data: bytes, sender: Key, receiver: Key, freshKey: Key)
    returns (r: Result<bytes>)
    requires st.suite == s
    modifies st
    ensures match DecryptWhisper(s, old(st.View()), data, sender, receiver, freshKey)
            case Err(e) => r == Err(e)
            case Ok((plaintext, after)) => r == Ok(plaintext) && st.View() == after
  {
    hide GetMessageKeys, Cbc.Decrypt, Scan, SignalMac;
    if |data| < 9 {
      return Err(InvalidMessage);
    }
    if data[0] / 16 < 3 {
      return Err(LegacyCiphertextVersion);
    }
    var at := |data| - 8;
    var a := ScanLoop(SignalStep, SIGNAL_INIT, data[1..at]);
    if a.Err? {
      return Err(a.error);
    }
    if a.value.ratchet.None? {
      return Err(InvalidMessage);
    }
    var ratchet := DeserializePublic(a.value.ratchet.value);
    if ratchet.Err? {
      return Err(ratchet.error);
    }
    if a.value.ciphertext.None? {
      return Err(InvalidMessage);
    }
    var pq := SpqrReceive(s, st.pqState, a.value.pq);
    if pq.Err? {
      return Err(pq.error);
    }
    st.pqState := pq.value.state;
    var keys := st.MessageKeysFor(ratchet.value, a.value.counter, pq.value.key, freshKey);
    if keys.Err? {
      return Err(keys.error);
    }
    if data[at..] != SignalMac(s, keys.value.keys.mac, sender, receiver, data[..at]) {
      return Err(InvalidMessage);
    }
    r := Cbc.DecryptLoop(s, keys.value.keys.cipher, keys.value.keys.iv, a.value.ciphertext.value);
  }
}
