/// Sender keys: src/group_session_builder.zig and src/group_cipher.zig.
module Group {
  import opened Bytes
  import opened Crypto
  import opened Kdf
  import opened Proto
  import opened Messages
  import Cbc

  /// What a sender-key store is indexed by.
  datatype StoreKey = StoreKey(sender: Address, id: Block)

  type Records = map<StoreKey, bytes>

  /// Plaintexts short enough for their message to fit the address space.
  type Plaintext = p: bytes | |p| < LIMIT - 16

  // ---------------------------------------------------------------- one step on a record

  function Advanced(s: Suite, r: SenderKeyRecord): SenderKeyRecord
    requires r.iteration + 1 < TWO32
  {
    r.(chainKey := NextSenderKey(s, r.chainKey), iteration := r.iteration + 1)
  }

  function MessageOf(s: Suite, r: SenderKeyRecord, plaintext: bytes): SenderKeyMessage {
    var keys := SenderKeyDerive(s, r.iteration, r.chainKey);
    SenderKeyMessage(r.uuid, r.chainId, r.iteration, Cbc.Encrypt(s, keys.cipher, keys.iv, plaintext))
  }

  /// A signed message and the next record; the iteration counter traps at its last value.
  function EncryptWith(s: Suite, r: SenderKeyRecord, plaintext: bytes, random: bytes): Result<(bytes, SenderKeyRecord)> {
    if r.iteration + 1 == TWO32 then Err(Panic)
    else Ok((SerializeSenderKey(s, MessageOf(s, r, plaintext), r.signingPrivate, random), Advanced(s, r)))
  }

  /// The record fast-forwarded to an iteration not behind it.
  function FastForward(s: Suite, r: SenderKeyRecord, iteration: u32): SenderKeyRecord
    decreases iteration - r.iteration
  {
    if r.iteration < iteration then FastForward(s, Advanced(s, r), iteration) else r
  }

  function DecryptWith(s: Suite, r: SenderKeyRecord, data: bytes): Result<(bytes, SenderKeyRecord)> {
    var m :- DeserializeSenderKey(s, data, r.signingPublic);
    if m.chainId != r.chainId then Err(InvalidMessage) else
    var c := FastForward(s, r, m.iteration);
    if c.iteration != m.iteration then Err(DuplicateMessage) else
    var keys := SenderKeyDerive(s, c.iteration, c.chainKey);
    var plaintext :- Cbc.Decrypt(s, keys.cipher, keys.iv, m.ciphertext);
    if c.iteration + 1 == TWO32 then Err(Panic) else
    Ok((plaintext, Advanced(s, c)))
  }

  // ---------------------------------------------------------------- operations on a store

  function Load(records: Records, key: StoreKey): Result<SenderKeyRecord> {
    if key !in records then Err(SessionNotFound) else DeserializeRecord(records[key])
  }

  function Save(records: Records, key: StoreKey, r: SenderKeyRecord): Records {
    records[key := SerializeRecord(r)]
  }

  /// The outcome, with the record saved when there is one.
  function Commit(records: Records, key: StoreKey, r: Result<(bytes, SenderKeyRecord)>): (Result<bytes>, Records) {
    if r.Err? then (Err(r.error), records) else (Ok(r.value.0), Save(records, key, r.value.1))
  }

  function EncryptIn(s: Suite, records: Records, key: StoreKey, plaintext: bytes, random: bytes): (Result<bytes>, Records) {
    var r := Load(records, key);
    if r.Err? then (Err(r.error), records)
    else Commit(records, key, EncryptWith(s, r.value, plaintext, random))
  }

  function DecryptIn(s: Suite, records: Records, key: StoreKey, data: bytes): (Result<bytes>, Records) {
    var r := Load(records, key);
    if r.Err? then (Err(r.error), records)
    else Commit(records, key, DecryptWith(s, r.value, data))
  }

  function DistributionOf(r: SenderKeyRecord): DistributionMessage {
    DistributionMessage(r.uuid, r.chainId, r.iteration, r.chainKey, r.signingPublic)
  }

  /// The first four bytes of the distribution id, little-endian.
  function ChainId(id: Block): u32 {
    assert Pow256(4) == TWO32;
    FromLittleEndian(id[..4])
  }

  /// The record of a new chain.
  function NewRecord(s: Suite, id: Block, chainKey: Key, signing: Key): SenderKeyRecord {
    SenderKeyRecord(3, ChainId(id), chainKey, 0, s.pub(signing), signing, id)
  }

  /// createSession with fresh keys: an existing, readable record is reused; a trap while reading it
  /// is no error that the code can catch.
  function CreateIn(s: Suite, records: Records, key: StoreKey, chainKey: Key, signing: Key)
    : (Result<DistributionMessage>, Records)
  {
    var r := Load(records, key);
    if r.Ok? then (Ok(DistributionOf(r.value)), records)
    else if r.error == Panic then (Err(Panic), records)
    else
      var created := NewRecord(s, key.id, chainKey, signing);
      (Ok(DistributionOf(created)), Save(records, key, created))
  }

  /// The receiver's record: no private signing key.
  function ReceivedRecord(m: DistributionMessage): SenderKeyRecord {
    SenderKeyRecord(3, m.chainId, m.chainKey, m.iteration, m.signingKey, Zeros(32), m.uuid)
  }

  function ProcessIn(records: Records, sender: Address, m: DistributionMessage): Records {
    Save(records, StoreKey(sender, m.uuid), ReceivedRecord(m))
  }

  // ---------------------------------------------------------------- the classes

  class SenderKeyStore {
    var records: Records

    constructor ()
      ensures records == map[]
    {
      records := map[];
    }
  }

  class GroupCipher {
    const suite: Suite
    const store: SenderKeyStore
    const key: StoreKey

    constructor (s: Suite, store: SenderKeyStore, sender: Address, id: Block)
      ensures suite == s && this.store == store && key == StoreKey(sender, id)
    {
      suite, this.store, key := s, store, StoreKey(sender, id);
    }

    method Encrypt(plaintext: Plaintext, random: bytes) returns (r: Result<bytes>)
      modifies store
      ensures (r, store.records) == EncryptIn(suite, old(store.records), key, plaintext, random)
    {
      hide DeserializeRecord, SerializeRecord, SerializeSenderKey, SenderKeyDerive, Cbc.Encrypt, NextSenderKey;
      if key !in store.records {
        return Err(SessionNotFound);
      }
      var loaded := DeserializeSenderKeyRecord(store.records[key]);
      if loaded.Err? {
        return Err(loaded.error);
      }
      var state := loaded.value;
      var keys := SenderKeyDerive(suite, state.iteration, state.chainKey);
      var buf := Cbc.EncryptLoop(suite, keys.cipher, keys.iv, plaintext);
      var msg := SenderKeyMessage(state.uuid, state.chainId, state.iteration, buf[..]);
      Cbc.EncryptLength(suite, keys.cipher, keys.iv, plaintext);
      var serialized := SerializeSenderKeyMessage(suite, msg, state.signingPrivate, random);
      if state.iteration + 1 == TWO32 {
        return Err(Panic);
      }
      state := state.(chainKey := NextSenderKey(suite, state.chainKey), iteration := state.iteration + 1);
      var saved := SerializeSenderKeyRecord(state);
      store.records := store.records[key := saved];
      r := Ok(serialized);
    }

    method Decrypt(data: bytes) returns (r: Result<bytes>)
      modifies store
      ensures (r, store.records) == DecryptIn(suite, old(store.records), key, data)
    {
      hide DeserializeRecord, SerializeRecord, DeserializeSenderKey, SenderKeyDerive, Cbc.Decrypt, NextSenderKey;
      if key !in store.records {
        return Err(SessionNotFound);
      }
      var loaded := DeserializeSenderKeyRecord(store.records[key]);
      if loaded.Err? {
        return Err(loaded.error);
      }
      var state := loaded.value;
      var m := DeserializeAndVerify(suite, data, state.signingPublic);
      if m.Err? {
        return Err(m.error);
      }
      if m.value.chainId != state.chainId {
        return Err(InvalidMessage);
      }
      var current := state;
      while current.iteration < m.value.iteration
        invariant FastForward(suite, current, m.value.iteration) == FastForward(suite, state, m.value.iteration)
        decreases m.value.iteration - current.iteration
      {
        current := current.(chainKey := NextSenderKey(suite, current.chainKey), iteration := current.iteration + 1);
      }
      if current.iteration != m.value.iteration {
        return Err(DuplicateMessage);
      }
      var keys := SenderKeyDerive(suite, current.iteration, current.chainKey);
      var plaintext := Cbc.DecryptLoop(suite, keys.cipher, keys.iv, m.value.ciphertext);
      if plaintext.Err? {
        return Err(plaintext.error);
      }
      if current.iteration + 1 == TWO32 {
        return Err(Panic);
      }
      current := current.(chainKey := NextSenderKey(suite, current.chainKey), iteration := current.iteration + 1);
      var saved := SerializeSenderKeyRecord(current);
      store.records := store.records[key := saved];
      r := Ok(plaintext.value);
    }
  }

  class GroupSessionBuilder {
    const suite: Suite
    const store: SenderKeyStore

    constructor (s: Suite, store: SenderKeyStore)
      ensures suite == s && this.store == store
    {
      suite, this.store := s, store;
    }

    /// The fresh chain key and signing key are used only when there is no readable record.
    method CreateSession(sender: Address, id: Block, chainKey: Key, signing: Key) returns (r: Result<DistributionMessage>)
      modifies store
      ensures (r, store.records) == CreateIn(suite, old(store.records), StoreKey(sender, id), chainKey, signing)
    {
      hide DeserializeRecord, SerializeRecord;
      var key := StoreKey(sender, id);
      if key in store.records {
        var loaded := DeserializeSenderKeyRecord(store.records[key]);
        if loaded.Ok? {
          var st := loaded.value;
          return Ok(DistributionMessage(st.uuid, st.chainId, st.iteration, st.chainKey, st.signingPublic));
        }
        if loaded.error == Panic {
          return Err(Panic);
        }
      }
      var chainId := ChainId(id);
      var state := SenderKeyRecord(3, chainId, chainKey, 0, suite.pub(signing), signing, id);
      var saved := SerializeSenderKeyRecord(state);
      store.records := store.records[key := saved];
      r := Ok(DistributionMessage(id, chainId, 0, chainKey, suite.pub(signing)));
    }

    method ProcessSession(sender: Address, m: DistributionMessage)
      modifies store
      ensures store.records == ProcessIn(old(store.records), sender, m)
    {
      hide SerializeRecord;
      var state := SenderKeyRecord(3, m.chainId, m.chainKey, m.iteration, m.signingKey, Zeros(32), m.uuid);
      var saved := SerializeSenderKeyRecord(state);
      store.records := store.records[StoreKey(sender, m.uuid) := saved];
    }
  }

  lemma LoadSaved(records: Records, key: StoreKey, r: SenderKeyRecord)
    ensures Load(Save(records, key, r), key) == Ok(r)
    ensures forall k :: k != key ==> Load(Save(records, key, r), k) == Load(records, k)
  {
    hide DeserializeRecord, SerializeRecord;
    RecordRoundTrip(r);
  }

  /// A failed operation leaves the store as it was, and a successful one touches its own record only.
  lemma OthersUnchanged(s: Suite, records: Records, key: StoreKey, data: bytes, random: bytes)
    ensures var (r, after) := DecryptIn(s, records, key, data);
      (r.Err? ==> after == records) && after - {key} == records - {key}
    ensures var (r, after) := EncryptIn(s, records, key, data, random);
      (r.Err? ==> after == records) && after - {key} == records - {key}
  {
    hide DeserializeRecord, SerializeRecord, DecryptWith, EncryptWith;
  }

  // ---------------------------------------------------------------- the chain

  /// The n-fold successor of a chain key.
  function ChainKeyAt(s: Suite, chainKey: Key, n: nat): Key {
    if n == 0 then chainKey else NextSenderKey(s, ChainKeyAt(s, chainKey, n - 1))
  }

  /// The sender's record after n messages.
  function RecordAt(s: Suite, r: SenderKeyRecord, n: nat): SenderKeyRecord
    requires r.iteration + n < TWO32
  {
    r.(chainKey := ChainKeyAt(s, r.chainKey, n), iteration := r.iteration + n)
  }

  /// A receiver of the chain that expects message n.
  function ReceiverAt(s: Suite, r: SenderKeyRecord, n: nat): SenderKeyRecord
    requires r.iteration + n < TWO32
  {
    ReceivedRecord(DistributionOf(RecordAt(s, r, n)))
  }

  lemma {:induction false} FastForwardTo(s: Suite, r: SenderKeyRecord, m: nat, n: nat)
    requires m <= n && r.iteration + n < TWO32
    ensures FastForward(s, ReceiverAt(s, r, m), r.iteration + n) == ReceiverAt(s, r, n)
    decreases n - m
  {
    hide NextSenderKey;
    if m < n {
      FastForwardTo(s, r, m + 1, n);
      assert Advanced(s, ReceiverAt(s, r, m)) == ReceiverAt(s, r, m + 1);
    }
  }

  lemma {:induction false} ChainKeyNext(s: Suite, chainKey: Key, n: nat)
    ensures ChainKeyAt(s, NextSenderKey(s, chainKey), n) == ChainKeyAt(s, chainKey, n + 1)
  {
    hide NextSenderKey;
    if n > 0 {
      ChainKeyNext(s, chainKey, n - 1);
    }
  }

  /// Every record fast-forwards to an iteration ahead of it.
  lemma {:induction false} FastForwardIs(s: Suite, r: SenderKeyRecord, iteration: u32)
    ensures r.iteration <= iteration ==>
      FastForward(s, r, iteration) == r.(chainKey := ChainKeyAt(s, r.chainKey, iteration - r.iteration), iteration := iteration)
    ensures iteration < r.iteration ==> FastForward(s, r, iteration) == r
    decreases iteration - r.iteration
  {
    hide NextSenderKey;
    if r.iteration < iteration {
      FastForwardIs(s, Advanced(s, r), iteration);
      ChainKeyNext(s, r.chainKey, iteration - r.iteration - 1);
    }
  }

  /// For every record and all data: decryption decides by the signature of the record's public key
  /// over everything before the last 64 bytes, then by chain and iteration; what it opens with is the
  /// chain's key of the message's iteration, and the record then stands after that.
  lemma DecryptDecides(s: Suite, r: SenderKeyRecord, data: bytes)
    ensures var out := DecryptWith(s, r, data);
      && (|data| < 65 ==> out == Err(InvalidMessage))
      && (|data| >= 65 && data[0] / 16 < 3 ==> out == Err(LegacyCiphertextVersion))
      && (|data| >= 65 && data[0] / 16 >= 3 && !s.verify(r.signingPublic, data[..|data| - 64], data[|data| - 64..]) ==>
            out == Err(InvalidSignature))
      && (out.Ok? ==> |data| >= 65 && s.verify(r.signingPublic, data[..|data| - 64], data[|data| - 64..]))
    ensures var m := DeserializeSenderKey(s, data, r.signingPublic);
      var out := DecryptWith(s, r, data);
      && (m.Err? ==> out == Err(m.error))
      && (m.Ok? && m.value.chainId != r.chainId ==> out == Err(InvalidMessage))
      && (m.Ok? && m.value.chainId == r.chainId && m.value.iteration < r.iteration ==> out == Err(DuplicateMessage))
      && (m.Ok? && m.value.chainId == r.chainId && m.value.iteration >= r.iteration ==>
            var ahead := m.value.iteration - r.iteration;
            var keys := SenderKeyDerive(s, m.value.iteration, ChainKeyAt(s, r.chainKey, ahead));
            var plaintext := Cbc.Decrypt(s, keys.cipher, keys.iv, m.value.ciphertext);
            && (plaintext.Err? ==> out == Err(plaintext.error))
            && (plaintext.Ok? ==>
                  out == if m.value.iteration + 1 == TWO32 then Err(Panic)
                         else Ok((plaintext.value, r.(chainKey := ChainKeyAt(s, r.chainKey, ahead + 1), iteration := m.value.iteration + 1)))))
  {
    hide NextSenderKey, SenderKeyDerive, Cbc.Decrypt, Scan, SenderKeyResult;
    var m := DeserializeSenderKey(s, data, r.signingPublic);
    if m.Ok? {
      FastForwardIs(s, r, m.value.iteration);
    }
  }

  /// Message n of the chain, as its sender makes it.
  function MessageAt(s: Suite, r: SenderKeyRecord, n: nat, plaintext: bytes, random: bytes): bytes
    requires r.iteration + n < TWO32
  {
    SerializeSenderKey(s, MessageOf(s, RecordAt(s, r, n), plaintext), r.signingPrivate, random)
  }

  /// What a receiver expecting message m makes of message n: the plaintext, unless it is behind.
  lemma Receive(s: Suite, r: SenderKeyRecord, m: nat, n: nat, plaintext: Plaintext, random: bytes)
    requires SignLaw(s) && BlockLaw(s)
    requires r.signingPublic == s.pub(r.signingPrivate)
    requires r.iteration + m < TWO32 && r.iteration + n + 1 < TWO32
    ensures DecryptWith(s, ReceiverAt(s, r, m), MessageAt(s, r, n, plaintext, random))
         == if n < m then Err(DuplicateMessage) else Ok((plaintext, ReceiverAt(s, r, n + 1)))
  {
    hide NextSenderKey, SenderKeyDerive, Cbc.Encrypt, Cbc.Decrypt, DeserializeSenderKey, SerializeSenderKey;
    var sender := RecordAt(s, r, n);
    var msg := MessageOf(s, sender, plaintext);
    var keys := SenderKeyDerive(s, sender.iteration, sender.chainKey);
    Cbc.EncryptLength(s, keys.cipher, keys.iv, plaintext);
    SenderKeyRoundTrip(s, msg, r.signingPrivate, random);
    if m <= n {
      FastForwardTo(s, r, m, n);
      Cbc.RoundTrip(s, keys.cipher, keys.iv, plaintext);
      assert Advanced(s, ReceiverAt(s, r, n)) == ReceiverAt(s, r, n + 1);
    }
  }

  // ---------------------------------------------------------------- one sender, many receivers

  datatype Sent = Sent(plaintext: Plaintext, message: bytes)

  /// A receiver: its store and, since its last processSession, the position in the chain of the
  /// distribution message it processed and the messages delivered to it.
  datatype Receiver = Receiver(records: Records, start: nat, seen: seq<nat>)

  /// A distribution message, made when `position` messages had been sent.
  datatype Issued = Issued(position: nat, message: bytes)

  datatype System = System(sender: Records, sent: seq<Sent>, issued: seq<Issued>, receivers: map<nat, Receiver>)

  datatype Step =
    | Send(plaintext: Plaintext, random: bytes)
    | Issue(chainKey: Key, signing: Key)                          // a distribution message, made now
    | Process(receiver: nat, records: Records, distribution: nat) // one made before; records is a newcomer's store
    | Deliver(receiver: nat, message: nat)
    | Forged(receiver: nat, data: bytes)

  /// A group: the sender's keys and its address.
  datatype Config = Config(suite: Suite, key: StoreKey, chainKey: Key, signing: Key)

  function First(c: Config): SenderKeyRecord {
    NewRecord(c.suite, c.key.id, c.chainKey, c.signing)
  }

  function Init(c: Config, records: Records): System {
    System(CreateIn(c.suite, records, c.key, c.chainKey, c.signing).1, [], [], map[])
  }

  /// The steps that can happen: of the messages and distribution messages that were made, any may
  /// reach any receiver, late, again or never; or something that does not parse under the sender's
  /// public key does.
  predicate Enabled(c: Config, sys: System, step: Step) {
    match step
    case Send(_, _) => true
    case Issue(_, _) => true
    case Process(_, _, d) => d < |sys.issued|
    case Deliver(i, j) => i in sys.receivers && j < |sys.sent|
    case Forged(i, data) => i in sys.receivers && DeserializeSenderKey(c.suite, data, c.suite.pub(c.signing)).Err?
  }

  /// One step, and what the caller of a Send or a delivery gets.
  function Next(c: Config, sys: System, step: Step): (System, Result<bytes>)
    requires Enabled(c, sys, step)
  {
    match step
    case Send(plaintext, random) =>
      var (r, sender) := EncryptIn(c.suite, sys.sender, c.key, plaintext, random);
      (sys.(sender := sender, sent := if r.Ok? then sys.sent + [Sent(plaintext, r.value)] else sys.sent), r)
    case Issue(chainKey, signing) =>
      var (m, sender) := CreateIn(c.suite, sys.sender, c.key, chainKey, signing);
      if m.Err? then (sys.(sender := sender), Err(m.error))
      else (sys.(sender := sender, issued := sys.issued + [Issued(|sys.sent|, SerializeDistribution(m.value))]), Ok([]))
    case Process(i, records, d) =>
      var m := DeserializeDistribution(sys.issued[d].message);
      if m.Err? then (sys, Err(m.error))
      else
        var store := if i in sys.receivers then sys.receivers[i].records else records;
        var p := Receiver(ProcessIn(store, c.key.sender, m.value), sys.issued[d].position, []);
        (sys.(receivers := sys.receivers[i := p]), Ok([]))
    case Deliver(i, j) =>
      var p := sys.receivers[i];
      var (r, records) := DecryptIn(c.suite, p.records, c.key, sys.sent[j].message);
      (sys.(receivers := sys.receivers[i := p.(records := records, seen := p.seen + [j])]), r)
    case Forged(i, data) =>
      var p := sys.receivers[i];
      var (r, records) := DecryptIn(c.suite, p.records, c.key, data);
      (sys.(receivers := sys.receivers[i := p.(records := records)]), r)
  }

  /// The message a receiver expects: after its starting point and everything delivered to it.
  function Expected(start: nat, seen: seq<nat>): nat {
    if seen == [] then start
    else
      var before := Expected(start, seen[..|seen| - 1]);
      if seen[|seen| - 1] < before then before else seen[|seen| - 1] + 1
  }

  /// Message j is a strict running maximum, at or above the start.
  predicate NewMaximum(start: nat, seen: seq<nat>, j: nat) {
    start <= j && forall i :: 0 <= i < |seen| ==> seen[i] < j
  }

  lemma {:induction false} ExpectedIsMaximum(start: nat, seen: seq<nat>, j: nat)
    ensures Expected(start, seen) <= j <==> NewMaximum(start, seen, j)
  {
    if seen != [] {
      var n := |seen| - 1;
      ExpectedIsMaximum(start, seen[..n], j);
      assert forall i :: 0 <= i < n ==> seen[..n][i] == seen[i];
    }
  }

  ghost predicate ReceiverOk(c: Config, sent: nat, p: Receiver) {
    var n := Expected(p.start, p.seen);
    && n <= sent < TWO32
    && Load(p.records, c.key) == Ok(ReceiverAt(c.suite, First(c), n))
  }

  ghost predicate SentOk(c: Config, j: nat, sent: Sent)
    requires j < TWO32
  {
    exists random :: sent.message == MessageAt(c.suite, First(c), j, sent.plaintext, random)
  }

  predicate IssuedOk(c: Config, sent: nat, d: Issued) {
    && d.position <= sent < TWO32
    && d.message == SerializeDistribution(DistributionOf(RecordAt(c.suite, First(c), d.position)))
  }

  ghost predicate AllSent(c: Config, sent: seq<Sent>)
    requires |sent| < TWO32
  {
    forall j :: 0 <= j < |sent| ==> SentOk(c, j, sent[j])
  }

  predicate AllIssued(c: Config, sent: nat, issued: seq<Issued>) {
    forall d :: 0 <= d < |issued| ==> IssuedOk(c, sent, issued[d])
  }

  ghost predicate AllReceivers(c: Config, sent: nat, receivers: map<nat, Receiver>) {
    forall i :: i in receivers ==> ReceiverOk(c, sent, receivers[i])
  }

  /// What every step keeps: the sender's record is the |sent|-fold successor of the first, every
  /// message and distribution message is that of its position, and every receiver's record is that
  /// of the message it expects.
  ghost predicate Inv(c: Config, sys: System) {
    && |sys.sent| < TWO32
    && Load(sys.sender, c.key) == Ok(RecordAt(c.suite, First(c), |sys.sent|))
    && AllSent(c, sys.sent)
    && AllIssued(c, |sys.sent|, sys.issued)
    && AllReceivers(c, |sys.sent|, sys.receivers)
  }

  /// The sender starts without a readable record.
  predicate NoRecord(c: Config, records: Records) {
    Load(records, c.key).Err? && Load(records, c.key).error != Panic
  }

  lemma InitInv(c: Config, records: Records)
    requires NoRecord(c, records)
    ensures Inv(c, Init(c, records))
  {
    hide NextSenderKey;
    hide DeserializeRecord, SerializeRecord;
    LoadSaved(records, c.key, First(c));
  }

  /// One more message leaves what was made and received before as it is.
  lemma MoreSent(c: Config, sent: nat, issued: seq<Issued>, receivers: map<nat, Receiver>)
    requires sent + 1 < TWO32 && AllIssued(c, sent, issued) && AllReceivers(c, sent, receivers)
    ensures AllIssued(c, sent + 1, issued) && AllReceivers(c, sent + 1, receivers)
  {
    hide RecordAt, Load, Expected, SerializeDistribution;
    assert forall d :: 0 <= d < |issued| ==> IssuedOk(c, sent, issued[d]);
    assert forall i :: i in receivers ==> ReceiverOk(c, sent, receivers[i]);
  }

  lemma SentMore(c: Config, sent: seq<Sent>, plaintext: Plaintext, random: bytes)
    requires |sent| + 1 < TWO32 && AllSent(c, sent)
    ensures AllSent(c, sent + [Sent(plaintext, MessageAt(c.suite, First(c), |sent|, plaintext, random))])
  {
    hide MessageAt;
    var n := |sent|;
    var all := sent + [Sent(plaintext, MessageAt(c.suite, First(c), n, plaintext, random))];
    forall j | 0 <= j < |all| ensures SentOk(c, j, all[j]) {
      if j < n {
        assert all[j] == sent[j];
      }
    }
  }

  lemma SendStep(c: Config, sys: System, plaintext: Plaintext, random: bytes)
    requires Inv(c, sys)
    ensures var (after, r) := Next(c, sys, Send(plaintext, random));
      && Inv(c, after) && after.receivers == sys.receivers && after.issued == sys.issued
      && (r.Ok? <==> |sys.sent| + 1 < TWO32)
      && (r.Err? ==> after == sys && r.error == Panic)
  {
    hide NextSenderKey, DeserializeRecord, SerializeRecord, SerializeSenderKey, MessageOf, AllSent, AllIssued, AllReceivers;
    var n := |sys.sent|;
    var now := RecordAt(c.suite, First(c), n);
    if n + 1 < TWO32 {
      assert Advanced(c.suite, now) == RecordAt(c.suite, First(c), n + 1);
      LoadSaved(sys.sender, c.key, Advanced(c.suite, now));
      SentMore(c, sys.sent, plaintext, random);
      MoreSent(c, n, sys.issued, sys.receivers);
      assert MessageAt(c.suite, First(c), n, plaintext, random)
          == SerializeSenderKey(c.suite, MessageOf(c.suite, now, plaintext), now.signingPrivate, random);
    } else {
      assert sys.(sender := sys.sender, sent := sys.sent) == sys;
    }
  }

  /// Making a distribution message reuses the record: it is that of the sender's present position.
  lemma IssueStep(c: Config, sys: System, chainKey: Key, signing: Key)
    requires Inv(c, sys)
    ensures var (after, r) := Next(c, sys, Issue(chainKey, signing));
      && Inv(c, after) && r.Ok? && after == sys.(issued := after.issued)
      && after.issued == sys.issued + [Issued(|sys.sent|, SerializeDistribution(DistributionOf(RecordAt(c.suite, First(c), |sys.sent|))))]
  {
    hide NextSenderKey, DeserializeRecord, SerializeDistribution, AllSent, AllReceivers, RecordAt;
    var d := Issued(|sys.sent|, SerializeDistribution(DistributionOf(RecordAt(c.suite, First(c), |sys.sent|))));
    assert IssuedOk(c, |sys.sent|, d);
    assert forall k :: 0 <= k < |sys.issued| ==> IssuedOk(c, |sys.sent|, sys.issued[k]);
    assert AllIssued(c, |sys.sent|, sys.issued + [d]);
  }

  /// Processing one that was made before, now or again: the receiver then expects the message that
  /// was next when it was made, whatever it had received.
  lemma ProcessStep(c: Config, sys: System, i: nat, records: Records, d: nat)
    requires Inv(c, sys) && d < |sys.issued|
    ensures var (after, r) := Next(c, sys, Process(i, records, d));
      && Inv(c, after) && r.Ok? && i in after.receivers
      && after.receivers[i].start == sys.issued[d].position && after.receivers[i].seen == []
      && after == sys.(receivers := sys.receivers[i := after.receivers[i]])
  {
    hide NextSenderKey, DeserializeRecord, SerializeRecord, DeserializeDistribution, SerializeDistribution, AllSent, ChainKeyAt;
    var n := sys.issued[d].position;
    assert IssuedOk(c, |sys.sent|, sys.issued[d]);
    var m := DistributionOf(RecordAt(c.suite, First(c), n));
    DistributionRoundTrip(m);
    var store := if i in sys.receivers then sys.receivers[i].records else records;
    LoadSaved(store, c.key, ReceivedRecord(m));
    assert StoreKey(c.key.sender, m.uuid) == c.key;
    var p := Receiver(ProcessIn(store, c.key.sender, m), n, []);
    assert ReceiverOk(c, |sys.sent|, p);
    var receivers := sys.receivers[i := p];
    assert AllReceivers(c, |sys.sent|, receivers) by {
      assert forall k :: k in sys.receivers ==> ReceiverOk(c, |sys.sent|, sys.receivers[k]);
    }
  }

  /// One receiver and message j: accepted, with the plaintext that was sent, iff j is a strict
  /// running maximum at or above the start; otherwise a duplicate.
  lemma DeliverTo(c: Config, n: nat, p: Receiver, j: nat, sent: Sent)
    requires SignLaw(c.suite) && BlockLaw(c.suite)
    requires ReceiverOk(c, n, p) && j < n && SentOk(c, j, sent)
    ensures var (r, records) := DecryptIn(c.suite, p.records, c.key, sent.message);
      && ReceiverOk(c, n, p.(records := records, seen := p.seen + [j]))
      && r == (if NewMaximum(p.start, p.seen, j) then Ok(sent.plaintext) else Err(DuplicateMessage))
      && (r.Err? ==> records == p.records)
  {
    hide NextSenderKey, DeserializeRecord, SerializeRecord, DecryptWith, MessageAt;
    var m := Expected(p.start, p.seen);
    var random :| sent.message == MessageAt(c.suite, First(c), j, sent.plaintext, random);
    Receive(c.suite, First(c), m, j, sent.plaintext, random);
    ExpectedIsMaximum(p.start, p.seen, j);
    assert (p.seen + [j])[..|p.seen|] == p.seen;
    if m <= j {
      LoadSaved(p.records, c.key, ReceiverAt(c.suite, First(c), j + 1));
    }
  }

  lemma DeliverStep(c: Config, sys: System, i: nat, j: nat)
    requires SignLaw(c.suite) && BlockLaw(c.suite)
    requires Inv(c, sys) && Enabled(c, sys, Deliver(i, j))
    ensures var (after, r) := Next(c, sys, Deliver(i, j));
      && var p := sys.receivers[i];
      && Inv(c, after)
      && r == (if NewMaximum(p.start, p.seen, j) then Ok(sys.sent[j].plaintext) else Err(DuplicateMessage))
      && (r.Err? ==> after.receivers[i].records == p.records)
      && after.sender == sys.sender && after.sent == sys.sent
  {
    hide ReceiverOk, SentOk, DecryptIn, NewMaximum, RecordAt, Load, AllIssued;
    assert SentOk(c, j, sys.sent[j]);
    DeliverTo(c, |sys.sent|, sys.receivers[i], j, sys.sent[j]);
    var after := Next(c, sys, Deliver(i, j)).0;
    assert after.receivers == sys.receivers[i := after.receivers[i]];
    assert AllReceivers(c, |sys.sent|, after.receivers);
  }

  lemma ForgedStep(c: Config, sys: System, i: nat, data: bytes)
    requires Inv(c, sys) && Enabled(c, sys, Forged(i, data))
    ensures var (after, r) := Next(c, sys, Forged(i, data)); after == sys && r.Err?
  {
    hide NextSenderKey, DeserializeRecord, SerializeRecord, DeserializeSenderKey;
    var p := sys.receivers[i];
    assert ReceiverOk(c, |sys.sent|, p);
    assert p.(records := p.records) == p;
    assert sys.receivers[i := p] == sys.receivers;
  }

  /// The states along a run.
  ghost predicate IsRun(c: Config, states: seq<System>, steps: seq<Step>) {
    && |states| == |steps| + 1
    && forall k :: 0 <= k < |steps| ==> Enabled(c, states[k], steps[k]) && states[k + 1] == Next(c, states[k], steps[k]).0
  }

  lemma {:induction false} RunInv(c: Config, states: seq<System>, steps: seq<Step>)
    requires SignLaw(c.suite) && BlockLaw(c.suite)
    requires IsRun(c, states, steps) && Inv(c, states[0])
    ensures forall k :: 0 <= k < |states| ==> Inv(c, states[k])
    decreases |steps|
  {
    hide Inv, Enabled, Next;
    if steps != [] {
      var n := |steps| - 1;
      assert forall k :: 0 <= k < n ==> steps[..n][k] == steps[k];
      assert forall k :: 0 <= k <= n ==> states[..n + 1][k] == states[k];
      assert forall k :: 0 <= k < n ==> steps[..n][k] == steps[k] && states[..n + 1][k + 1] == states[k + 1];
      assert IsRun(c, states[..n + 1], steps[..n]);
      RunInv(c, states[..n + 1], steps[..n]);
      assert states[..n + 1][n] == states[n];
      StepInv(c, states[n], steps[n]);
      forall k | 0 <= k < |states| ensures Inv(c, states[k]) {
        if k <= n {
          assert states[..n + 1][k] == states[k];
        }
      }
    }
  }

  lemma StepInv(c: Config, sys: System, step: Step)
    requires SignLaw(c.suite) && BlockLaw(c.suite)
    requires Inv(c, sys) && Enabled(c, sys, step)
    ensures Inv(c, Next(c, sys, step).0)
  {
    hide Inv, Next;
    match step
    case Send(plaintext, random) => SendStep(c, sys, plaintext, random);
    case Issue(chainKey, signing) => IssueStep(c, sys, chainKey, signing);
    case Process(i, records, d) => ProcessStep(c, sys, i, records, d);
    case Deliver(i, j) => DeliverStep(c, sys, i, j);
    case Forged(i, data) => ForgedStep(c, sys, i, data);
  }

  /// In every run of a group, whatever is lost, reordered, duplicated or forged, the distribution
  /// messages included: a delivery is accepted iff its message is newer than everything delivered to
  /// that receiver since it last processed a distribution message, and not older than that one; it
  /// then yields the plaintext sent.
  lemma EveryRun(c: Config, records: Records, states: seq<System>, steps: seq<Step>, k: nat)
    requires SignLaw(c.suite) && BlockLaw(c.suite) && NoRecord(c, records)
    requires IsRun(c, states, steps) && states[0] == Init(c, records)
    requires k < |steps| && steps[k].Deliver?
    ensures var sys, i, j := states[k], steps[k].receiver, steps[k].message;
      && Enabled(c, sys, steps[k])
      && var p := sys.receivers[i];
      && var r := Next(c, sys, steps[k]).1;
      && r == (if NewMaximum(p.start, p.seen, j) then Ok(sys.sent[j].plaintext) else Err(DuplicateMessage))
      && (r.Err? ==> states[k + 1].receivers[i].records == p.records)
  {
    hide Inv, Next, Init;
    InitInv(c, records);
    RunInv(c, states, steps);
    DeliverStep(c, states[k], steps[k].receiver, steps[k].message);
  }
}
