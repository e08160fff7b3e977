/// Two parties of one session under loss, reordering and duplication: in every run the ledger of
/// their ratchet keys explains both stored states, and tells what each delivery returns.
module TwoParty {
  import opened Bytes
  import opened Crypto
  import opened Kdf
  import opened Curve
  import opened Messages
  import opened Ratchet
  import opened SessionBytes
  import opened Session
  import opened Ledger
  import opened Delivery
  import X3dh

  /// The initiator's and the responder's devices, the bundle, and what the initiator draws.
  datatype Config = Config(suite: Suite, alice: Local, bob: Local, aliceAddress: Address, bobAddress: Address,
                           bundle: Bundle, drawn: Fresh, preKeys: PreKeys)

  // ---------------------------------------------------------------- the system

  type Epochs = e: seq<Epoch> | |e| >= 2 witness [Epoch(Zeros(32), Zeros(32), Zeros(32)), Epoch(Zeros(32), Zeros(32), Zeros(32))]

  /// What happened so far: the ratchet keys made, the messages sent, and those whose acceptance was
  /// stored, each in order.
  datatype Log = Log(epochs: Epochs, sent: seq<Sent>, stored: seq<Mark>)

  datatype System = System(log: Log, alice: Sessions, bob: Sessions, preKeys: PreKeys)

  datatype Step =
    | AliceSends(plaintext: Plaintext, random: bytes)
    | BobSends(plaintext: Plaintext, random: bytes)
    | ToAlice(message: nat, freshKey: Key)          // a message of Bob's, to decryptMessage
    | ToBob(message: nat, freshKey: Key)            // a message of Alice's, to decryptPreKeyMessage
    | InnerToBob(message: nat, freshKey: Key)       // the message inside it, to decryptMessage
    | BadToAlice(data: bytes, freshKey: Key)        // anything that decryptMessage refuses
    | BadToBob(data: bytes, freshKey: Key)
    | BadPreKeyToBob(data: bytes, freshKey: Key)    // anything that decryptPreKeyMessage refuses

  /// The latest epochs of the two parties: odd positions are Alice's, even ones Bob's.
  function AlicePosition(epochs: Epochs): (t: nat)
    ensures t % 2 == 1 && t + 1 <= |epochs| <= t + 2
  {
    if |epochs| % 2 == 0 then |epochs| - 1 else |epochs| - 2
  }

  function BobPosition(epochs: Epochs): (t: nat)
    ensures t % 2 == 0 && t + 1 <= |epochs| <= t + 2
  {
    if |epochs| % 2 == 0 then |epochs| - 2 else |epochs| - 1
  }

  // The session that the bundle starts.

  function AliceParams(c: Config): X3dh.AliceParams {
    AliceParamsOf(c.suite, c.alice, c.bundle, c.drawn)
  }

  /// Bob holds the private halves of what the bundle publishes.
  predicate BundleOf(c: Config) {
    var s, b, k := c.suite, c.bundle, c.preKeys;
    && b.identity == s.pub(c.bob.identity)
    && b.signedPreKeyId in k.signed && b.signedPreKey == s.pub(k.signed[b.signedPreKeyId])
    && b.preKeyId.Some? == b.preKey.Some?
    && (b.preKeyId.Some? ==> b.preKeyId.value in k.oneTime && b.preKey.value == s.pub(k.oneTime[b.preKeyId.value]))
    && b.kyberId.Some? == b.kyberKey.Some?
    && (b.kyberId.Some? ==> k.kyber.Some? && b.kyberId.value in k.kyber.value
                            && b.kyberKey.value == s.kemPub(k.kyber.value[b.kyberId.value]))
    && Public(s, Epoch(k.signed[b.signedPreKeyId], b.identity, b.identity)) != s.pub(c.drawn.ratchet)
  }

  /// The bundle is of use: Alice's state for it can be made.
  predicate Usable(c: Config) {
    BundleOf(c) && AliceState(c.suite, c.alice, c.bundle, c.drawn).Ok?
  }

  function AliceFirst(c: Config): State
    requires Usable(c)
  {
    AliceState(c.suite, c.alice, c.bundle, c.drawn).value
  }

  /// The pre-key message that wraps an inner message of Alice's.
  function Wrapped(c: Config, signal: bytes): PreKeySignalMessage
    requires Usable(c)
  {
    PreKeyOf(AliceFirst(c), c.suite.pub(c.alice.identity), signal)
  }

  function BobParams(c: Config): X3dh.BobParams
    requires Usable(c)
  {
    BobParamsOf(c.bob, c.preKeys, Wrapped(c, [])).value
  }

  function BobFirst(c: Config): State
    requires Usable(c)
  {
    BobState(c.suite, c.bob, Wrapped(c, []), BobParams(c), X3dh.Alice(c.suite, AliceParams(c)).value.keys)
  }

  /// The two first epochs: Bob's signed pre-key with the agreed keys, and Alice's first ratchet key.
  function FirstEpochs(c: Config): (e: Epochs)
    requires Usable(c)
    ensures |e| == 2
  {
    var b, a := BobFirst(c), AliceFirst(c);
    [Epoch(b.senderPrivate, b.root, b.senderChain.key), Epoch(a.senderPrivate, a.root, a.senderChain.key)]
  }

  /// Alice has processed the bundle; Bob has no session with this base key yet.
  predicate CanStart(c: Config, alice: Sessions, bob: Sessions) {
    && Usable(c)
    && Validate(c.suite, c.bundle).Ok?
    && !SameSession(RecordOf(bob, c.aliceAddress), Wrapped(c, []))
  }

  function Init(c: Config, alice: Sessions, bob: Sessions): System
    requires Usable(c)
  {
    System(Log(FirstEpochs(c), [], []),
           ProcessBundleIn(c.suite, c.alice, alice, c.bobAddress, true, c.bundle, c.drawn).1, bob, c.preKeys)
  }

  predicate Established(c: Config, sys: System)
    requires Usable(c)
  {
    SameSession(RecordOf(sys.bob, c.aliceAddress), Wrapped(c, []))
  }

  function AliceNow(c: Config, sys: System): Result<State> {
    Current(sys.alice, c.bobAddress)
  }

  /// The state that Bob decrypts with: his stored one, or the one a pre-key message starts.
  function BobNow(c: Config, sys: System): State
    requires Usable(c)
  {
    if Established(c, sys) then RecordOf(sys.bob, c.aliceAddress).current.value else BobFirst(c)
  }

  // ---------------------------------------------------------------- the invariant

  /// The two identities a message is bound to, by its epoch's owner.
  function Sender(c: Config, m: Sent): Key {
    c.suite.pub(if m.epoch % 2 == 1 then c.alice.identity else c.bob.identity)
  }

  function Receiver(c: Config, m: Sent): Key {
    c.suite.pub(if m.epoch % 2 == 1 then c.bob.identity else c.alice.identity)
  }

  function SignalIn(c: Config, epochs: seq<Epoch>, m: Sent): bytes
    requires m.epoch < |epochs|
  {
    Signal(c.suite, epochs, m, Sender(c, m), Receiver(c, m))
  }

  predicate SentOk(c: Config, epochs: seq<Epoch>, m: Sent)
    requires Usable(c)
  {
    && m.epoch < |epochs| && m.counter + 1 < TWO32
    && 3 <= m.version < 16
    && (c.bundle.kyberKey.None? ==> m.pqr == None)
    && m.message == (if m.epoch % 2 == 1 then PreKeyMessage(SerializePreKey(Wrapped(c, SignalIn(c, epochs, m))))
                     else WhisperMessage(SignalIn(c, epochs, m)))
  }

  /// How many of the messages are of an epoch.
  function CountIn(sent: seq<Sent>, epoch: nat): nat {
    if sent == [] then 0
    else CountIn(sent[..|sent| - 1], epoch) + (if sent[|sent| - 1].epoch == epoch then 1 else 0)
  }

  predicate CountedAt(sent: seq<Sent>, j: nat)
    requires j < |sent|
  {
    sent[j].counter == CountIn(sent[..j], sent[j].epoch)
  }

  ghost predicate SentInv(c: Config, epochs: seq<Epoch>, sent: seq<Sent>)
    requires Usable(c)
  {
    forall j :: 0 <= j < |sent| ==> SentOk(c, epochs, sent[j])
  }

  /// Every message is that of its epoch and counter; counters are dense; what was stored is known.
  ghost predicate LogOk(c: Config, log: Log)
    requires Usable(c)
  {
    && SentInv(c, log.epochs, log.sent)
    && (forall j :: 0 <= j < |log.sent| ==> CountedAt(log.sent, j))
    && (forall i :: 0 <= i < |log.stored| ==> log.stored[i].epoch < |log.epochs|)
  }

  /// A party's state at position t.
  ghost predicate PartyNow(s: Suite, log: Log, t: nat, st: State, first: State) {
    && Reads(s, log.epochs, log.stored, t, st)
    && SameFixed(st, first)
    && st.senderChain.index == CountIn(log.sent, t)
    && (first.pqState == [] ==> st.pqState == [])
  }

  /// Failed pre-key messages may have used up pre-keys, but changed none.
  predicate PreKeysOk(c: Config, keys: PreKeys) {
    && keys.signed == c.preKeys.signed && keys.kyber == c.preKeys.kyber
    && forall id :: id in keys.oneTime ==> id in c.preKeys.oneTime && keys.oneTime[id] == c.preKeys.oneTime[id]
  }

  ghost predicate AliceInv(c: Config, sys: System)
    requires Usable(c)
  {
    && AliceNow(c, sys).Ok?
    && PartyNow(c.suite, sys.log, AlicePosition(sys.log.epochs), AliceNow(c, sys).value, AliceFirst(c))
  }

  ghost predicate BobInv(c: Config, sys: System)
    requires Usable(c)
  {
    && PartyNow(c.suite, sys.log, BobPosition(sys.log.epochs), BobNow(c, sys), BobFirst(c))
    && (!Established(c, sys) ==> sys.log.epochs == FirstEpochs(c) && PreKeysOk(c, sys.preKeys))
  }

  /// What every step keeps: the log is well formed, and each party's stored state is the one that
  /// its latest epoch, what it sent in it and what it stored of its peer's messages determine.
  ghost predicate Inv(c: Config, sys: System)
    requires Usable(c)
  {
    LogOk(c, sys.log) && AliceInv(c, sys) && BobInv(c, sys)
  }

  // ---------------------------------------------------------------- steps

  /// What a Send records: the message as the sender's state makes it.
  function Record(epoch: nat, st: State, pq: PqSent, plaintext: Plaintext, message: Ciphertext): Sent {
    Sent(epoch, st.senderChain.index, pq.key, plaintext, if st.version < 256 then st.version as byte else 0,
         st.previousCounter, pq.message, message)
  }

  /// A genuine message of the peer, with the key that the sender's post-quantum ratchet had (in
  /// sessions that have one); a ratchet key never drawn before; and no collision of eight-byte MACs.
  ghost predicate Deliverable(c: Config, sys: System, j: nat, t: nat, st: State, freshKey: Key)
    requires t < |sys.log.epochs|
  {
    && j < |sys.log.sent|
    && var m := sys.log.sent[j];
    && m.epoch < |sys.log.epochs| && (m.epoch + t) % 2 == 1
    && (c.bundle.kyberKey.Some? ==> PqAgrees(c.suite, st, m))
    && FreshKey(c.suite, sys.log.epochs, freshKey)
    && NoCollision(c.suite, sys.log.epochs, t, m, Sender(c, m), Receiver(c, m))
  }

  /// The log after a party at position t accepted a message and stored its new state.
  function Accept(log: Log, t: nat, st: State, m: Sent): Log
    requires t < |log.epochs|
  {
    log.(epochs := Grow(log.epochs, t, st), stored := log.stored + [Mark(m.epoch, m.counter)])
  }

  function Accepts(log: Log, t: nat, r: Result<bytes>, st: Result<State>, m: Sent): Log
    requires t < |log.epochs|
  {
    if r.Ok? && st.Ok? then Accept(log, t, st.value, m) else log
  }

  /// The inner message: what the wrapping pre-key message holds.
  function Inner(m: Sent): bytes {
    match m.message
    case WhisperMessage(data) => data
    case PreKeyMessage(data) => var r := DeserializePreKey(data); if r.Ok? then r.value.message else []
  }

  /// The log after a send.
  function Sends(s: Suite, log: Log, t: nat, st: Result<State>, plaintext: Plaintext, random: bytes, r: Result<Ciphertext>): Log {
    if r.Ok? && st.Ok? && SpqrSend(s, st.value.pqState, random).Ok?
    then log.(sent := log.sent + [Record(t, st.value, SpqrSend(s, st.value.pqState, random).value, plaintext, r.value)])
    else log
  }

  function Emptied(r: Result<Ciphertext>): Result<bytes> {
    if r.Ok? then Ok([]) else Err(r.error)
  }

  function AliceSend(c: Config, sys: System, plaintext: Plaintext, random: bytes): (System, Result<bytes>) {
    var (r, alice) := EncryptIn(c.suite, c.alice, sys.alice, c.bobAddress, plaintext, random);
    var log := Sends(c.suite, sys.log, AlicePosition(sys.log.epochs), AliceNow(c, sys), plaintext, random, r);
    (sys.(alice := alice, log := log), Emptied(r))
  }

  function BobSend(c: Config, sys: System, plaintext: Plaintext, random: bytes): (System, Result<bytes>) {
    var (r, bob) := EncryptIn(c.suite, c.bob, sys.bob, c.aliceAddress, plaintext, random);
    var log := Sends(c.suite, sys.log, BobPosition(sys.log.epochs), Current(sys.bob, c.aliceAddress), plaintext, random, r);
    (sys.(bob := bob, log := log), Emptied(r))
  }

  /// Alice's decryptMessage.
  function AliceReceive(c: Config, sys: System, j: nat, freshKey: Key): (System, Result<bytes>)
    requires j < |sys.log.sent|
  {
    var m := sys.log.sent[j];
    var (r, alice) := DecryptIn(c.suite, c.alice, sys.alice, c.bobAddress, m.message.data, freshKey);
    (sys.(alice := alice, log := Accepts(sys.log, AlicePosition(sys.log.epochs), r, Current(alice, c.bobAddress), m)), r)
  }

  /// Bob's decryptMessage.
  function BobReceive(c: Config, sys: System, j: nat, freshKey: Key): (System, Result<bytes>)
    requires j < |sys.log.sent|
  {
    var m := sys.log.sent[j];
    var (r, bob) := DecryptIn(c.suite, c.bob, sys.bob, c.aliceAddress, Inner(m), freshKey);
    (sys.(bob := bob, log := Accepts(sys.log, BobPosition(sys.log.epochs), r, Current(bob, c.aliceAddress), m)), r)
  }

  /// Bob's decryptPreKeyMessage; his identity store trusts Alice.  In a session that exists already
  /// it stores nothing.
  function BobReceivePreKey(c: Config, sys: System, j: nat, freshKey: Key): (System, Result<bytes>)
    requires Usable(c) && j < |sys.log.sent|
  {
    var m := sys.log.sent[j];
    var (r, bob, preKeys) := DecryptPreKeyIn(c.suite, c.bob, sys.bob, sys.preKeys, c.aliceAddress, true, m.message.data, freshKey);
    var log := if Established(c, sys) then sys.log
               else Accepts(sys.log, BobPosition(sys.log.epochs), r, Current(bob, c.aliceAddress), m);
    (sys.(bob := bob, preKeys := preKeys, log := log), r)
  }

  predicate Delivers(step: Step) {
    step.ToAlice? || step.ToBob? || step.InnerToBob?
  }

  ghost predicate Enabled(c: Config, sys: System, step: Step)
    requires Usable(c)
  {
    match step
    case AliceSends(_, _) => true
    case BobSends(_, _) => Established(c, sys)
    case ToAlice(j, freshKey) => AliceNow(c, sys).Ok? && Deliverable(c, sys, j, AlicePosition(sys.log.epochs), AliceNow(c, sys).value, freshKey)
    case ToBob(j, freshKey) => Deliverable(c, sys, j, BobPosition(sys.log.epochs), BobNow(c, sys), freshKey)
    case InnerToBob(j, freshKey) => Established(c, sys) && Deliverable(c, sys, j, BobPosition(sys.log.epochs), BobNow(c, sys), freshKey)
    case BadToAlice(data, freshKey) => DecryptIn(c.suite, c.alice, sys.alice, c.bobAddress, data, freshKey).0.Err?
    case BadToBob(data, freshKey) => DecryptIn(c.suite, c.bob, sys.bob, c.aliceAddress, data, freshKey).0.Err?
    case BadPreKeyToBob(data, freshKey) =>
      DecryptPreKeyIn(c.suite, c.bob, sys.bob, sys.preKeys, c.aliceAddress, true, data, freshKey).0.Err?
  }

  /// A step, and what its caller gets.
  function Next(c: Config, sys: System, step: Step): (System, Result<bytes>)
    requires Usable(c) && (Delivers(step) ==> step.message < |sys.log.sent|)
  {
    match step
    case AliceSends(plaintext, random) => AliceSend(c, sys, plaintext, random)
    case BobSends(plaintext, random) => BobSend(c, sys, plaintext, random)
    case ToAlice(j, freshKey) => AliceReceive(c, sys, j, freshKey)
    case ToBob(j, freshKey) => BobReceivePreKey(c, sys, j, freshKey)
    case InnerToBob(j, freshKey) => BobReceive(c, sys, j, freshKey)
    case BadToAlice(data, freshKey) =>
      var (r, alice) := DecryptIn(c.suite, c.alice, sys.alice, c.bobAddress, data, freshKey);
      (sys.(alice := alice), r)
    case BadToBob(data, freshKey) =>
      var (r, bob) := DecryptIn(c.suite, c.bob, sys.bob, c.aliceAddress, data, freshKey);
      (sys.(bob := bob), r)
    case BadPreKeyToBob(data, freshKey) =>
      var (r, bob, preKeys) := DecryptPreKeyIn(c.suite, c.bob, sys.bob, sys.preKeys, c.aliceAddress, true, data, freshKey);
      (sys.(bob := bob, preKeys := preKeys), r)
  }

  /// What a delivery returns, by the ledger and the history.  A message that would start the session
  /// is refused when an earlier failure used up the one-time pre-key that it names.
  function Expected(c: Config, sys: System, step: Step): Result<bytes>
    requires Usable(c) && Delivers(step) && step.message < |sys.log.sent|
    requires sys.log.sent[step.message].epoch < |sys.log.epochs|
  {
    var m := sys.log.sent[step.message];
    var at := Following(sys.log.stored, m.epoch);
    if step.ToAlice? then Outcome(c.suite, sys.log.epochs, AlicePosition(sys.log.epochs), at, m, step.freshKey)
    else if step.ToBob? && !Established(c, sys) && c.bundle.preKeyId.Some? && c.bundle.preKeyId.value !in sys.preKeys.oneTime
    then Err(InvalidKeyIdentifier)
    else Outcome(c.suite, sys.log.epochs, BobPosition(sys.log.epochs), at, m, step.freshKey)
  }

  // ---------------------------------------------------------------- the log

  lemma CountNext(sent: seq<Sent>, m: Sent, epoch: nat)
    ensures CountIn(sent + [m], epoch) == CountIn(sent, epoch) + (if m.epoch == epoch then 1 else 0)
  {
    assert (sent + [m])[..|sent|] == sent;
  }

  lemma {:induction false} CountMonotone(sent: seq<Sent>, more: seq<Sent>, epoch: nat)
    requires sent <= more
    ensures CountIn(sent, epoch) <= CountIn(more, epoch)
    decreases |more|
  {
    if |sent| < |more| {
      var before := more[..|more| - 1];
      assert sent == before[..|sent|];
      CountMonotone(sent, before, epoch);
    } else {
      assert sent == more;
    }
  }

  /// No two messages have the same epoch and counter.
  lemma CountersDiffer(c: Config, log: Log, i: nat, j: nat)
    requires Usable(c) && LogOk(c, log) && i < j < |log.sent| && log.sent[i].epoch == log.sent[j].epoch
    ensures log.sent[i].counter < log.sent[j].counter
  {
    hide SentInv, Usable;
    var sent, epoch := log.sent, log.sent[i].epoch;
    assert CountedAt(sent, i) && CountedAt(sent, j);
    assert sent[..i + 1] == sent[..i] + [sent[i]];
    CountNext(sent[..i], sent[i], epoch);
    CountMonotone(sent[..i + 1], sent[..j], epoch);
  }

  lemma {:induction false} NoneSent(c: Config, epochs: seq<Epoch>, sent: seq<Sent>, epoch: nat)
    requires Usable(c) && SentInv(c, epochs, sent) && epoch >= |epochs|
    ensures CountIn(sent, epoch) == 0
  {
    hide Usable, SentOk;
    if sent != [] {
      var n := |sent| - 1;
      assert SentOk(c, epochs, sent[n]);
      SentEarlier(c, epochs, sent[n]);
      assert forall j :: 0 <= j < n ==> sent[..n][j] == sent[j];
      NoneSent(c, epochs, sent[..n], epoch);
    }
  }

  lemma SentEarlier(c: Config, epochs: seq<Epoch>, m: Sent)
    requires Usable(c) && SentOk(c, epochs, m)
    ensures m.epoch < |epochs|
  {
    hide Usable;
  }

  lemma NoneStored(stored: seq<Mark>, epoch: nat)
    requires forall i :: 0 <= i < |stored| ==> stored[i].epoch != epoch
    ensures Following(stored, epoch) == 0
  {
    FollowingIsMaximum(stored, epoch, 0);
  }

  lemma LogSends(c: Config, log: Log, m: Sent)
    requires Usable(c) && LogOk(c, log) && SentOk(c, log.epochs, m) && m.counter == CountIn(log.sent, m.epoch)
    ensures LogOk(c, log.(sent := log.sent + [m]))
  {
    hide SentOk, Usable, CountIn;
    var sent := log.sent + [m];
    forall j | 0 <= j < |sent| ensures CountedAt(sent, j) {
      if j < |log.sent| {
        assert CountedAt(log.sent, j);
        assert sent[..j] == log.sent[..j];
      } else {
        assert sent[..j] == log.sent;
      }
    }
  }

  lemma LogAccepts(c: Config, log: Log, t: nat, st: State, m: Sent)
    requires Usable(c) && LogOk(c, log) && t < |log.epochs| && m.epoch < |log.epochs|
    ensures LogOk(c, Accept(log, t, st, m))
  {
    hide SentOk, Usable, CountIn;
    var grown := Grow(log.epochs, t, st);
    forall j | 0 <= j < |log.sent| ensures SentOk(c, grown, log.sent[j]) {
      SentExtend(c, log.epochs, grown[|log.epochs|..], log.sent[j]);
      assert grown == log.epochs + grown[|log.epochs|..];
    }
    assert forall j :: 0 <= j < |log.sent| ==> CountedAt(log.sent, j);
  }

  /// A longer ledger says the same of messages already sent.
  lemma SentExtend(c: Config, epochs: seq<Epoch>, more: seq<Epoch>, m: Sent)
    requires Usable(c) && SentOk(c, epochs, m)
    ensures SentOk(c, epochs + more, m)
  {
    hide KeysOfMessage, SerializeSignal, SerializePreKey, AliceState;
    assert (epochs + more)[m.epoch] == epochs[m.epoch];
  }

  /// What one party sends is nothing to the other's state.
  lemma OtherSends(s: Suite, log: Log, t: nat, st: State, first: State, m: Sent)
    requires PartyNow(s, log, t, st, first) && m.epoch != t
    ensures PartyNow(s, log.(sent := log.sent + [m]), t, st, first)
  {
    hide Reads;
    CountNext(log.sent, m, t);
  }

  /// Nor is what it accepts.
  lemma OtherAccepts(s: Suite, log: Log, more: Log, t: nat, st: State, first: State, mark: Mark)
    requires PartyNow(s, log, t, st, first) && LedgerOk(s, more.epochs)
    requires log.epochs <= more.epochs && more.sent == log.sent && more.stored == log.stored + [mark]
    requires mark.epoch % 2 == t % 2
    ensures PartyNow(s, more, t, st, first)
  {
    hide PartyOk, NoSkipped, LedgerOk, Following;
    assert more.epochs == log.epochs + more.epochs[|log.epochs|..];
    PartyExtend(s, log.epochs, more.epochs[|log.epochs|..], t, st);
    FollowingNext(log.stored, mark, t + 1);
    forall i | 0 <= i < |st.chains| ensures IndexedAt(more.stored, ChainEpoch(t, i), st.chains[i]) {
      assert IndexedAt(log.stored, ChainEpoch(t, i), st.chains[i]);
      FollowingNext(log.stored, mark, ChainEpoch(t, i));
    }
  }

  // ---------------------------------------------------------------- starting

  /// Promoting and storing a state makes it the current one, without cached keys.
  lemma StoredCurrent(sessions: Sessions, a: Address, r: SessionRecord, st: State)
    ensures Current(sessions[a := Stored(Promote(r, st))], a) == Ok(Reload(st))
    ensures a in sessions ==> Current(Update(sessions, a, st), a) == Ok(Reload(st))
  {
    hide SerializeState;
  }

  lemma FirstStates(c: Config)
    requires Usable(c)
    ensures BobParamsOf(c.bob, c.preKeys, Wrapped(c, [])).Ok?
    ensures X3dh.Matching(c.suite, AliceParams(c), BobParams(c))
    ensures BobParams(c).kyberCiphertext == X3dh.Alice(c.suite, AliceParams(c)).value.kyberCiphertext
  {
    hide X3dh.Alice, RootStep, SerializePublic;
    X3dh.KyberPresent(c.suite, AliceParams(c));
  }

  /// The two parties' first states are those of the first two epochs.
  lemma FirstLedger(c: Config)
    requires Usable(c)
    ensures LedgerOk(c.suite, FirstEpochs(c))
    ensures PartyNow(c.suite, Log(FirstEpochs(c), [], []), 1, Reload(AliceFirst(c)), AliceFirst(c))
    ensures PartyNow(c.suite, Log(FirstEpochs(c), [], []), 0, BobFirst(c), BobFirst(c))
  {
    hide X3dh.Alice, RootStep, SerializePublic;
    FirstStates(c);
    var e := FirstEpochs(c);
    assert LinkedAt(c.suite, e, 1);
    StartFollows(c.suite, e[0]);
    assert ChainEpoch(1, 0) == 0;
  }

  lemma FirstFields(c: Config)
    requires Usable(c)
    ensures AliceFirst(c).version in {3, 4} && BobFirst(c).version in {3, 4}
    ensures AliceFirst(c).pendingPreKey.Some? && BobFirst(c).pendingPreKey.None?
    ensures AliceFirst(c).remoteIdentity == c.suite.pub(c.bob.identity) == c.bundle.identity
    ensures BobFirst(c).remoteIdentity == c.suite.pub(c.alice.identity)
    ensures BobFirst(c).chains == []
    ensures AliceFirst(c).pendingKyber.Some? ==> |AliceFirst(c).pendingKyber.value.ciphertext| < LIMIT
  {
    hide X3dh.Alice, RootStep, SerializePublic;
    AliceCiphertext(c.suite, AliceParams(c));
  }

  /// The two first states are of one session: each knows the other's identity and registration, and
  /// both its version and its base key; the message that starts it names the pre-keys of the bundle.
  lemma FirstMatch(c: Config, signal: bytes)
    requires Usable(c)
    ensures var a, b := AliceFirst(c), BobFirst(c);
      && a.localIdentity == b.remoteIdentity == c.suite.pub(c.alice.identity)
      && b.localIdentity == a.remoteIdentity == c.suite.pub(c.bob.identity)
      && a.localRegistration == b.remoteRegistration == c.alice.registrationId
      && b.localRegistration == c.bob.registrationId && a.remoteRegistration == c.bundle.registrationId
      && a.version == b.version == (if c.bundle.kyberKey.Some? then 4 else 3)
      && a.aliceBaseKey == b.aliceBaseKey == Some([5] + c.suite.pub(c.drawn.base))
      && a.previousCounter == b.previousCounter == 0
      && a.senderPublic == c.suite.pub(c.drawn.ratchet) && b.senderPublic == c.bundle.signedPreKey
    ensures var m := Wrapped(c, signal);
      && m.registrationId == c.alice.registrationId && m.identityKey == c.suite.pub(c.alice.identity)
      && m.baseKey == c.suite.pub(c.drawn.base) && m.message == signal
      && m.preKeyId == c.bundle.preKeyId && m.signedPreKeyId == c.bundle.signedPreKeyId
      && m.kyberPreKeyId == c.bundle.kyberId && m.kyberCiphertext.Some? == c.bundle.kyberKey.Some?
  {
    hide RootStep, X3dh.Secret, Expand;
    X3dh.KyberPresent(c.suite, AliceParams(c));
  }

  /// Without a Kyber pre-key neither party has a post-quantum state.
  lemma FirstPq(c: Config)
    requires Usable(c) && c.bundle.kyberKey.None?
    ensures AliceFirst(c).pqState == [] && BobFirst(c).pqState == []
  {
    hide RootStep, SerializePublic, X3dh.Secret;
  }

  lemma InitInv(c: Config, alice: Sessions, bob: Sessions)
    requires CanStart(c, alice, bob)
    ensures ProcessBundleIn(c.suite, c.alice, alice, c.bobAddress, true, c.bundle, c.drawn).0.Ok?
    ensures Inv(c, Init(c, alice, bob))
  {
    hide PartyNow, AliceState, FirstEpochs;
    FirstLedger(c);
    StoredCurrent(alice, c.bobAddress, RecordOf(alice, c.bobAddress), AliceFirst(c));
  }

  // ---------------------------------------------------------------- sending

  /// A party's encryption makes the message of its epoch and counter, and moves its chain on.
  lemma Encrypts(s: Suite, epochs: seq<Epoch>, t: nat, st: State, identity: Key, plaintext: Plaintext, random: bytes)
    requires PartyOk(s, epochs, t, st) && st.version in {3, 4}
    ensures var r := EncryptWith(s, st, identity, plaintext, random);
      var pq := SpqrSend(s, st.pqState, random);
      && (r.Ok? <==> pq.Ok? && st.senderChain.index + 1 < TWO32)
      && (r.Ok? ==>
        var m := Record(t, st, pq.value, plaintext, r.value.0);
        && m.version as nat == st.version
        && r.value.0 == Wrap(st, identity, Signal(s, epochs, m, identity, st.remoteIdentity))
        && PartyOk(s, epochs, t, r.value.1) && SameFixed(r.value.1, st)
        && r.value.1 == st.(pqState := pq.value.state, senderChain := r.value.1.senderChain)
        && r.value.1.senderChain.index == m.counter + 1)
  {
    hide ChainsOk, DeriveMessageKeys, MessageKeySeed, NextChainKey, SpqrSend, SerializeSignal, SerializePreKey;
    var r := EncryptWith(s, st, identity, plaintext, random);
    if r.Ok? {
      var pq := SpqrSend(s, st.pqState, random);
      var m := Record(t, st, pq.value, plaintext, r.value.0);
      assert MessageKeysOf(s, st.senderChain, pq.value.key) == KeysOfMessage(s, epochs[t].start, m.counter, m.pqr);
    }
  }

  lemma PartySends(s: Suite, us: Local, sessions: Sessions, a: Address, log: Log, t: nat, first: State,
                   plaintext: Plaintext, random: bytes)
    requires Current(sessions, a).Ok? && PartyNow(s, log, t, Current(sessions, a).value, first) && first.version in {3, 4}
    ensures var st := Current(sessions, a).value;
      var (r, after) := EncryptIn(s, us, sessions, a, plaintext, random);
      var pq := SpqrSend(s, st.pqState, random);
      && SameFixed(st, first) && t < |log.epochs|
      && (r.Ok? <==> pq.Ok? && CountIn(log.sent, t) + 1 < TWO32)
      && (r.Err? ==> after == sessions)
      && (r.Ok? ==>
        var m := Record(t, st, pq.value, plaintext, r.value);
        && m.counter == CountIn(log.sent, t) && 3 <= m.version < 16
        && (first.pqState == [] ==> m.pqr == None)
        && m.message == Wrap(st, s.pub(us.identity), Signal(s, log.epochs, m, s.pub(us.identity), first.remoteIdentity))
        && Current(after, a).Ok? && PartyNow(s, log.(sent := log.sent + [m]), t, Current(after, a).value, first))
  {
    hide EncryptWith, PartyOk, Wrap, Signal, NoSkipped, SerializeState, LedgerOk, Indexed, Following, CountIn;
    var st := Current(sessions, a).value;
    Encrypts(s, log.epochs, t, st, s.pub(us.identity), plaintext, random);
    assert t < |log.epochs| by { PartyPosition(s, log.epochs, t, st); }
    var r := EncryptWith(s, st, s.pub(us.identity), plaintext, random);
    if r.Ok? {
      var m := Record(t, st, SpqrSend(s, st.pqState, random).value, plaintext, r.value.0);
      StoredCurrent(sessions, a, RecordOf(sessions, a), r.value.1);
      ReloadOk(s, log.epochs, t, r.value.1);
      IndexedReload(log.stored, t, r.value.1);
      CountNext(log.sent, m, t);
    }
  }

  lemma PartyPosition(s: Suite, epochs: seq<Epoch>, t: nat, st: State)
    requires PartyOk(s, epochs, t, st)
    ensures t < |epochs|
  {
  }

  /// Alice's messages stay wrapped with the pre-key, Bob's are never wrapped.
  lemma AliceWraps(c: Config, st: State, signal: bytes)
    requires Usable(c) && SameFixed(st, AliceFirst(c)) && st.version < 256
    ensures Wrap(st, c.suite.pub(c.alice.identity), signal) == PreKeyMessage(SerializePreKey(Wrapped(c, signal)))
  {
    hide X3dh.Alice, RootStep, SerializePublic, SerializePreKey;
    FirstFields(c);
  }

  lemma BobWraps(c: Config, st: State, signal: bytes)
    requires Usable(c) && SameFixed(st, BobFirst(c)) && st.version < 256
    ensures Wrap(st, c.suite.pub(c.bob.identity), signal) == WhisperMessage(signal)
  {
    hide X3dh.Alice, RootStep, SerializePublic, SerializePreKey;
    FirstFields(c);
  }

  /// When a party's encryption fails, and that it keeps the invariant.
  lemma AliceStep(c: Config, sys: System, plaintext: Plaintext, random: bytes)
    requires Usable(c) && Inv(c, sys)
    ensures var (after, r) := AliceSend(c, sys, plaintext, random);
      var t := AlicePosition(sys.log.epochs);
      && Inv(c, after) && after.bob == sys.bob
      && AliceNow(c, sys).Ok?
      && (r.Ok? <==> SpqrSend(c.suite, AliceNow(c, sys).value.pqState, random).Ok? && CountIn(sys.log.sent, t) + 1 < TWO32)
      && (r.Err? ==> after == sys)
      && (r.Ok? ==> |after.log.sent| == |sys.log.sent| + 1 && after.log == sys.log.(sent := after.log.sent)
                    && after.log.sent[..|sys.log.sent|] == sys.log.sent
                    && var m := after.log.sent[|sys.log.sent|];
                    m.epoch == t && m.plaintext == plaintext && m.counter == CountIn(sys.log.sent, t))
  {
    hide PartyNow, Usable, Signal, EncryptIn, FirstEpochs, SpqrSend, Wrap, Wrapped, AliceFirst, BobFirst, SameSession, LogOk,
         AlicePosition, BobPosition, CountIn;
    FirstFields(c);
    var t := AlicePosition(sys.log.epochs);
    PartySends(c.suite, c.alice, sys.alice, c.bobAddress, sys.log, t, AliceFirst(c), plaintext, random);
    var st := AliceNow(c, sys).value;
    var r := EncryptIn(c.suite, c.alice, sys.alice, c.bobAddress, plaintext, random);
    if r.0.Ok? {
      var m := Record(t, st, SpqrSend(c.suite, st.pqState, random).value, plaintext, r.0.value);
      AliceWraps(c, st, SignalIn(c, sys.log.epochs, m));
      NoPqSent(c, AliceFirst(c), m);
      LogSends(c, sys.log, m);
      OtherSends(c.suite, sys.log, BobPosition(sys.log.epochs), BobNow(c, sys), BobFirst(c), m);
    }
  }

  lemma NoPqSent(c: Config, first: State, m: Sent)
    requires Usable(c) && (first == AliceFirst(c) || first == BobFirst(c))
    requires first.pqState == [] ==> m.pqr == None
    ensures c.bundle.kyberKey.None? ==> m.pqr == None
  {
    hide Usable;
    if c.bundle.kyberKey.None? {
      FirstPq(c);
    }
  }

  lemma BobStep(c: Config, sys: System, plaintext: Plaintext, random: bytes)
    requires Usable(c) && Inv(c, sys) && Established(c, sys)
    ensures var (after, r) := BobSend(c, sys, plaintext, random);
      var t := BobPosition(sys.log.epochs);
      && Inv(c, after) && Established(c, after)
      && (r.Ok? <==> SpqrSend(c.suite, BobNow(c, sys).pqState, random).Ok? && CountIn(sys.log.sent, t) + 1 < TWO32)
      && (r.Err? ==> after == sys)
      && (r.Ok? ==> |after.log.sent| == |sys.log.sent| + 1 && after.log == sys.log.(sent := after.log.sent)
                    && after.log.sent[..|sys.log.sent|] == sys.log.sent
                    && var m := after.log.sent[|sys.log.sent|];
                    m.epoch == t && m.plaintext == plaintext && m.counter == CountIn(sys.log.sent, t))
  {
    hide PartyNow, Usable, Signal, EncryptIn, FirstEpochs, SpqrSend, Wrap, Wrapped, AliceFirst, BobFirst, SameSession, LogOk,
         AlicePosition, BobPosition, CountIn;
    FirstFields(c);
    EstablishedCurrent(c, sys);
    var t := BobPosition(sys.log.epochs);
    PartySends(c.suite, c.bob, sys.bob, c.aliceAddress, sys.log, t, BobFirst(c), plaintext, random);
    var st := BobNow(c, sys);
    var r := EncryptIn(c.suite, c.bob, sys.bob, c.aliceAddress, plaintext, random);
    if r.0.Ok? {
      var m := Record(t, st, SpqrSend(c.suite, st.pqState, random).value, plaintext, r.0.value);
      BobWraps(c, st, SignalIn(c, sys.log.epochs, m));
      NoPqSent(c, BobFirst(c), m);
      LogSends(c, sys.log, m);
      OtherSends(c.suite, sys.log, AlicePosition(sys.log.epochs), AliceNow(c, sys).value, AliceFirst(c), m);
      LedgerNow(c.suite, sys.log.(sent := sys.log.sent + [m]), t, Current(r.1, c.aliceAddress).value, BobFirst(c));
      StillEstablished(c, sys.(bob := r.1));
    }
  }

  lemma EstablishedCurrent(c: Config, sys: System)
    requires Usable(c) && Established(c, sys)
    ensures Current(sys.bob, c.aliceAddress) == Ok(BobNow(c, sys))
  {
    hide Wrapped, BobFirst, Usable;
  }

  /// Bob's session keeps its base key.
  lemma StillEstablished(c: Config, sys: System)
    requires Usable(c)
    requires Current(sys.bob, c.aliceAddress).Ok? && SameFixed(Current(sys.bob, c.aliceAddress).value, BobFirst(c))
    ensures Established(c, sys) && BobNow(c, sys) == Current(sys.bob, c.aliceAddress).value
  {
    hide X3dh.Alice, RootStep, SerializePublic;
  }

  // ---------------------------------------------------------------- delivery

  /// The state after a delivery, against the log that grew with it.
  ghost predicate Followed(s: Suite, log: Log, t: nat, m: Sent, st: State, first: State)
    requires t < |log.epochs|
  {
    var after := Accept(log, t, st, m);
    && PartyNow(s, after, Moved(m.epoch, t), st, first)
    && |after.epochs| == (if m.epoch == t + 1 then t + 3 else |log.epochs|)
  }

  /// What a stored state is after a delivery that the ledger explains.
  lemma FollowedAfter(c: Config, log: Log, t: nat, st: State, first: State, m: Sent, after: State)
    requires Usable(c) && LogOk(c, log) && t + 1 <= |log.epochs| <= t + 2 && m.epoch < |log.epochs|
    requires PartyNow(c.suite, log, t, st, first) && Explained(c.suite, log.epochs, t, st, m.epoch, after)
    requires Indexed(log.stored + [Mark(m.epoch, m.counter)], Moved(m.epoch, t), after.chains)
    ensures Followed(c.suite, log, t, m, Reload(after), first)
  {
    hide LedgerOk, PartyOk, NoSkipped, Following, CountIn, SentInv, Indexed, Usable;
    var t', mark := Moved(m.epoch, t), Mark(m.epoch, m.counter);
    var grown := Grow(log.epochs, t, after);
    ReloadOk(c.suite, grown, t', after);
    IndexedReload(log.stored + [mark], t', after);
    FollowingNext(log.stored, mark, t' + 1);
    if m.epoch == t + 1 {
      NoneSent(c, log.epochs, log.sent, t + 2);
      NoneStored(log.stored, t + 3);
    }
  }

  /// decryptMessage on a genuine inner message, through the store.
  lemma PartyReceives(c: Config, us: Local, sessions: Sessions, a: Address, log: Log, t: nat, first: State, m: Sent, freshKey: Key)
    requires DhLaw(c.suite) && BlockLaw(c.suite) && Usable(c) && LogOk(c, log)
    requires Current(sessions, a).Ok? && PartyNow(c.suite, log, t, Current(sessions, a).value, first)
    requires Genuine(c.suite, log.epochs, t, Current(sessions, a).value, m, freshKey)
    requires NoCollision(c.suite, log.epochs, t, m, first.remoteIdentity, c.suite.pub(us.identity))
    ensures var data := Signal(c.suite, log.epochs, m, first.remoteIdentity, c.suite.pub(us.identity));
      var (r, after) := DecryptIn(c.suite, us, sessions, a, data, freshKey);
      && r == Outcome(c.suite, log.epochs, t, Following(log.stored, m.epoch), m, freshKey)
      && (r.Err? ==> after == sessions)
      && (r.Ok? ==> Current(after, a).Ok? && Followed(c.suite, log, t, m, Current(after, a).value, first))
  {
    hide DecryptWhisper, PartyOk, Outcome, Signal, NoSkipped, SerializeState, LedgerOk, PqAgrees, LogOk, NoCollision, Usable,
         Following, Indexed, Explained, CountIn, FreshKey, Followed, Moved;
    var st := Current(sessions, a).value;
    var data := Signal(c.suite, log.epochs, m, st.remoteIdentity, c.suite.pub(us.identity));
    Delivered(c.suite, log.epochs, log.stored, t, st, m, st.remoteIdentity, c.suite.pub(us.identity), freshKey);
    var r := DecryptWhisper(c.suite, st, data, st.remoteIdentity, c.suite.pub(us.identity), freshKey);
    if r.Ok? {
      StoredCurrent(sessions, a, RecordOf(sessions, a), r.value.1);
      FollowedAfter(c, log, t, st, first, m, r.value.1);
    }
  }

  /// A message of the peer's that is delivered: what was sent, to which position.
  lemma SentTo(c: Config, sys: System, j: nat)
    requires Usable(c) && Inv(c, sys) && j < |sys.log.sent|
    ensures var m := sys.log.sent[j];
      && m.epoch < |sys.log.epochs| && m.counter + 1 < TWO32 && m.version % 16 >= 3
      && (c.bundle.kyberKey.None? ==> m.pqr == None)
      && (m.epoch % 2 == 0 ==>
            m.message.data == Signal(c.suite, sys.log.epochs, m, AliceFirst(c).remoteIdentity, c.suite.pub(c.alice.identity)))
      && (m.epoch % 2 == 1 ==>
            && Inner(m) == SignalIn(c, sys.log.epochs, m)
            && DeserializePreKey(m.message.data) == Ok(Wrapped(c, SignalIn(c, sys.log.epochs, m)))
            && SignalIn(c, sys.log.epochs, m) == Signal(c.suite, sys.log.epochs, m, BobFirst(c).remoteIdentity, c.suite.pub(c.bob.identity)))
  {
    hide AliceInv, BobInv, Usable, Signal, Wrapped, Inner, AliceFirst, BobFirst, DeserializePreKey;
    var m := sys.log.sent[j];
    assert SentOk(c, sys.log.epochs, m);
    FirstFields(c);
    if m.epoch % 2 == 1 {
      WrappedReads(c, sys.log.epochs, m);
    }
  }

  /// A pre-key message of Alice's reads back as what was wrapped.
  lemma WrappedReads(c: Config, epochs: seq<Epoch>, m: Sent)
    requires Usable(c) && SentOk(c, epochs, m) && m.epoch % 2 == 1
    ensures DeserializePreKey(m.message.data) == Ok(Wrapped(c, SignalIn(c, epochs, m)))
    ensures Inner(m) == SignalIn(c, epochs, m)
  {
    hide AliceState, Usable, SerializePreKey, DeserializePreKey, Signal;
    SignalBounds(c.suite, epochs, m, Sender(c, m), Receiver(c, m));
    WrappedFits(c, SignalIn(c, epochs, m));
    PreKeyRoundTrip(Wrapped(c, SignalIn(c, epochs, m)));
  }

  lemma WrappedFits(c: Config, signal: bytes)
    requires Usable(c) && |signal| < LIMIT
    ensures var m := Wrapped(c, signal);
      m.message == signal && 3 <= m.version < 16 && (m.kyberCiphertext.Some? ==> |m.kyberCiphertext.value| < LIMIT)
  {
    hide AliceState, Usable;
    FirstFields(c);
  }

  /// What a deliverable message is for a party whose state the invariant describes.
  lemma IsGenuine(c: Config, sys: System, j: nat, t: nat, st: State, first: State, freshKey: Key)
    requires Usable(c) && Inv(c, sys) && t + 1 <= |sys.log.epochs| <= t + 2
    requires PartyNow(c.suite, sys.log, t, st, first) && Deliverable(c, sys, j, t, st, freshKey)
    requires first == AliceFirst(c) || first == BobFirst(c)
    ensures Genuine(c.suite, sys.log.epochs, t, st, sys.log.sent[j], freshKey)
  {
    hide AliceInv, BobInv, Usable, SentInv, Signal, Wrapped, Inner, AliceFirst, BobFirst, DeserializePreKey, Reads, FreshKey,
         CountIn, NoCollision, Inv;
    SentTo(c, sys, j);
    if c.bundle.kyberKey.None? {
      FirstPq(c);
      WithoutSpqr(c.suite, st, sys.log.sent[j]);
    }
  }

  /// The positions in a ledger that grew by what a party at t made of a message.
  lemma GrownPositions(epochs: Epochs, grown: Epochs, t: nat, epoch: nat)
    requires epoch < |epochs| && (epoch + t) % 2 == 1
    requires |grown| == if epoch == t + 1 then t + 3 else |epochs|
    ensures t == AlicePosition(epochs) ==> AlicePosition(grown) == Moved(epoch, t) && BobPosition(grown) == BobPosition(epochs)
    ensures t == BobPosition(epochs) ==> BobPosition(grown) == Moved(epoch, t) && AlicePosition(grown) == AlicePosition(epochs)
  {
  }

  lemma GrowIsPrefix(epochs: seq<Epoch>, t: nat, st: State)
    requires t < |epochs|
    ensures epochs <= Grow(epochs, t, st)
    ensures |Grow(epochs, t, st)| == |epochs| ==> Grow(epochs, t, st) == epochs
  {
  }

  /// What a delivery that failed or succeeded did to the log.
  predicate LogAfter(before: Log, after: Log, t: nat, m: Sent, stores: bool) {
    if stores then
      && before.epochs <= after.epochs && after.sent == before.sent
      && after.stored == before.stored + [Mark(m.epoch, m.counter)]
      && |after.epochs| == (if m.epoch == t + 1 then t + 3 else |before.epochs|)
    else after == before
  }

  /// What the log gains when a party of a parity accepts something.
  ghost predicate LogGains(s: Suite, log: Log, more: Log, parity: nat) {
    && LedgerOk(s, more.epochs) && log.epochs <= more.epochs && more.sent == log.sent
    && |more.stored| == |log.stored| + 1 && more.stored[..|log.stored|] == log.stored
    && more.stored[|log.stored|].epoch % 2 == parity
  }

  lemma BobKept(c: Config, sys: System, next: System)
    requires Usable(c) && Inv(c, sys) && next.bob == sys.bob && next.preKeys == sys.preKeys
    requires LogGains(c.suite, sys.log, next.log, 0) && BobPosition(next.log.epochs) == BobPosition(sys.log.epochs)
    requires |sys.log.epochs| == 2 ==> next.log.epochs == sys.log.epochs
    ensures BobInv(c, next)
  {
    hide PartyNow, Usable, LogOk, BobFirst, BobPosition, FirstEpochs, Established, BobNow, LedgerOk, AliceInv, PreKeysOk;
    BobSame(c, sys, next);
    OtherAccepts(c.suite, sys.log, next.log, BobPosition(sys.log.epochs), BobNow(c, sys), BobFirst(c), next.log.stored[|sys.log.stored|]);
  }

  lemma AliceKept(c: Config, sys: System, next: System)
    requires Usable(c) && Inv(c, sys) && next.alice == sys.alice
    requires LogGains(c.suite, sys.log, next.log, 1) && AlicePosition(next.log.epochs) == AlicePosition(sys.log.epochs)
    ensures AliceInv(c, next)
  {
    hide PartyNow, Usable, LogOk, AliceFirst, AlicePosition, AliceNow, LedgerOk, BobInv;
    AliceSame(c, sys, next);
    OtherAccepts(c.suite, sys.log, next.log, AlicePosition(sys.log.epochs), AliceNow(c, sys).value, AliceFirst(c),
                 next.log.stored[|sys.log.stored|]);
  }

  /// What accepting a message does to the log.
  lemma AcceptGains(s: Suite, log: Log, t: nat, st: State, first: State, m: Sent)
    requires t < |log.epochs| && Followed(s, log, t, m, st, first)
    ensures LogGains(s, log, Accept(log, t, st, m), m.epoch % 2)
    ensures LogAfter(log, Accept(log, t, st, m), t, m, true)
    ensures PartyNow(s, Accept(log, t, st, m), Moved(m.epoch, t), st, first)
    ensures |Accept(log, t, st, m).epochs| == if m.epoch == t + 1 then t + 3 else |log.epochs|
  {
    hide PartyNow, Grow, LedgerOk;
    GrowIsPrefix(log.epochs, t, st);
    LedgerNow(s, Accept(log, t, st, m), Moved(m.epoch, t), st, first);
  }

  lemma InvParts(c: Config, sys: System)
    requires Usable(c)
    ensures Inv(c, sys) <==> LogOk(c, sys.log) && AliceInv(c, sys) && BobInv(c, sys)
  {
    hide LogOk, AliceInv, BobInv, Usable;
  }

  lemma AliceReads(c: Config, sys: System, t: nat, st: State)
    requires Usable(c) && AliceNow(c, sys) == Ok(st) && t == AlicePosition(sys.log.epochs)
    requires PartyNow(c.suite, sys.log, t, st, AliceFirst(c))
    ensures AliceInv(c, sys)
  {
    hide PartyNow, Usable, AliceFirst, AliceNow, AlicePosition;
  }

  lemma BobReads(c: Config, sys: System, t: nat, st: State)
    requires Usable(c) && Current(sys.bob, c.aliceAddress) == Ok(st) && t == BobPosition(sys.log.epochs)
    requires PartyNow(c.suite, sys.log, t, st, BobFirst(c))
    ensures Established(c, sys) && BobInv(c, sys)
  {
    hide PartyNow, Usable, BobFirst, Established, BobNow, BobPosition, Current, LedgerOk, SameFixed;
    LedgerNow(c.suite, sys.log, t, st, BobFirst(c));
    StillEstablished(c, sys);
  }

  /// The invariant after Alice accepted a message.
  lemma AliceAccepts(c: Config, sys: System, m: Sent, st: State, next: System)
    requires Usable(c) && Inv(c, sys) && m.epoch < |sys.log.epochs| && m.epoch % 2 == 0
    requires AliceNow(c, next) == Ok(st) && next.bob == sys.bob && next.preKeys == sys.preKeys
    requires next.log == Accept(sys.log, AlicePosition(sys.log.epochs), st, m)
    requires Followed(c.suite, sys.log, AlicePosition(sys.log.epochs), m, st, AliceFirst(c))
    ensures Inv(c, next) && LogAfter(sys.log, next.log, AlicePosition(sys.log.epochs), m, true)
  {
    hide *;
    var t := AlicePosition(sys.log.epochs);
    InvParts(c, sys);
    AcceptGains(c.suite, sys.log, t, st, AliceFirst(c), m);
    AcceptsPrefix(sys.log, t, st, m);
    GrownPositions(sys.log.epochs, next.log.epochs, t, m.epoch);
    LogAccepts(c, sys.log, t, st, m);
    Unestablished(sys.log.epochs, next.log.epochs, t, m.epoch);
    BobKept(c, sys, next);
    AliceReads(c, next, Moved(m.epoch, t), st);
    InvParts(c, next);
  }

  lemma AcceptsPrefix(log: Log, t: nat, st: State, m: Sent)
    requires t < |log.epochs|
    ensures log.epochs <= Accept(log, t, st, m).epochs
  {
    GrowIsPrefix(log.epochs, t, st);
  }

  /// Before Bob's session there is nothing that makes Alice ratchet.
  lemma Unestablished(epochs: Epochs, grown: Epochs, t: nat, epoch: nat)
    requires t == AlicePosition(epochs) && epoch < |epochs| && epochs <= grown
    requires |grown| == if epoch == t + 1 then t + 3 else |epochs|
    ensures |epochs| == 2 ==> grown == epochs
  {
  }

  lemma LedgerNow(s: Suite, log: Log, t: nat, st: State, first: State)
    requires PartyNow(s, log, t, st, first)
    ensures LedgerOk(s, log.epochs) && SameFixed(st, first)
  {
  }

  /// The invariant after Bob accepted a message.
  lemma BobAccepts(c: Config, sys: System, m: Sent, st: State, next: System)
    requires Usable(c) && Inv(c, sys) && m.epoch < |sys.log.epochs| && m.epoch % 2 == 1
    requires Current(next.bob, c.aliceAddress) == Ok(st) && next.alice == sys.alice
    requires next.log == Accept(sys.log, BobPosition(sys.log.epochs), st, m)
    requires Followed(c.suite, sys.log, BobPosition(sys.log.epochs), m, st, BobFirst(c))
    ensures Inv(c, next) && Established(c, next)
    ensures LogAfter(sys.log, next.log, BobPosition(sys.log.epochs), m, true)
  {
    hide *;
    var t := BobPosition(sys.log.epochs);
    InvParts(c, sys);
    AcceptGains(c.suite, sys.log, t, st, BobFirst(c), m);
    GrownPositions(sys.log.epochs, next.log.epochs, t, m.epoch);
    LogAccepts(c, sys.log, t, st, m);
    AliceKept(c, sys, next);
    BobReads(c, next, Moved(m.epoch, t), st);
    InvParts(c, next);
  }

  lemma AliceSame(c: Config, sys: System, next: System)
    requires sys.alice == next.alice
    ensures AliceNow(c, sys) == AliceNow(c, next)
  {
  }

  lemma BobSame(c: Config, sys: System, next: System)
    requires Usable(c) && sys.bob == next.bob
    ensures BobNow(c, sys) == BobNow(c, next) && Established(c, sys) == Established(c, next)
  {
    hide Usable, Wrapped, BobFirst;
  }

  /// Whether a delivery that succeeds is stored: decryptPreKeyMessage stores nothing in a session
  /// that exists already.
  predicate Stores(c: Config, sys: System, step: Step)
    requires Usable(c)
  {
    step.ToBob? ==> !Established(c, sys)
  }

  function PositionOf(sys: System, step: Step): nat {
    if step.ToAlice? then AlicePosition(sys.log.epochs) else BobPosition(sys.log.epochs)
  }

  /// A delivery returns what is expected and keeps the invariant; one that succeeds is entered in
  /// the log if it is stored; one that fails changes nothing, except that the message which should
  /// have started the session may have used up its pre-keys.
  ghost predicate ByTheLedger(c: Config, sys: System, step: Step)
    requires Usable(c)
  {
    && Delivers(step) && step.message < |sys.log.sent| && sys.log.sent[step.message].epoch < |sys.log.epochs|
    && var (after, r) := Next(c, sys, step);
    && r == Expected(c, sys, step)
    && Inv(c, after)
    && (r.Err? && (step.ToBob? ==> Established(c, sys)) ==> after == sys)
    && (r.Err? ==> after == sys.(preKeys := after.preKeys))
    && (r.Ok? && !Stores(c, sys, step) ==> after == sys)
    && (Established(c, sys) || (step.ToBob? && r.Ok?) ==> Established(c, after))
    && LogAfter(sys.log, after.log, PositionOf(sys, step), sys.log.sent[step.message], r.Ok? && Stores(c, sys, step))
  }

  /// Delivery to Alice: the outcome, and nothing changes when it fails.
  lemma ToAliceStep(c: Config, sys: System, j: nat, freshKey: Key)
    requires DhLaw(c.suite) && BlockLaw(c.suite)
    requires Usable(c) && Inv(c, sys) && Enabled(c, sys, ToAlice(j, freshKey))
    ensures ByTheLedger(c, sys, ToAlice(j, freshKey))
  {
    hide PartyNow, Usable, Signal, DecryptIn, BobInv, LogOk, AliceFirst, PqAgrees, Outcome, FreshKey, SameFixed,
         AlicePosition, Accept, Followed, Genuine, NoCollision, Following, LogAfter, Established, Current, Inner, SameSession,
         DeserializePreKey, Wrapped, BobNow, BobFirst, SignalIn;
    var t, m := AlicePosition(sys.log.epochs), sys.log.sent[j];
    SentTo(c, sys, j);
    FirstFields(c);
    IsGenuine(c, sys, j, t, AliceNow(c, sys).value, AliceFirst(c), freshKey);
    PartyReceives(c, c.alice, sys.alice, c.bobAddress, sys.log, t, AliceFirst(c), m, freshKey);
    var d := DecryptIn(c.suite, c.alice, sys.alice, c.bobAddress, m.message.data, freshKey);
    BobSame(c, sys, AliceReceive(c, sys, j, freshKey).0);
    if d.0.Ok? {
      AliceAccepts(c, sys, m, Current(d.1, c.bobAddress).value, AliceReceive(c, sys, j, freshKey).0);
    } else {
      LogSame(sys.log, t, m);
    }
  }

  lemma LogSame(log: Log, t: nat, m: Sent)
    ensures LogAfter(log, log, t, m, false)
  {
  }

  /// Delivery to Bob's decryptMessage.
  lemma InnerToBobStep(c: Config, sys: System, j: nat, freshKey: Key)
    requires DhLaw(c.suite) && BlockLaw(c.suite)
    requires Usable(c) && Inv(c, sys) && Enabled(c, sys, InnerToBob(j, freshKey))
    ensures ByTheLedger(c, sys, InnerToBob(j, freshKey))
  {
    hide PartyNow, Usable, Signal, DecryptIn, AliceInv, LogOk, BobFirst, PqAgrees, Outcome, FreshKey, SameFixed,
         BobPosition, Accept, Followed, Genuine, NoCollision, Following, LogAfter, Inner, SameSession, DeserializePreKey, Wrapped;
    var t, m := BobPosition(sys.log.epochs), sys.log.sent[j];
    SentTo(c, sys, j);
    FirstFields(c);
    EstablishedCurrent(c, sys);
    IsGenuine(c, sys, j, t, BobNow(c, sys), BobFirst(c), freshKey);
    PartyReceives(c, c.bob, sys.bob, c.aliceAddress, sys.log, t, BobFirst(c), m, freshKey);
    var d := DecryptIn(c.suite, c.bob, sys.bob, c.aliceAddress, Inner(m), freshKey);
    if d.0.Ok? {
      BobAccepts(c, sys, m, Current(d.1, c.aliceAddress).value, BobReceive(c, sys, j, freshKey).0);
    } else {
      LogSame(sys.log, t, m);
    }
  }

  /// In a session that exists already, decryptPreKeyMessage: the outcome, and nothing is stored.
  lemma ToBobAgain(c: Config, sys: System, j: nat, freshKey: Key)
    requires DhLaw(c.suite) && BlockLaw(c.suite)
    requires Usable(c) && Inv(c, sys) && Enabled(c, sys, ToBob(j, freshKey)) && Established(c, sys)
    ensures ByTheLedger(c, sys, ToBob(j, freshKey)) && Next(c, sys, ToBob(j, freshKey)).0 == sys
  {
    hide PartyNow, Usable, Signal, DecryptIn, AliceInv, LogOk, BobFirst, PqAgrees, Outcome, FreshKey, SameFixed, DecryptPreKeyIn,
         BobPosition, Followed, Genuine, NoCollision, Following, Inner, SameSession, DeserializePreKey, Wrapped;
    var t, m := BobPosition(sys.log.epochs), sys.log.sent[j];
    SentTo(c, sys, j);
    FirstFields(c);
    EstablishedCurrent(c, sys);
    IsGenuine(c, sys, j, t, BobNow(c, sys), BobFirst(c), freshKey);
    PartyReceives(c, c.bob, sys.bob, c.aliceAddress, sys.log, t, BobFirst(c), m, freshKey);
    SameBase(c, SignalIn(c, sys.log.epochs, m));
    AgainIsDecrypt(c, sys, m.message.data, Wrapped(c, SignalIn(c, sys.log.epochs, m)), freshKey);
  }

  /// In the session that a pre-key message belongs to, its inner message goes to the stored state.
  lemma AgainIsDecrypt(c: Config, sys: System, data: bytes, m: PreKeySignalMessage, freshKey: Key)
    requires Usable(c) && DeserializePreKey(data) == Ok(m) && SameSession(RecordOf(sys.bob, c.aliceAddress), m)
    ensures var d := DecryptPreKeyIn(c.suite, c.bob, sys.bob, sys.preKeys, c.aliceAddress, true, data, freshKey);
      d.1 == sys.bob && d.2 == sys.preKeys
      && d.0 == DecryptIn(c.suite, c.bob, sys.bob, c.aliceAddress, m.message, freshKey).0
  {
    hide DecryptWhisper, DeserializePreKey, X3dh.Bob, SerializePublic;
  }

  lemma SameBase(c: Config, signal: bytes)
    requires Usable(c)
    ensures Wrapped(c, signal) == Wrapped(c, []).(message := signal)
    ensures forall r :: SameSession(r, Wrapped(c, signal)) == SameSession(r, Wrapped(c, []))
  {
    hide X3dh.Alice, RootStep, SerializePublic;
  }

  /// What the first pre-key message finds in Bob's stores.
  lemma FirstParams(c: Config, keys: PreKeys, signal: bytes)
    requires Usable(c) && PreKeysOk(c, keys)
    ensures BobParamsOf(c.bob, keys, Wrapped(c, signal))
         == if c.bundle.preKeyId.Some? && c.bundle.preKeyId.value !in keys.oneTime then Err(InvalidKeyIdentifier)
            else Ok(BobParams(c))
  {
    hide X3dh.Alice, RootStep, SerializePublic;
    X3dh.KyberPresent(c.suite, AliceParams(c));
  }

  lemma ConsumeOk(c: Config, keys: PreKeys, m: PreKeySignalMessage)
    requires PreKeysOk(c, keys)
    ensures PreKeysOk(c, Consume(keys, m))
  {
  }

  lemma FirstDerived(c: Config, signal: bytes)
    requires DhLaw(c.suite) && KemLaw(c.suite) && Usable(c)
    ensures var d := X3dh.Bob(c.suite, BobParams(c));
      d.Ok? && BobState(c.suite, c.bob, Wrapped(c, signal), BobParams(c), d.value) == BobFirst(c)
  {
    hide X3dh.Alice, X3dh.Bob, RootStep, SerializePublic;
    FirstStates(c);
    X3dh.SameKeys(c.suite, AliceParams(c), BobParams(c));
  }

  /// What decryptPreKeyMessage makes of a message that starts Bob's session.
  lemma FirstTaken(c: Config, sys: System, m: Sent, freshKey: Key)
    requires DhLaw(c.suite) && BlockLaw(c.suite) && KemLaw(c.suite)
    requires Usable(c) && Inv(c, sys) && !Established(c, sys) && m.epoch < |sys.log.epochs|
    requires DeserializePreKey(m.message.data) == Ok(Wrapped(c, SignalIn(c, sys.log.epochs, m)))
    requires var us, them := c.suite.pub(c.bob.identity), BobFirst(c).remoteIdentity;
      && SignalIn(c, sys.log.epochs, m) == Signal(c.suite, sys.log.epochs, m, them, us)
      && NoCollision(c.suite, sys.log.epochs, BobPosition(sys.log.epochs), m, them, us)
    requires Genuine(c.suite, sys.log.epochs, BobPosition(sys.log.epochs), BobFirst(c), m, freshKey)
    ensures var d := DecryptPreKeyIn(c.suite, c.bob, sys.bob, sys.preKeys, c.aliceAddress, true, m.message.data, freshKey);
      var t := BobPosition(sys.log.epochs);
      && d.0 == (if c.bundle.preKeyId.Some? && c.bundle.preKeyId.value !in sys.preKeys.oneTime then Err(InvalidKeyIdentifier)
                 else Outcome(c.suite, sys.log.epochs, t, Following(sys.log.stored, m.epoch), m, freshKey))
      && (d.0.Err? ==> d.1 == sys.bob && PreKeysOk(c, d.2))
      && (d.0.Ok? ==> Current(d.1, c.aliceAddress).Ok?
                      && Followed(c.suite, sys.log, t, m, Current(d.1, c.aliceAddress).value, BobFirst(c)))
  {
    hide PartyNow, Usable, Signal, AliceInv, LogOk, BobFirst, PqAgrees, Outcome, FreshKey, FirstEpochs, SameFixed, Reads,
         DeserializePreKey, DecryptWhisper, DecryptPreKeyIn, SameSession, Wrapped, Accept, Consume, PreKeysOk, NoCollision,
         Following, Followed, Genuine, BobParamsOf, BobPosition, BobNow, BobInv, SignalIn;
    NotYet(c, sys);
    var signal := SignalIn(c, sys.log.epochs, m);
    WrappedMessage(c, signal);
    SameBase(c, signal);
    FirstParams(c, sys.preKeys, signal);
    FirstDerived(c, signal);
    BobDelivered(c, sys.log, BobPosition(sys.log.epochs), m, freshKey);
    FirstIsDecrypt(c, sys, m.message.data, Wrapped(c, signal), freshKey);
    ConsumeOk(c, sys.preKeys, Wrapped(c, signal));
  }

  lemma WrappedMessage(c: Config, signal: bytes)
    requires Usable(c)
    ensures Wrapped(c, signal).message == signal && Wrapped(c, signal).identityKey == BobFirst(c).remoteIdentity
  {
    hide X3dh.Alice, RootStep, SerializePublic;
  }

  /// The message that starts Bob's session.
  lemma ToBobFirst(c: Config, sys: System, j: nat, freshKey: Key)
    requires DhLaw(c.suite) && BlockLaw(c.suite) && KemLaw(c.suite)
    requires Usable(c) && Inv(c, sys) && Enabled(c, sys, ToBob(j, freshKey)) && !Established(c, sys)
    ensures ByTheLedger(c, sys, ToBob(j, freshKey))
  {
    hide PartyNow, Usable, Signal, AliceInv, LogOk, BobFirst, PqAgrees, Outcome, FreshKey, Inner, SameFixed, Reads, Inv,
         DeserializePreKey, DecryptPreKeyIn, Wrapped, Accept, PreKeysOk, NoCollision, Established, AliceNow,
         Following, LogAfter, Followed, Genuine, BobPosition, BobNow, BobInv;
    var t, m := BobPosition(sys.log.epochs), sys.log.sent[j];
    NotYet(c, sys);
    SentTo(c, sys, j);
    FirstFields(c);
    IsGenuine(c, sys, j, t, BobFirst(c), BobFirst(c), freshKey);
    FirstTaken(c, sys, m, freshKey);
    var d := DecryptPreKeyIn(c.suite, c.bob, sys.bob, sys.preKeys, c.aliceAddress, true, m.message.data, freshKey);
    if d.0.Ok? {
      BobAccepts(c, sys, m, Current(d.1, c.aliceAddress).value, BobReceivePreKey(c, sys, j, freshKey).0);
    } else {
      OnlyPreKeys(c, sys, sys.(preKeys := d.2));
      LogSame(sys.log, t, m);
    }
  }

  lemma NotYet(c: Config, sys: System)
    requires Usable(c) && Inv(c, sys) && !Established(c, sys)
    ensures BobNow(c, sys) == BobFirst(c) && PreKeysOk(c, sys.preKeys)
    ensures PartyNow(c.suite, sys.log, BobPosition(sys.log.epochs), BobFirst(c), BobFirst(c))
  {
    hide PartyNow, Usable, LogOk, AliceInv, BobFirst, SameSession, FirstEpochs, PreKeysOk, Wrapped;
  }

  /// Pre-keys used up by a message that failed.
  lemma OnlyPreKeys(c: Config, sys: System, after: System)
    requires Usable(c) && Inv(c, sys) && after == sys.(preKeys := after.preKeys)
    requires PreKeysOk(c, sys.preKeys) ==> PreKeysOk(c, after.preKeys)
    ensures Inv(c, after) && Established(c, after) == Established(c, sys)
  {
    hide PartyNow, Usable, LogOk, AliceFirst, BobFirst, SameSession, FirstEpochs, PreKeysOk, Wrapped;
  }

  /// The first message of a session goes to the state that its keys start; the pre-keys it names
  /// are used up even when it fails.
  lemma FirstIsDecrypt(c: Config, sys: System, data: bytes, m: PreKeySignalMessage, freshKey: Key)
    requires Usable(c) && DeserializePreKey(data) == Ok(m) && !SameSession(RecordOf(sys.bob, c.aliceAddress), m)
    ensures var d := DecryptPreKeyIn(c.suite, c.bob, sys.bob, sys.preKeys, c.aliceAddress, true, data, freshKey);
      var p := BobParamsOf(c.bob, sys.preKeys, m);
      && (p.Err? ==> d == (Err(p.error), sys.bob, sys.preKeys))
      && (p.Ok? && X3dh.Bob(c.suite, p.value).Ok? ==>
            var st := BobState(c.suite, c.bob, m, p.value, X3dh.Bob(c.suite, p.value).value);
            var r := DecryptWhisper(c.suite, st, m.message, m.identityKey, c.suite.pub(c.bob.identity), freshKey);
            && d.2 == Consume(sys.preKeys, m)
            && (r.Err? ==> d.0 == Err(r.error) && d.1 == sys.bob)
            && (r.Ok? ==> d.0 == Ok(r.value.0) && Current(d.1, c.aliceAddress) == Ok(Reload(r.value.1))))
  {
    hide DecryptWhisper, DeserializePreKey, X3dh.Bob, BobParamsOf, BobState, Consume, SameSession;
    var p := BobParamsOf(c.bob, sys.preKeys, m);
    if p.Ok? && X3dh.Bob(c.suite, p.value).Ok? {
      var st := BobState(c.suite, c.bob, m, p.value, X3dh.Bob(c.suite, p.value).value);
      var r := DecryptWhisper(c.suite, st, m.message, m.identityKey, c.suite.pub(c.bob.identity), freshKey);
      if r.Ok? {
        StoredCurrent(sys.bob, c.aliceAddress, RecordOf(sys.bob, c.aliceAddress), r.value.1);
      }
    }
  }

  /// Decryption with the state that the first message starts.
  lemma BobDelivered(c: Config, log: Log, t: nat, m: Sent, freshKey: Key)
    requires DhLaw(c.suite) && BlockLaw(c.suite) && Usable(c) && LogOk(c, log) && t + 1 <= |log.epochs| <= t + 2
    requires PartyNow(c.suite, log, t, BobFirst(c), BobFirst(c))
    requires Genuine(c.suite, log.epochs, t, BobFirst(c), m, freshKey)
    requires NoCollision(c.suite, log.epochs, t, m, BobFirst(c).remoteIdentity, c.suite.pub(c.bob.identity))
    ensures var st := BobFirst(c);
      var r := DecryptWhisper(c.suite, st, Signal(c.suite, log.epochs, m, st.remoteIdentity, c.suite.pub(c.bob.identity)),
                              st.remoteIdentity, c.suite.pub(c.bob.identity), freshKey);
      var out := Outcome(c.suite, log.epochs, t, Following(log.stored, m.epoch), m, freshKey);
      && (out.Err? ==> r == Err(out.error))
      && (out.Ok? ==> r.Ok? && r.value.0 == out.value && Followed(c.suite, log, t, m, Reload(r.value.1), BobFirst(c)))
  {
    hide DecryptWhisper, PartyOk, Outcome, Signal, NoSkipped, LedgerOk, PqAgrees, LogOk, NoCollision, Usable, BobFirst,
         Following, Indexed, Explained, CountIn, FreshKey, Followed, Moved;
    var st := BobFirst(c);
    Delivered(c.suite, log.epochs, log.stored, t, st, m, st.remoteIdentity, c.suite.pub(c.bob.identity), freshKey);
    var r := DecryptWhisper(c.suite, st, Signal(c.suite, log.epochs, m, st.remoteIdentity, c.suite.pub(c.bob.identity)),
                            st.remoteIdentity, c.suite.pub(c.bob.identity), freshKey);
    if r.Ok? {
      FollowedAfter(c, log, t, st, st, m, r.value.1);
    }
  }

  /// The responder's first DH ratchet step, on the initiator's first ratchet key, yields the root and
  /// the sender chain that the initiator started with.
  lemma FirstRatchet(c: Config, signal: bytes)
    requires DhLaw(c.suite) && KemLaw(c.suite) && Usable(c)
    ensures var d := X3dh.Bob(c.suite, BobParams(c));
      d.Ok? &&
      var bob, alice := BobState(c.suite, c.bob, Wrapped(c, signal), BobParams(c), d.value), AliceFirst(c);
      RootStep(c.suite, bob.root, alice.senderPublic, bob.senderPrivate)
        == Ok(RootAndChain(alice.root, alice.senderChain.key))
  {
    hide X3dh.Alice, X3dh.Bob, CreateChain, SerializePublic;
    FirstDerived(c, signal);
    FirstLedger(c);
    var bob, alice := BobFirst(c), AliceFirst(c);
    var e := FirstEpochs(c);
    assert LinkedAt(c.suite, e, 1);
    assert Public(c.suite, e[0]) == bob.senderPublic && Public(c.suite, e[1]) == alice.senderPublic;
  }

  // ---------------------------------------------------------------- refused messages

  /// A refused message changes nothing, but one to decryptPreKeyMessage may use up pre-keys.
  lemma BadStep(c: Config, sys: System, step: Step)
    requires Usable(c) && Inv(c, sys) && Enabled(c, sys, step)
    requires step.BadToAlice? || step.BadToBob? || step.BadPreKeyToBob?
    ensures var after := Next(c, sys, step).0;
      Inv(c, after) && after == sys.(preKeys := after.preKeys) && Established(c, after) == Established(c, sys)
  {
    hide PartyNow, Usable, LogOk, AliceFirst, BobFirst, SameSession, FirstEpochs, PreKeysOk, DecryptWhisper, Wrapped, Inv;
    if step.BadPreKeyToBob? {
      PreKeyRefused(c, sys, step.data, step.freshKey);
    }
    OnlyPreKeys(c, sys, Next(c, sys, step).0);
  }

  lemma PreKeyRefused(c: Config, sys: System, data: bytes, freshKey: Key)
    ensures var d := DecryptPreKeyIn(c.suite, c.bob, sys.bob, sys.preKeys, c.aliceAddress, true, data, freshKey);
      d.0.Err? ==> d.1 == sys.bob && (PreKeysOk(c, sys.preKeys) ==> PreKeysOk(c, d.2))
  {
    hide PreKeysOk, DecryptWhisper, SameSession, BobParamsOf, Consume, X3dh.Bob;
    var parsed := DeserializePreKey(data);
    if parsed.Ok? && PreKeysOk(c, sys.preKeys) {
      ConsumeOk(c, sys.preKeys, parsed.value);
    }
  }
}
