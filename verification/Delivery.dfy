/// Delivery of one genuine message to a party whose state the ledger of ratchet keys explains.
module Delivery {
  import opened Bytes
  import opened Crypto
  import opened Kdf
  import opened Curve
  import opened Proto
  import opened Messages
  import opened Ratchet
  import opened SessionBytes
  import opened Session
  import opened Ledger
  import Cbc

  type Plaintext = p: bytes | |p| < LIMIT / 2

  /// A message that was sent: made in an epoch with a counter, under a post-quantum key if any.
  datatype Sent = Sent(epoch: nat, counter: u32, pqr: Option<Key>, plaintext: Plaintext,
                       version: byte, previous: u32, pq: Chunk, message: Ciphertext)

  // ---------------------------------------------------------------- one message

  function KeysOf(s: Suite, epochs: seq<Epoch>, m: Sent): MessageKeys
    requires m.epoch < |epochs|
  {
    KeysOfMessage(s, epochs[m.epoch].start, m.counter, m.pqr).keys
  }

  function SignalOfSent(s: Suite, epochs: seq<Epoch>, m: Sent): SignalMessage
    requires m.epoch < |epochs|
  {
    var keys := KeysOf(s, epochs, m);
    SignalMessage(m.version, Public(s, epochs[m.epoch]), m.counter, m.previous,
                  Cbc.Encrypt(s, keys.cipher, keys.iv, m.plaintext), NonEmpty(m.pq))
  }

  /// The inner message that the sender of an epoch makes.
  function Signal(s: Suite, epochs: seq<Epoch>, m: Sent, sender: Key, receiver: Key): bytes
    requires m.epoch < |epochs|
  {
    SerializeSignal(s, SignalOfSent(s, epochs, m), sender, receiver, KeysOf(s, epochs, m).mac)
  }

  lemma SignalBounds(s: Suite, epochs: seq<Epoch>, m: Sent, sender: Key, receiver: Key)
    requires m.epoch < |epochs|
    ensures |SignalOfSent(s, epochs, m).ciphertext| < LIMIT
    ensures |Signal(s, epochs, m, sender, receiver)| < LIMIT
  {
    hide Cbc.Encrypt, KeysOfMessage, FieldsBytes, SignalMac;
    var keys := KeysOf(s, epochs, m);
    Cbc.EncryptLength(s, keys.cipher, keys.iv, m.plaintext);
    var signal := SignalOfSent(s, epochs, m);
    SignalSize(signal);
    FieldsSize(SignalFields(signal));
    SignalData(signal);
  }

  lemma SignalData(m: SignalMessage)
    ensures DataSize(SignalFields(m)) <= |m.ciphertext| + 100 + (if m.pq.Some? then |m.pq.value| else 0)
    ensures |SignalFields(m)| <= 5
  {
    hide SerializePublic;
    var fs := SignalFields(m);
    assert fs[1..][1..] == fs[2..] && fs[2..][1..] == fs[3..] && fs[3..][1..] == fs[4..];
    assert fs[4..] == OptLen(5, m.pq);
    assert fs[4..] != [] ==> fs[4..][1..] == [];
    assert DataSize(fs[4..]) <= (if m.pq.Some? then |m.pq.value| else 0);
    assert DataSize(fs[3..]) == |m.ciphertext| + DataSize(fs[4..]);
    assert DataSize(fs[1..]) == DataSize(fs[3..]);
  }

  /// Decrypting what was serialized starts with exactly the fields that were written.
  lemma ReadSignal(s: Suite, st: State, m: SignalMessage, macKey: Key, sender: Key, receiver: Key, freshKey: Key)
    requires m.version % 16 >= 3 && |m.ciphertext| < LIMIT && (m.pq.Some? ==> |m.pq.value| < TWO32)
    ensures DecryptWhisper(s, st, SerializeSignal(s, m, sender, receiver, macKey), sender, receiver, freshKey)
         == DecryptParsed(s, st, SignalPart(m), SignalMac(s, macKey, sender, receiver, SignalPart(m)),
                          SignalParts(m.ratchet, m.counter, m.ciphertext, m.pq), sender, receiver, freshKey)
  {
    hide Scan, FieldsBytes, SignalMac, DecryptParsed, SerializePublic;
    var part := SignalPart(m);
    var mac := SignalMac(s, macKey, sender, receiver, part);
    var data := part + mac;
    var at := |data| - 8;
    assert data[..at] == part && data[at..] == mac;
    assert data[1..at] == FieldsBytes(SignalFields(m));
    assert data[0] / 16 == m.version % 16;
    SignalScan(m);
    PublicRoundTrip(m.ratchet);
  }

  /// The receiver's post-quantum step yields the key that the sender used; without SPQR both are absent.
  predicate PqAgrees(s: Suite, st: State, m: Sent) {
    var r := SpqrReceive(s, st.pqState, NonEmpty(m.pq));
    r.Ok? && r.value.key == m.pqr
  }

  lemma WithoutSpqr(s: Suite, st: State, m: Sent)
    requires st.pqState == []
    ensures PqAgrees(s, st, m) <==> m.pqr == None
  {
  }

  /// Another MAC key gives this message the same eight bytes as its own.
  predicate SameMac(s: Suite, epochs: seq<Epoch>, m: Sent, macKey: Key, sender: Key, receiver: Key)
    requires m.epoch < |epochs|
  {
    var part := SignalPart(SignalOfSent(s, epochs, m));
    SignalMac(s, macKey, sender, receiver, part) == SignalMac(s, KeysOf(s, epochs, m).mac, sender, receiver, part)
  }

  /// What a genuine message yields, for any state: the error of taking its keys; nothing when the
  /// keys taken give another MAC; with the sender's own keys its plaintext.
  lemma Opened(s: Suite, epochs: seq<Epoch>, st: State, m: Sent, sender: Key, receiver: Key, freshKey: Key)
    requires BlockLaw(s) && m.epoch < |epochs| && m.version % 16 >= 3 && PqAgrees(s, st, m)
    ensures var before := st.(pqState := SpqrReceive(s, st.pqState, NonEmpty(m.pq)).value.state);
      var got := GetMessageKeys(s, before, Public(s, epochs[m.epoch]), m.counter, m.pqr, freshKey);
      var r := DecryptWhisper(s, st, Signal(s, epochs, m, sender, receiver), sender, receiver, freshKey);
      && (got.Err? ==> r == Err(got.error))
      && (got.Ok? && !SameMac(s, epochs, m, got.value.0.keys.mac, sender, receiver) ==> r == Err(InvalidMessage))
      && (got.Ok? && got.value.0.keys == KeysOf(s, epochs, m) ==> r == Ok((m.plaintext, got.value.1)))
  {
    hide GetMessageKeys, KeysOfMessage, Cbc.Encrypt, Cbc.Decrypt, SignalMac, SpqrReceive, SignalPart;
    var keys := KeysOf(s, epochs, m);
    SignalBounds(s, epochs, m, sender, receiver);
    ReadSignal(s, st, SignalOfSent(s, epochs, m), keys.mac, sender, receiver, freshKey);
    Cbc.RoundTrip(s, keys.cipher, keys.iv, m.plaintext);
  }

  /// A cached key was derived without a post-quantum key: in a state that caches it, and was not
  /// stored since, a message whose sender had one opens only if both keys give it the same MAC.
  lemma CachedOpensOnly(s: Suite, epochs: seq<Epoch>, t: nat, st: State, m: Sent, sender: Key, receiver: Key, freshKey: Key)
    requires BlockLaw(s) && LedgerOk(s, epochs) && PartyOk(s, epochs, t, st)
    requires m.epoch < |epochs| && InWindow(m.epoch, t) && m.version % 16 >= 3 && PqAgrees(s, st, m)
    requires Cached(st.chains[ChainIndex(m.epoch, t)], m.counter)
    ensures var r := DecryptWhisper(s, st, Signal(s, epochs, m, sender, receiver), sender, receiver, freshKey);
      var cached := KeysOfMessage(s, epochs[m.epoch].start, m.counter, None).keys;
      && (r.Ok? ==> SameMac(s, epochs, m, cached.mac, sender, receiver))
      && (m.pqr == None ==> r.Ok? && r.value.0 == m.plaintext)
  {
    hide KeysOfMessage, SpqrReceive, LedgerOk, ChainKeyAt, Signal, DecryptWhisper, TakeKeys, Follows, FindChain, SameMac;
    var before := st.(pqState := SpqrReceive(s, st.pqState, NonEmpty(m.pq)).value.state);
    var i := ChainIndex(m.epoch, t);
    LedgerDistinct(s, epochs);
    FoundIff(s, epochs, t, st.chains, m.epoch);
    assert ChainOk(s, epochs[m.epoch], st.chains[i]);
    TakeFollows(s, epochs[m.epoch].start, st.chains[i], m.counter, m.pqr);
    Opened(s, epochs, st, m, sender, receiver, freshKey);
  }

  // ---------------------------------------------------------------- history

  /// A message whose acceptance was stored.
  datatype Mark = Mark(epoch: nat, counter: nat)

  /// The counter after the greatest one stored for an epoch; 0 when there is none.
  function Following(stored: seq<Mark>, epoch: nat): nat {
    if stored == [] then 0
    else
      var n := |stored| - 1;
      var before := Following(stored[..n], epoch);
      if stored[n].epoch == epoch && stored[n].counter >= before then stored[n].counter + 1 else before
  }

  lemma {:induction false} FollowingIsMaximum(stored: seq<Mark>, epoch: nat, counter: nat)
    ensures counter >= Following(stored, epoch) <==>
      forall i :: 0 <= i < |stored| && stored[i].epoch == epoch ==> stored[i].counter < counter
  {
    if stored != [] {
      var n := |stored| - 1;
      FollowingIsMaximum(stored[..n], epoch, counter);
      assert forall i :: 0 <= i < n ==> stored[..n][i] == stored[i];
    }
  }

  lemma FollowingNext(stored: seq<Mark>, mark: Mark, epoch: nat)
    ensures Following(stored + [mark], epoch)
         == if mark.epoch == epoch && mark.counter >= Following(stored, epoch) then mark.counter + 1 else Following(stored, epoch)
  {
    assert (stored + [mark])[..|stored|] == stored;
  }

  /// Every receiver chain stands after the messages stored of its epoch.
  ghost predicate Indexed(stored: seq<Mark>, t: nat, chains: seq<ReceiverChain>) {
    && |chains| == ChainCount(t)
    && forall i :: 0 <= i < |chains| ==> IndexedAt(stored, ChainEpoch(t, i), chains[i])
  }

  predicate IndexedAt(stored: seq<Mark>, epoch: nat, rc: ReceiverChain) {
    rc.chain.index == Following(stored, epoch)
  }

  lemma IndexedStored(stored: seq<Mark>, t: nat, chains: seq<ReceiverChain>, i: nat, n: nat, rc: ReceiverChain)
    requires Indexed(stored, t, chains) && i < |chains|
    requires rc.chain.index == n + 1 && n >= chains[i].chain.index
    ensures Indexed(stored + [Mark(ChainEpoch(t, i), n)], t, chains[i := rc])
  {
    hide Following;
    var mark := Mark(ChainEpoch(t, i), n);
    forall j | 0 <= j < |chains| ensures IndexedAt(stored + [mark], ChainEpoch(t, j), chains[i := rc][j]) {
      assert IndexedAt(stored, ChainEpoch(t, j), chains[j]);
      FollowingNext(stored, mark, ChainEpoch(t, j));
    }
  }

  lemma IndexedNew(stored: seq<Mark>, t: nat, before: seq<ReceiverChain>, after: seq<ReceiverChain>, n: nat)
    requires Indexed(stored, t, before) && Following(stored, t + 1) == 0 && TakenFromNew(before, after, n)
    ensures Indexed(stored + [Mark(t + 1, n)], t + 2, after)
  {
    hide Following;
    var mark := Mark(t + 1, n);
    forall j | 0 <= j < |after| ensures IndexedAt(stored + [mark], ChainEpoch(t + 2, j), after[j]) {
      FollowingNext(stored, mark, ChainEpoch(t + 2, j));
      if j == |after| - 1 {
        assert ChainEpoch(t + 2, j) == t + 1;
      } else {
        var i := if |before| == MAX_RECEIVER_CHAINS then j + 1 else j;
        assert after[j] == after[..|after| - 1][j] == before[i];
        assert ChainEpoch(t + 2, j) == ChainEpoch(t, i) < t + 1;
        assert IndexedAt(stored, ChainEpoch(t, i), before[i]);
      }
    }
  }

  lemma IndexedReload(stored: seq<Mark>, t: nat, st: State)
    requires Indexed(stored, t, st.chains)
    ensures Indexed(stored, t, Reload(st).chains)
  {
    hide Following;
    forall i | 0 <= i < |st.chains| ensures IndexedAt(stored, ChainEpoch(t, i), Reload(st).chains[i]) {
      assert IndexedAt(stored, ChainEpoch(t, i), st.chains[i]);
    }
  }

  // ---------------------------------------------------------------- delivery

  /// What delivering message m to a party at position t returns; at is the counter after the
  /// greatest one it has stored of the message's epoch.
  function Outcome(s: Suite, epochs: seq<Epoch>, t: nat, at: nat, m: Sent, freshKey: Key): Result<bytes>
    requires t < |epochs| && m.epoch < |epochs|
  {
    if m.epoch != t + 1 && !InWindow(m.epoch, t) then
      Err(if StaleFails(s, epochs, t, m.epoch, freshKey) then IdentityElement else InvalidMessage)
    else if m.epoch == t + 1 && NewEpoch(s, epochs, freshKey).Err? then Err(IdentityElement)
    else if m.counter < at then Err(DuplicateMessage)
    else if m.counter - at > MAX_FORWARD_JUMPS then Err(InvalidMessage)
    else Ok(m.plaintext)
  }

  /// For an epoch whose chain was dropped: the keys that the party takes instead of the sender's do
  /// not happen to give the message's MAC.
  predicate NoCollision(s: Suite, epochs: seq<Epoch>, t: nat, m: Sent, sender: Key, receiver: Key)
    requires t < |epochs| && m.epoch < |epochs|
  {
    var stale := Stale(s, epochs, t, m.epoch);
    m.epoch < t && !InWindow(m.epoch, t) && stale.Ok? ==>
      !SameMac(s, epochs, m, KeysOfMessage(s, stale.value.chain, m.counter, m.pqr).keys.mac, sender, receiver)
  }

  /// The ledger after a party's state changed: one more epoch when it made a ratchet key.
  function Grow(epochs: seq<Epoch>, t: nat, st: State): seq<Epoch>
    requires t < |epochs|
  {
    if st.senderPrivate == epochs[t].private then epochs
    else epochs + [Epoch(st.senderPrivate, st.root, st.senderChain.key)]
  }

  ghost predicate FreshKey(s: Suite, epochs: seq<Epoch>, freshKey: Key) {
    forall i :: 0 <= i < |epochs| ==> Public(s, epochs[i]) != s.pub(freshKey)
  }

  /// A party's position after it saw a message of an epoch: two further if it ratcheted.
  function Moved(epoch: nat, t: nat): nat {
    if epoch == t + 1 then t + 2 else t
  }

  /// The state after a successful delivery, against the ledger that grew with it.
  ghost predicate Explained(s: Suite, epochs: seq<Epoch>, t: nat, st: State, epoch: nat, after: State)
    requires t < |epochs|
  {
    var grown := Grow(epochs, t, after);
    && LedgerOk(s, grown)
    && PartyOk(s, grown, Moved(epoch, t), after)
    && |grown| == (if epoch == t + 1 then t + 3 else |epochs|)
    && SameFixed(after, st)
    && after.senderChain.index == (if epoch == t + 1 then 0 else st.senderChain.index)
    && (st.pqState == [] ==> after.pqState == [])
  }

  /// A party at position t of the ledger, with what it has stored.
  ghost predicate Reads(s: Suite, epochs: seq<Epoch>, stored: seq<Mark>, t: nat, st: State) {
    && LedgerOk(s, epochs) && PartyOk(s, epochs, t, st) && NoSkipped(st.chains)
    && Indexed(stored, t, st.chains) && Following(stored, t + 1) == 0
  }

  /// A message of the peer's that was sent, and a ratchet key never drawn before.
  ghost predicate Genuine(s: Suite, epochs: seq<Epoch>, t: nat, st: State, m: Sent, freshKey: Key) {
    && m.epoch < |epochs| && (m.epoch + t) % 2 == 1 && t + 1 <= |epochs| <= t + 2
    && m.version % 16 >= 3 && m.counter + 1 < TWO32 && PqAgrees(s, st, m) && FreshKey(s, epochs, freshKey)
  }

  /// A message of the peer's newest epoch: its first keys come after a ratchet step.
  lemma DeliveredNew(s: Suite, epochs: seq<Epoch>, stored: seq<Mark>, t: nat, st: State, m: Sent, sender: Key, receiver: Key, freshKey: Key)
    requires DhLaw(s) && BlockLaw(s) && Reads(s, epochs, stored, t, st) && Genuine(s, epochs, t, st, m, freshKey)
    requires m.epoch == t + 1
    ensures var r := DecryptWhisper(s, st, Signal(s, epochs, m, sender, receiver), sender, receiver, freshKey);
      && (NewEpoch(s, epochs, freshKey).Err? ==> r == Err(IdentityElement))
      && (NewEpoch(s, epochs, freshKey).Ok? && m.counter > MAX_FORWARD_JUMPS ==> r == Err(InvalidMessage))
      && (NewEpoch(s, epochs, freshKey).Ok? && m.counter <= MAX_FORWARD_JUMPS ==>
            r.Ok? && r.value.0 == m.plaintext && Explained(s, epochs, t, st, m.epoch, r.value.1)
            && Indexed(stored + [Mark(m.epoch, m.counter)], t + 2, r.value.1.chains))
  {
    hide GetMessageKeys, KeysOfMessage, SpqrReceive, LedgerOk, ChainsOk, ChainKeyAt, Signal, DecryptWhisper, NewEpoch,
         Indexed, Following, TakenFromNew, SameMac;
    var before := st.(pqState := SpqrReceive(s, st.pqState, NonEmpty(m.pq)).value.state);
    NoPqKept(s, st, m);
    Opened(s, epochs, st, m, sender, receiver, freshKey);
    assert Public(s, epochs[t]) != s.pub(freshKey);
    KeysFromNew(s, epochs, t, before, m.counter, m.pqr, freshKey);
    NewEpochRoot(s, epochs, freshKey);
    var got := GetMessageKeys(s, before, Public(s, epochs[m.epoch]), m.counter, m.pqr, freshKey);
    if got.Ok? {
      IndexedNew(stored, t, st.chains, got.value.1.chains, m.counter);
    }
  }

  /// A message of an epoch whose chain the party has.
  lemma DeliveredStored(s: Suite, epochs: seq<Epoch>, stored: seq<Mark>, t: nat, st: State, m: Sent, sender: Key, receiver: Key, freshKey: Key)
    requires BlockLaw(s) && Reads(s, epochs, stored, t, st) && Genuine(s, epochs, t, st, m, freshKey)
    requires InWindow(m.epoch, t)
    ensures var r := DecryptWhisper(s, st, Signal(s, epochs, m, sender, receiver), sender, receiver, freshKey);
      var at := Following(stored, m.epoch);
      && (m.counter < at ==> r == Err(DuplicateMessage))
      && (m.counter >= at && m.counter - at > MAX_FORWARD_JUMPS ==> r == Err(InvalidMessage))
      && (m.counter >= at && m.counter - at <= MAX_FORWARD_JUMPS ==>
            r.Ok? && r.value.0 == m.plaintext && Explained(s, epochs, t, st, m.epoch, r.value.1)
            && Indexed(stored + [Mark(m.epoch, m.counter)], t, r.value.1.chains))
  {
    hide GetMessageKeys, KeysOfMessage, SpqrReceive, LedgerOk, ChainsOk, ChainKeyAt, Signal, DecryptWhisper, FreshKey,
         Following, SameMac;
    var before := st.(pqState := SpqrReceive(s, st.pqState, NonEmpty(m.pq)).value.state);
    NoPqKept(s, st, m);
    Opened(s, epochs, st, m, sender, receiver, freshKey);
    var i := ChainIndex(m.epoch, t);
    assert IndexedAt(stored, ChainEpoch(t, i), st.chains[i]);
    KeysFromStored(s, epochs, t, before, i, m.counter, m.pqr, freshKey);
    var got := GetMessageKeys(s, before, Public(s, epochs[m.epoch]), m.counter, m.pqr, freshKey);
    if got.Ok? {
      IndexedStored(stored, t, st.chains, i, m.counter, got.value.1.chains[i]);
    }
  }

  /// A message of an epoch whose chain was dropped: it opens only if the keys of a chain that the
  /// peer never had give it the same MAC as its own keys.
  lemma EvictedOpensOnly(s: Suite, epochs: seq<Epoch>, t: nat, st: State, m: Sent, sender: Key, receiver: Key, freshKey: Key)
    requires BlockLaw(s) && LedgerOk(s, epochs) && PartyOk(s, epochs, t, st) && Genuine(s, epochs, t, st, m, freshKey)
    requires m.epoch < t && !InWindow(m.epoch, t)
    ensures var r := DecryptWhisper(s, st, Signal(s, epochs, m, sender, receiver), sender, receiver, freshKey);
      && (StaleFails(s, epochs, t, m.epoch, freshKey) ==> r == Err(IdentityElement))
      && (r.Ok? ==> !NoCollision(s, epochs, t, m, sender, receiver))
      && (!StaleFails(s, epochs, t, m.epoch, freshKey) && NoCollision(s, epochs, t, m, sender, receiver) ==> r == Err(InvalidMessage))
  {
    hide GetMessageKeys, KeysOfMessage, SpqrReceive, LedgerOk, ChainsOk, ChainKeyAt, Signal, DecryptWhisper, FreshKey, SameMac;
    var before := st.(pqState := SpqrReceive(s, st.pqState, NonEmpty(m.pq)).value.state);
    Opened(s, epochs, st, m, sender, receiver, freshKey);
    Evicted(s, epochs, t, before, m.epoch, m.counter, m.pqr, freshKey);
  }

  /// Delivering a genuine message: the outcome, and a state that the grown ledger and the longer
  /// history explain.
  lemma Delivered(s: Suite, epochs: seq<Epoch>, stored: seq<Mark>, t: nat, st: State, m: Sent, sender: Key, receiver: Key, freshKey: Key)
    requires DhLaw(s) && BlockLaw(s) && Reads(s, epochs, stored, t, st) && Genuine(s, epochs, t, st, m, freshKey)
    requires NoCollision(s, epochs, t, m, sender, receiver)
    ensures var r := DecryptWhisper(s, st, Signal(s, epochs, m, sender, receiver), sender, receiver, freshKey);
      var out := Outcome(s, epochs, t, Following(stored, m.epoch), m, freshKey);
      && (out.Err? ==> r == Err(out.error))
      && (out.Ok? ==> r.Ok? && r.value.0 == out.value && Explained(s, epochs, t, st, m.epoch, r.value.1)
                      && Indexed(stored + [Mark(m.epoch, m.counter)], Moved(m.epoch, t), r.value.1.chains))
  {
    hide LedgerOk, PartyOk, NoSkipped, PqAgrees, FreshKey, Signal, DecryptWhisper, NewEpoch, Explained, ChainIndex, ChainCount,
         Indexed, Following, NoCollision, StaleFails;
    if m.epoch == t + 1 {
      DeliveredNew(s, epochs, stored, t, st, m, sender, receiver, freshKey);
    } else if InWindow(m.epoch, t) {
      DeliveredStored(s, epochs, stored, t, st, m, sender, receiver, freshKey);
    } else {
      EvictedOpensOnly(s, epochs, t, st, m, sender, receiver, freshKey);
    }
  }

  lemma NoPqKept(s: Suite, st: State, m: Sent)
    requires PqAgrees(s, st, m)
    ensures st.pqState == [] ==> SpqrReceive(s, st.pqState, NonEmpty(m.pq)).value.state == []
  {
  }

  lemma NewEpochRoot(s: Suite, epochs: seq<Epoch>, freshKey: Key)
    requires epochs != []
    ensures var e := NewEpoch(s, epochs, freshKey); e.Ok? ==> e.value.private == freshKey
  {
  }
}
