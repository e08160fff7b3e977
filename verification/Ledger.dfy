/// What two ratcheting parties agree on: the sequence of ratchet keys made in a session, each with
/// the root key and the sender chain derived with it; section 2.3 of the Double Ratchet
/// specification.
module Ledger {
  import opened Bytes
  import opened Crypto
  import opened Kdf
  import opened Ratchet
  import opened SessionBytes

  /// A ratchet key pair, the root key and the sender chain's first key derived when it was made.
  /// The responder's epochs have even positions (the first is its signed pre-key), the initiator's odd.
  datatype Epoch = Epoch(private: Key, root: Key, start: Key)

  function Public(s: Suite, e: Epoch): Key {
    s.pub(e.private)
  }

  /// Every root and chain is derived from the root before it and the Diffie-Hellman value of the
  /// two latest ratchet keys; all ratchet keys differ.
  ghost predicate LedgerOk(s: Suite, epochs: seq<Epoch>) {
    && (forall t :: 0 < t < |epochs| ==> LinkedAt(s, epochs, t))
    && Distinct(s, epochs)
  }

  ghost predicate LinkedAt(s: Suite, epochs: seq<Epoch>, t: nat)
    requires 0 < t < |epochs|
  {
    Linked(s, epochs[t - 1], epochs[t])
  }

  ghost predicate Linked(s: Suite, e: Epoch, next: Epoch) {
    RootStep(s, e.root, Public(s, e), next.private) == Ok(RootAndChain(next.root, next.start))
  }

  ghost predicate Distinct(s: Suite, epochs: seq<Epoch>) {
    forall i, j :: 0 <= i < j < |epochs| ==> Public(s, epochs[i]) != Public(s, epochs[j])
  }

  /// How many receiver chains a party at position t holds: one for each epoch of its peer before t,
  /// the last five of them.
  function ChainCount(t: nat): nat {
    if (t + 1) / 2 < MAX_RECEIVER_CHAINS then (t + 1) / 2 else MAX_RECEIVER_CHAINS
  }

  /// The epoch of the i-th receiver chain of a party at position t.
  function ChainEpoch(t: nat, i: nat): (k: nat)
    requires i < ChainCount(t)
    ensures k < t && (t - k) % 2 == 1
  {
    t + 1 - 2 * (ChainCount(t) - i)
  }

  ghost predicate ChainsOk(s: Suite, epochs: seq<Epoch>, t: nat, chains: seq<ReceiverChain>)
    requires t < |epochs|
  {
    && |chains| == ChainCount(t)
    && forall i :: 0 <= i < |chains| ==> ChainOk(s, epochs[ChainEpoch(t, i)], chains[i])
  }

  ghost predicate ChainOk(s: Suite, e: Epoch, rc: ReceiverChain) {
    rc.ratchet == Public(s, e) && Follows(s, e.start, rc)
  }

  /// A party whose latest ratchet key is that of epoch t.
  ghost predicate PartyOk(s: Suite, epochs: seq<Epoch>, t: nat, st: State) {
    && t < |epochs|
    && st.root == epochs[t].root
    && st.senderPrivate == epochs[t].private
    && st.senderPublic == Public(s, epochs[t])
    && st.senderChain.key == ChainKeyAt(s, epochs[t].start, st.senderChain.index)
    && ChainsOk(s, epochs, t, st.chains)
  }

  ghost predicate NoSkipped(chains: seq<ReceiverChain>) {
    forall i :: 0 <= i < |chains| ==> chains[i].skipped == []
  }

  /// Storing a state keeps what it follows and forgets the cached keys.
  lemma ReloadOk(s: Suite, epochs: seq<Epoch>, t: nat, st: State)
    requires PartyOk(s, epochs, t, st)
    ensures PartyOk(s, epochs, t, Reload(st)) && NoSkipped(Reload(st).chains)
  {
    hide ChainKeyAt, KeysOfMessage;
    forall i | 0 <= i < |st.chains| ensures ChainOk(s, epochs[ChainEpoch(t, i)], Reload(st).chains[i]) {
      assert ChainOk(s, epochs[ChainEpoch(t, i)], st.chains[i]);
    }
  }

  /// A chain is found under its epoch's ratchet key.
  lemma FindStored(s: Suite, epochs: seq<Epoch>, t: nat, chains: seq<ReceiverChain>, i: nat)
    requires t < |epochs| && Distinct(s, epochs) && ChainsOk(s, epochs, t, chains) && i < |chains|
    ensures FindChain(chains, Public(s, epochs[ChainEpoch(t, i)])) == i
  {
    hide Follows, FindChain;
    var key := Public(s, epochs[ChainEpoch(t, i)]);
    assert ChainOk(s, epochs[ChainEpoch(t, i)], chains[i]);
    forall j | 0 <= j < i ensures chains[j].ratchet != key {
      assert ChainOk(s, epochs[ChainEpoch(t, j)], chains[j]);
      assert ChainEpoch(t, j) < ChainEpoch(t, i);
    }
  }

  /// The receiver at position t has the chain of an earlier epoch of its peer, unless it was dropped
  /// for newer ones.
  predicate InWindow(epoch: nat, t: nat) {
    epoch < t && (epoch + t) % 2 == 1 && t < epoch + 10
  }

  /// The position of an epoch among the receiver chains.
  function ChainIndex(epoch: nat, t: nat): (i: nat)
    requires InWindow(epoch, t)
    ensures i < ChainCount(t) && ChainEpoch(t, i) == epoch
  {
    ChainCount(t) - (t + 1 - epoch) / 2
  }

  /// The epochs whose chain a party finds: those of the window, and no others.
  lemma FoundIff(s: Suite, epochs: seq<Epoch>, t: nat, chains: seq<ReceiverChain>, k: nat)
    requires t < |epochs| && k < |epochs| && Distinct(s, epochs) && ChainsOk(s, epochs, t, chains)
    ensures FindChain(chains, Public(s, epochs[k])) < |chains| <==> InWindow(k, t)
    ensures InWindow(k, t) ==> FindChain(chains, Public(s, epochs[k])) == ChainIndex(k, t)
  {
    hide Follows, FindChain;
    if InWindow(k, t) {
      FindStored(s, epochs, t, chains, ChainIndex(k, t));
    } else {
      forall j | 0 <= j < |chains| ensures chains[j].ratchet != Public(s, epochs[k]) {
        assert ChainOk(s, epochs[ChainEpoch(t, j)], chains[j]);
        assert InWindow(ChainEpoch(t, j), t);
      }
    }
  }

  /// A chain without cached keys, at the counter of a message: what taking its keys does.
  lemma TakeFrom(s: Suite, e: Epoch, rc: ReceiverChain, n: u32, pqr: Option<Key>)
    requires ChainOk(s, e, rc) && rc.skipped == [] && n + 1 < TWO32
    ensures var r := TakeKeys(s, rc, n, pqr);
      if n < rc.chain.index then r == Err(DuplicateMessage)
      else if n - rc.chain.index > MAX_FORWARD_JUMPS then r == Err(InvalidMessage)
      else r.Ok? && r.value.0 == KeysOfMessage(s, e.start, n, pqr)
           && ChainOk(s, e, r.value.1) && r.value.1.chain.index == n + 1
  {
    hide KeysOfMessage, TakeKeys, Follows;
    TakeFollows(s, e.start, rc, n, pqr);
  }

  lemma ReplaceChain(s: Suite, epochs: seq<Epoch>, t: nat, chains: seq<ReceiverChain>, i: nat, rc: ReceiverChain)
    requires t < |epochs| && ChainsOk(s, epochs, t, chains) && i < |chains|
    requires ChainOk(s, epochs[ChainEpoch(t, i)], rc)
    ensures ChainsOk(s, epochs, t, chains[i := rc])
  {
    hide ChainOk;
  }

  /// A message of an epoch that the party has a chain for.
  lemma KeysFromStored(s: Suite, epochs: seq<Epoch>, t: nat, st: State, i: nat, n: u32, pqr: Option<Key>, freshKey: Key)
    requires LedgerOk(s, epochs) && PartyOk(s, epochs, t, st) && NoSkipped(st.chains)
    requires i < |st.chains| && n + 1 < TWO32
    ensures var e := epochs[ChainEpoch(t, i)];
      var at := st.chains[i].chain.index;
      var r := GetMessageKeys(s, st, Public(s, e), n, pqr, freshKey);
      if n < at then r == Err(DuplicateMessage)
      else if n - at > MAX_FORWARD_JUMPS then r == Err(InvalidMessage)
      else r.Ok? && r.value.0 == KeysOfMessage(s, e.start, n, pqr)
           && PartyOk(s, epochs, t, r.value.1)
           && r.value.1 == st.(chains := st.chains[i := r.value.1.chains[i]])
           && r.value.1.chains[i].chain.index == n + 1
  {
    hide KeysOfMessage, TakeKeys, Follows, FindChain, ChainKeyAt;
    var e := epochs[ChainEpoch(t, i)];
    assert ChainOk(s, e, st.chains[i]);
    FindStored(s, epochs, t, st.chains, i);
    TakeFrom(s, e, st.chains[i], n, pqr);
    var r := TakeKeys(s, st.chains[i], n, pqr);
    if r.Ok? {
      ReplaceChain(s, epochs, t, st.chains, i, r.value.1);
    }
  }

  /// Adding the peer's newest epoch keeps the last five.
  lemma AddNewest(s: Suite, epochs: seq<Epoch>, t: nat, chains: seq<ReceiverChain>, rc: ReceiverChain)
    requires t + 2 < |epochs| && ChainsOk(s, epochs, t, chains) && ChainOk(s, epochs[t + 1], rc)
    ensures ChainsOk(s, epochs, t + 2, AddChain(chains, rc))
    ensures var all := AddChain(chains, rc); |all| > 0 && all[|all| - 1] == rc
  {
    hide ChainOk;
    var all := AddChain(chains, rc);
    var n := ChainCount(t + 2);
    forall i | 0 <= i < n ensures ChainOk(s, epochs[ChainEpoch(t + 2, i)], all[i]) {
      if i == n - 1 {
        assert ChainEpoch(t + 2, i) == t + 1;
      } else if |all| == |chains| + 1 {
        assert ChainEpoch(t + 2, i) == ChainEpoch(t, i);
      } else {
        assert ChainEpoch(t + 2, i) == ChainEpoch(t, i + 1);
      }
    }
  }

  /// A party at position t of a ledger reads with what the longer ledger says.
  lemma ChainsExtend(s: Suite, epochs: seq<Epoch>, more: seq<Epoch>, t: nat, chains: seq<ReceiverChain>)
    requires t < |epochs| && ChainsOk(s, epochs, t, chains)
    ensures ChainsOk(s, epochs + more, t, chains)
  {
    hide ChainOk;
    forall i | 0 <= i < |chains| ensures ChainOk(s, (epochs + more)[ChainEpoch(t, i)], chains[i]) {
      assert (epochs + more)[ChainEpoch(t, i)] == epochs[ChainEpoch(t, i)];
    }
  }

  lemma PartyExtend(s: Suite, epochs: seq<Epoch>, more: seq<Epoch>, t: nat, st: State)
    requires PartyOk(s, epochs, t, st)
    ensures PartyOk(s, epochs + more, t, st)
  {
    hide ChainsOk, ChainKeyAt;
    assert (epochs + more)[t] == epochs[t];
    ChainsExtend(s, epochs, more, t, st.chains);
  }

  /// A new epoch at the end of the ledger.
  lemma LedgerExtend(s: Suite, epochs: seq<Epoch>, e: Epoch)
    requires LedgerOk(s, epochs) && epochs != [] && Linked(s, epochs[|epochs| - 1], e)
    requires forall i :: 0 <= i < |epochs| ==> Public(s, epochs[i]) != Public(s, e)
    ensures LedgerOk(s, epochs + [e])
  {
    hide Linked;
    var all := epochs + [e];
    forall t | 0 < t < |all| ensures LinkedAt(s, all, t) {
      if t < |epochs| {
        assert LinkedAt(s, epochs, t);
        assert all[t - 1] == epochs[t - 1] && all[t] == epochs[t];
      }
    }
  }

  /// What a DH ratchet step appends to the ledger.
  function NewEpoch(s: Suite, epochs: seq<Epoch>, freshKey: Key): Result<Epoch>
    requires epochs != []
  {
    var last := epochs[|epochs| - 1];
    var send :- RootStep(s, last.root, Public(s, last), freshKey);
    Ok(Epoch(freshKey, send.root, send.chain))
  }

  /// The ratchet step of the party that is behind: its receiving half-step gives the peer's root and
  /// chain, because Diffie-Hellman agreement is symmetric; its sending half-step makes an epoch.
  lemma RatchetStep(s: Suite, epochs: seq<Epoch>, t: nat, st: State, freshKey: Key)
    requires DhLaw(s) && LedgerOk(s, epochs) && PartyOk(s, epochs, t, st) && |epochs| == t + 2
    ensures var e := epochs[t + 1];
      var made := NewEpoch(s, epochs, freshKey);
      var r := DhRatchet(s, st, Public(s, e), freshKey);
      if made.Err? then r == Err(IdentityElement)
      else
        r.Ok? && Linked(s, e, made.value) && PartyOk(s, epochs + [made.value], t + 2, r.value)
        && r.value == st.(root := made.value.root, previousCounter := r.value.previousCounter,
                          senderChain := ChainKey(made.value.start, 0), senderPublic := s.pub(freshKey),
                          senderPrivate := freshKey, chains := AddChain(st.chains, ReceiverChain(Public(s, e), ChainKey(e.start, 0), [])))
  {
    hide ChainsOk, AddChain, CreateChain;
    var e := epochs[t + 1];
    assert LinkedAt(s, epochs, t + 1);
    assert s.dh(st.senderPrivate, Public(s, e)) == s.dh(e.private, Public(s, epochs[t]));
    var made := NewEpoch(s, epochs, freshKey);
    if made.Ok? {
      var rc := ReceiverChain(Public(s, e), ChainKey(e.start, 0), []);
      var all := epochs + [made.value];
      StartFollows(s, e);
      assert all[t + 1] == e;
      ChainsExtend(s, epochs, [made.value], t, st.chains);
      AddNewest(s, all, t, st.chains, rc);
      assert all[t + 2] == made.value;
    }
  }

  lemma StartFollows(s: Suite, e: Epoch)
    ensures ChainOk(s, e, ReceiverChain(Public(s, e), ChainKey(e.start, 0), []))
  {
  }

  /// A chain was added, and moved past message n; of the others the oldest may be gone.
  predicate TakenFromNew(before: seq<ReceiverChain>, after: seq<ReceiverChain>, n: nat) {
    && |after| > 0 && after[|after| - 1].chain.index == n + 1
    && after[..|after| - 1] == if |before| == MAX_RECEIVER_CHAINS then before[1..] else before
  }

  /// A message of the peer's newest epoch, which the party has not seen yet.
  lemma KeysFromNew(s: Suite, epochs: seq<Epoch>, t: nat, st: State, n: u32, pqr: Option<Key>, freshKey: Key)
    requires DhLaw(s) && LedgerOk(s, epochs) && PartyOk(s, epochs, t, st) && |epochs| == t + 2 && n + 1 < TWO32
    requires forall i :: 0 <= i < |epochs| ==> Public(s, epochs[i]) != s.pub(freshKey)
    ensures var e := epochs[t + 1];
      var made := NewEpoch(s, epochs, freshKey);
      var r := GetMessageKeys(s, st, Public(s, e), n, pqr, freshKey);
      if made.Err? then r == Err(IdentityElement)
      else if n > MAX_FORWARD_JUMPS then r == Err(InvalidMessage)
      else r.Ok? && r.value.0 == KeysOfMessage(s, e.start, n, pqr)
           && LedgerOk(s, epochs + [made.value])
           && PartyOk(s, epochs + [made.value], t + 2, r.value.1)
           && r.value.1.senderPrivate == freshKey && r.value.1.senderChain == ChainKey(made.value.start, 0)
           && SameFixed(r.value.1, st) && r.value.1.pqState == st.pqState
           && TakenFromNew(st.chains, r.value.1.chains, n)
  {
    hide KeysOfMessage, TakeKeys, Follows, FindChain, ChainKeyAt, AddChain, LedgerOk, Linked;
    var e := epochs[t + 1];
    var key := Public(s, e);
    assert Distinct(s, epochs) by { LedgerDistinct(s, epochs); }
    FoundIff(s, epochs, t, st.chains, t + 1);
    RatchetStep(s, epochs, t, st, freshKey);
    var made := NewEpoch(s, epochs, freshKey);
    if made.Ok? {
      var all := epochs + [made.value];
      var stepped := DhRatchet(s, st, key, freshKey).value;
      LedgerExtend(s, epochs, made.value);
      LedgerDistinct(s, all);
      assert |st.chains| <= MAX_RECEIVER_CHAINS;
      FirstTake(s, all, t, st.chains, stepped.chains, n, pqr);
    }
  }

  /// The first keys taken from the chain that a ratchet step added.
  lemma FirstTake(s: Suite, all: seq<Epoch>, t: nat, before: seq<ReceiverChain>, chains: seq<ReceiverChain>, n: u32, pqr: Option<Key>)
    requires t + 2 < |all| && Distinct(s, all) && ChainsOk(s, all, t + 2, chains) && n + 1 < TWO32
    requires chains == AddChain(before, ReceiverChain(Public(s, all[t + 1]), ChainKey(all[t + 1].start, 0), []))
    requires |before| <= MAX_RECEIVER_CHAINS
    ensures var e := all[t + 1];
      var r := GetOrCompute(s, chains, Public(s, e), n, pqr);
      if n > MAX_FORWARD_JUMPS then r == Err(InvalidMessage)
      else r.Ok? && r.value.Some? && r.value.value.0 == KeysOfMessage(s, e.start, n, pqr)
           && ChainsOk(s, all, t + 2, r.value.value.1) && TakenFromNew(before, r.value.value.1, n)
  {
    hide KeysOfMessage, TakeKeys, Follows, FindChain, ChainKeyAt, ChainOk;
    var e := all[t + 1];
    var i := ChainCount(t + 2) - 1;
    assert ChainEpoch(t + 2, i) == t + 1;
    var rc := chains[i];
    assert rc == ReceiverChain(Public(s, e), ChainKey(e.start, 0), []);
    FindStored(s, all, t + 2, chains, i);
    StartFollows(s, e);
    TakeFrom(s, e, rc, n, pqr);
    var r := TakeKeys(s, rc, n, pqr);
    if r.Ok? {
      ReplaceChain(s, all, t + 2, chains, i, r.value.1);
    }
  }

  /// The receiving half-step that a party at t makes for an epoch that it has no chain for: from its
  /// present root, and not the root that the epoch was derived from.
  function Stale(s: Suite, epochs: seq<Epoch>, t: nat, k: nat): Result<RootAndChain>
    requires t < |epochs| && k < |epochs|
  {
    RootStep(s, epochs[t].root, Public(s, epochs[k]), epochs[t].private)
  }

  /// Either half of that ratchet step meets the identity element.
  predicate StaleFails(s: Suite, epochs: seq<Epoch>, t: nat, k: nat, freshKey: Key)
    requires t < |epochs| && k < |epochs|
  {
    var stale := Stale(s, epochs, t, k);
    stale.Err? || RootStep(s, stale.value.root, Public(s, epochs[k]), freshKey).Err?
  }

  /// A message of an epoch whose chain was dropped is not recognised: the party ratchets again, and
  /// takes the keys of a chain the peer never had.
  lemma Evicted(s: Suite, epochs: seq<Epoch>, t: nat, st: State, k: nat, n: u32, pqr: Option<Key>, freshKey: Key)
    requires LedgerOk(s, epochs) && PartyOk(s, epochs, t, st)
    requires k < |epochs| && !InWindow(k, t) && n + 1 < TWO32
    ensures var r := GetMessageKeys(s, st, Public(s, epochs[k]), n, pqr, freshKey);
      if StaleFails(s, epochs, t, k, freshKey) then r == Err(IdentityElement)
      else if n > MAX_FORWARD_JUMPS then r == Err(InvalidMessage)
      else r.Ok? && r.value.0 == KeysOfMessage(s, Stale(s, epochs, t, k).value.chain, n, pqr)
  {
    hide KeysOfMessage, TakeKeys, Follows, FindChain, ChainKeyAt, CreateChain;
    var key := Public(s, epochs[k]);
    FoundIff(s, epochs, t, st.chains, k);
    var stepped := DhRatchet(s, st, key, freshKey);
    if stepped.Ok? {
      var stale := Stale(s, epochs, t, k).value;
      var rc := ReceiverChain(key, ChainKey(stale.chain, 0), []);
      assert stepped.value.chains == AddChain(st.chains, rc);
      NotThere(st.chains, key);
      LastFound(st.chains, rc);
      ChainStart(s, stale.chain, rc);
      TakeFollows(s, stale.chain, rc, n, pqr);
    }
  }

  lemma NotThere(chains: seq<ReceiverChain>, key: Key)
    requires FindChain(chains, key) == |chains|
    ensures forall j :: 0 <= j < |chains| ==> chains[j].ratchet != key
  {
  }

  lemma ChainStart(s: Suite, start: Key, rc: ReceiverChain)
    requires rc.skipped == [] && rc.chain == ChainKey(start, 0)
    ensures Follows(s, start, rc) && !Cached(rc, 0)
    ensures forall n :: !Cached(rc, n)
  {
  }

  lemma LastFound(chains: seq<ReceiverChain>, rc: ReceiverChain)
    requires forall j :: 0 <= j < |chains| ==> chains[j].ratchet != rc.ratchet
    ensures var all := AddChain(chains, rc); |all| > 0 && FindChain(all, rc.ratchet) == |all| - 1 && all[|all| - 1] == rc
  {
    hide FindChain;
    var all := AddChain(chains, rc);
    assert forall j :: 0 <= j < |all| - 1 ==> all[j] in chains;
    assert all[|all| - 1].ratchet == rc.ratchet;
  }

  lemma LedgerDistinct(s: Suite, epochs: seq<Epoch>)
    requires LedgerOk(s, epochs)
    ensures Distinct(s, epochs)
  {
  }

  /// The fields that the ratchet never overwrites.
  predicate SameFixed(a: State, b: State) {
    a == b.(root := a.root, previousCounter := a.previousCounter, senderChain := a.senderChain,
            senderPublic := a.senderPublic, senderPrivate := a.senderPrivate, chains := a.chains, pqState := a.pqState)
  }
}
