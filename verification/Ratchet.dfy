/// The Double Ratchet state: src/state/session_state.zig, src/ratchet/root_key.zig,
/// src/ratchet/chain_key.zig and getMessageKeys of src/session_cipher.zig.
module Ratchet {
  import opened Bytes
  import opened Crypto
  import opened Kdf
  import opened Curve

  const MAX_FORWARD_JUMPS: nat := 25000
  const MAX_MESSAGE_KEYS: nat := 2000
  const MAX_RECEIVER_CHAINS: nat := 5

  datatype ChainKey = ChainKey(key: Key, index: u32)

  datatype KeysAt = KeysAt(keys: MessageKeys, counter: u32)

  function MessageKeysOf(s: Suite, c: ChainKey, pqr: Option<Key>): KeysAt {
    KeysAt(DeriveMessageKeys(s, MessageKeySeed(s, c.key), pqr), c.index)
  }

  /// The next chain key; the index traps at its last value.
  function Advance(s: Suite, c: ChainKey): Result<ChainKey> {
    if c.index + 1 == TWO32 then Err(Panic) else Ok(ChainKey(NextChainKey(s, c.key), c.index + 1))
  }

  /// RootKey.createChain: a DH ratchet step.
  function RootStep(s: Suite, root: Key, theirs: Key, ours: Key): Result<RootAndChain> {
    var shared := s.dh(ours, theirs);
    if shared.None? then Err(IdentityElement) else Ok(CreateChain(s, root, shared.value))
  }

  datatype ReceiverChain = ReceiverChain(ratchet: Key, chain: ChainKey, skipped: seq<KeysAt>)

  // ---------------------------------------------------------------- receiver chains

  /// The first chain under a ratchet key; |chains| when there is none.
  function FindChain(chains: seq<ReceiverChain>, ratchet: Key): (i: nat)
    ensures i <= |chains|
    ensures i < |chains| ==> chains[i].ratchet == ratchet
    ensures forall j :: 0 <= j < i ==> chains[j].ratchet != ratchet
  {
    if chains == [] then 0
    else if chains[0].ratchet == ratchet then 0
    else 1 + FindChain(chains[1..], ratchet)
  }

  /// A new chain goes last; the oldest is dropped beyond the limit.
  function AddChain(chains: seq<ReceiverChain>, c: ReceiverChain): seq<ReceiverChain> {
    var all := chains + [c];
    if |all| > MAX_RECEIVER_CHAINS then all[1..] else all
  }

  function FindSkipped(skipped: seq<KeysAt>, counter: nat): (i: nat)
    ensures i <= |skipped|
    ensures i < |skipped| ==> skipped[i].counter == counter
    ensures forall j :: 0 <= j < i ==> skipped[j].counter != counter
  {
    if skipped == [] then 0
    else if skipped[0].counter == counter then 0
    else 1 + FindSkipped(skipped[1..], counter)
  }

  /// swapRemove: the last element takes the place of the removed one.
  function SwapRemove(skipped: seq<KeysAt>, i: nat): (r: seq<KeysAt>)
    requires i < |skipped|
    ensures forall k :: k in r ==> k in skipped
    ensures |r| == |skipped| - 1
  {
    var n := |skipped| - 1;
    if i == n then skipped[..n] else skipped[..i] + [skipped[n]] + skipped[i + 1..n]
  }

  /// Caching one skipped message key, derived without a post-quantum key.
  function Cache(skipped: seq<KeysAt>, k: KeysAt): seq<KeysAt> {
    var all := skipped + [k];
    if |all| > MAX_MESSAGE_KEYS then all[1..] else all
  }

  function SkipOne(s: Suite, rc: ReceiverChain): ReceiverChain
    requires rc.chain.index + 1 < TWO32
  {
    rc.(skipped := Cache(rc.skipped, MessageKeysOf(s, rc.chain, None)),
        chain := ChainKey(NextChainKey(s, rc.chain.key), rc.chain.index + 1))
  }

  /// The chain moved forward to a counter, caching the keys on the way.
  function SkipTo(s: Suite, rc: ReceiverChain, counter: u32): (r: ReceiverChain)
    ensures rc.chain.index <= counter ==> r.chain.index == counter
    decreases counter - rc.chain.index
  {
    if rc.chain.index < counter then SkipTo(s, SkipOne(s, rc), counter) else rc
  }

  /// The keys of message `counter` on a chain, and the chain afterwards.
  function TakeKeys(s: Suite, rc: ReceiverChain, counter: u32, pqr: Option<Key>): Result<(KeysAt, ReceiverChain)> {
    var i := FindSkipped(rc.skipped, counter);
    if i < |rc.skipped| then Ok((rc.skipped[i], rc.(skipped := SwapRemove(rc.skipped, i))))
    else if rc.chain.index > counter then Err(DuplicateMessage)
    else if counter - rc.chain.index > MAX_FORWARD_JUMPS then Err(InvalidMessage)
    else
      var r := SkipTo(s, rc, counter);
      var next :- Advance(s, r.chain);
      Ok((MessageKeysOf(s, r.chain, pqr), r.(chain := next)))
  }

  /// getOrComputeMessageKeys: None when there is no chain under the ratchet key.
  function GetOrCompute(s: Suite, chains: seq<ReceiverChain>, ratchet: Key, counter: u32, pqr: Option<Key>)
    : Result<Option<(KeysAt, seq<ReceiverChain>)>>
  {
    var i := FindChain(chains, ratchet);
    if i == |chains| then Ok(None)
    else
      var (keys, rc) :- TakeKeys(s, chains[i], counter, pqr);
      Ok(Some((keys, chains[i := rc])))
  }

  // ---------------------------------------------------------------- the session state

  datatype PendingPreKey = PendingPreKey(preKeyId: Option<u32>, signedPreKeyId: u32, baseKey: Key, timestamp: u64)
  datatype PendingKyber = PendingKyber(preKeyId: u32, ciphertext: bytes)

  datatype State = State(
    version: u32,
    localIdentity: Key,
    remoteIdentity: Key,
    root: Key,
    previousCounter: u32,
    senderChain: ChainKey,
    senderPublic: Key,
    senderPrivate: Key,
    chains: seq<ReceiverChain>,
    pendingPreKey: Option<PendingPreKey>,
    pendingKyber: Option<PendingKyber>,
    remoteRegistration: u32,
    localRegistration: u32,
    aliceBaseKey: Option<PublicBytes>,
    pqState: bytes
  )

  /// The DH ratchet on a new peer key: receiving half-step, fresh key, sending half-step.
  function DhRatchet(s: Suite, st: State, theirs: Key, freshKey: Key): Result<State> {
    var previous := if st.senderChain.index > 0 then st.senderChain.index - 1 else 0;
    var recv :- RootStep(s, st.root, theirs, st.senderPrivate);
    var chains := AddChain(st.chains, ReceiverChain(theirs, ChainKey(recv.chain, 0), []));
    var send :- RootStep(s, recv.root, theirs, freshKey);
    Ok(st.(previousCounter := previous, root := send.root, chains := chains,
           senderChain := ChainKey(send.chain, 0), senderPublic := s.pub(freshKey), senderPrivate := freshKey))
  }

  /// getMessageKeys: from a stored chain, or after a DH ratchet step.
  function GetMessageKeys(s: Suite, st: State, theirs: Key, counter: u32, pqr: Option<Key>, freshKey: Key)
    : Result<(KeysAt, State)>
  {
    var found :- GetOrCompute(s, st.chains, theirs, counter, pqr);
    if found.Some? then Ok((found.value.0, st.(chains := found.value.1)))
    else
      var stepped :- DhRatchet(s, st, theirs, freshKey);
      var again :- GetOrCompute(s, stepped.chains, theirs, counter, pqr);
      if again.None? then Err(InvalidMessage)
      else Ok((again.value.0, stepped.(chains := again.value.1)))
  }

  /// SessionState: the fields that the ratchet overwrites, and the rest of the state.
  class SessionState {
    const suite: Suite
    var root: Key
    var previousCounter: u32
    var senderChain: ChainKey
    var senderPublic: Key
    var senderPrivate: Key
    var chains: seq<ReceiverChain>
    var pqState: bytes
    const fixed: State

    function View(): State
      reads this
    {
      fixed.(root := root, previousCounter := previousCounter, senderChain := senderChain,
             senderPublic := senderPublic, senderPrivate := senderPrivate, chains := chains, pqState := pqState)
    }

    constructor (s: Suite, st: State)
      ensures suite == s && View() == st
    {
      suite, fixed := s, st;
      root, previousCounter, senderChain := st.root, st.previousCounter, st.senderChain;
      senderPublic, senderPrivate, chains, pqState := st.senderPublic, st.senderPrivate, st.chains, st.pqState;
    }

    method AddReceiverChain(ratchet: Key, chain: ChainKey)
      modifies this`chains
      ensures chains == AddChain(old(chains), ReceiverChain(ratchet, chain, []))
    {
      chains := chains + [ReceiverChain(ratchet, chain, [])];
      if |chains| > MAX_RECEIVER_CHAINS {
        chains := chains[1..];
      }
    }

    method FindReceiverChain(ratchet: Key) returns (i: nat)
      ensures i == FindChain(chains, ratchet)
    {
      i := 0;
      while i < |chains|
        invariant 0 <= i <= |chains|
        invariant forall j :: 0 <= j < i ==> chains[j].ratchet != ratchet
      {
        if chains[i].ratchet == ratchet {
          return;
        }
        i := i + 1;
      }
    }

    method GetOrComputeMessageKeys(ratchet: Key, counter: u32, pqr: Option<Key>) returns (r: Result<Option<KeysAt>>)
      modifies this`chains
      ensures match GetOrCompute(suite, old(chains), ratchet, counter, pqr)
              case Err(e) => r == Err(e)
              case Ok(None) => r == Ok(None) && chains == old(chains)
              case Ok(Some((keys, after))) => r == Ok(Some(keys)) && chains == after
    {
      hide DeriveMessageKeys, MessageKeySeed, NextChainKey, FindSkipped, FindChain;
      var at := FindReceiverChain(ratchet);
      if at == |chains| {
        return Ok(None);
      }
      var rc := chains[at];
      var k := FindCached(rc.skipped, counter);
      if k < |rc.skipped| {
        var keys := rc.skipped[k];
        chains := chains[at := rc.(skipped := SwapRemove(rc.skipped, k))];
        return Ok(Some(keys));
      }
      if rc.chain.index > counter {
        return Err(DuplicateMessage);
      }
      if counter - rc.chain.index > MAX_FORWARD_JUMPS {
        return Err(InvalidMessage);
      }
      ghost var start := rc;
      while rc.chain.index < counter
        invariant start.chain.index <= rc.chain.index <= counter
        invariant SkipTo(suite, rc, counter) == SkipTo(suite, start, counter)
        decreases counter - rc.chain.index
      {
        ghost var before := rc;
        var skipped := rc.skipped + [MessageKeysOf(suite, rc.chain, None)];
        if |skipped| > MAX_MESSAGE_KEYS {
          skipped := skipped[1..];
        }
        rc := rc.(skipped := skipped, chain := ChainKey(NextChainKey(suite, rc.chain.key), rc.chain.index + 1));
        assert rc == SkipOne(suite, before);
      }
      var keys := MessageKeysOf(suite, rc.chain, pqr);
      if rc.chain.index + 1 == TWO32 {
        return Err(Panic);
      }
      rc := rc.(chain := ChainKey(NextChainKey(suite, rc.chain.key), rc.chain.index + 1));
      chains := chains[at := rc];
      r := Ok(Some(keys));
    }

    method FindCached(skipped: seq<KeysAt>, counter: u32) returns (i: nat)
      ensures i == FindSkipped(skipped, counter)
    {
      i := 0;
      while i < |skipped|
        invariant 0 <= i <= |skipped|
        invariant forall j :: 0 <= j < i ==> skipped[j].counter != counter
      {
        if skipped[i].counter == counter {
          return;
        }
        i := i + 1;
      }
    }

    /// The DH ratchet step in place; one that fails leaves the object half changed.
    method Step(theirs: Key, freshKey: Key) returns (r: Result<()>)
      modifies this
      ensures match DhRatchet(suite, old(View()), theirs, freshKey)
              case Err(e) => r == Err(e)
              case Ok(after) => r == Ok(()) && View() == after
    {
      hide RootStep, AddChain;
      previousCounter := if senderChain.index > 0 then senderChain.index - 1 else 0;
      var recv := RootStep(suite, root, theirs, senderPrivate);
      if recv.Err? {
        return Err(recv.error);
      }
      root := recv.value.root;
      AddReceiverChain(theirs, ChainKey(recv.value.chain, 0));
      var send := RootStep(suite, root, theirs, freshKey);
      if send.Err? {
        return Err(send.error);
      }
      root := send.value.root;
      senderChain := ChainKey(send.value.chain, 0);
      senderPublic, senderPrivate := suite.pub(freshKey), freshKey;
      r := Ok(());
    }

    /// A step that fails may leave the object half changed: its caller drops it.
    method MessageKeysFor(theirs: Key, counter: u32, pqr: Option<Key>, freshKey: Key) returns (r: Result<KeysAt>)
      modifies this
      ensures match GetMessageKeys(suite, old(View()), theirs, counter, pqr, freshKey)
              case Err(e) => r == Err(e)
              case Ok((keys, after)) => r == Ok(keys) && View() == after
    {
      hide GetOrCompute, DhRatchet;
      var found := GetOrComputeMessageKeys(theirs, counter, pqr);
      if found.Err? {
        return Err(found.error);
      }
      if found.value.Some? {
        return Ok(found.value.value);
      }
      var stepped := Step(theirs, freshKey);
      if stepped.Err? {
        return Err(stepped.error);
      }
      var again := GetOrComputeMessageKeys(theirs, counter, pqr);
      if again.Err? {
        return Err(again.error);
      }
      if again.value.None? {
        return Err(InvalidMessage);
      }
      r := Ok(again.value.value);
    }
  }

  // ---------------------------------------------------------------- what a chain yields

  /// The chain key n steps after the first.
  function ChainKeyAt(s: Suite, start: Key, n: nat): Key {
    if n == 0 then start else NextChainKey(s, ChainKeyAt(s, start, n - 1))
  }

  /// The keys of message n of a chain.
  function KeysOfMessage(s: Suite, start: Key, n: u32, pqr: Option<Key>): KeysAt {
    MessageKeysOf(s, ChainKey(ChainKeyAt(s, start, n), n), pqr)
  }

  /// A receiver chain that follows the sender chain starting at `start`: its position, and cached
  /// keys of earlier messages, each at most once and all derived without a post-quantum key.
  ghost predicate Follows(s: Suite, start: Key, rc: ReceiverChain) {
    && rc.chain.key == ChainKeyAt(s, start, rc.chain.index)
    && (forall i :: 0 <= i < |rc.skipped| ==>
          rc.skipped[i].counter < rc.chain.index
          && rc.skipped[i] == KeysOfMessage(s, start, rc.skipped[i].counter, None))
    && (forall i, j :: 0 <= i < j < |rc.skipped| ==> rc.skipped[i].counter != rc.skipped[j].counter)
  }

  predicate Cached(rc: ReceiverChain, n: nat) {
    exists i :: 0 <= i < |rc.skipped| && rc.skipped[i].counter == n
  }

  lemma SkipOneFollows(s: Suite, start: Key, rc: ReceiverChain)
    requires Follows(s, start, rc) && rc.chain.index + 1 < TWO32
    ensures Follows(s, start, SkipOne(s, rc))
  {
    hide DeriveMessageKeys, MessageKeySeed, NextChainKey;
  }

  lemma {:induction false} SkipToFollows(s: Suite, start: Key, rc: ReceiverChain, n: u32)
    requires Follows(s, start, rc) && rc.chain.index <= n
    ensures Follows(s, start, SkipTo(s, rc, n)) && SkipTo(s, rc, n).ratchet == rc.ratchet
    decreases n - rc.chain.index
  {
    hide Follows;
    if rc.chain.index < n {
      SkipOneFollows(s, start, rc);
      SkipToFollows(s, start, SkipOne(s, rc), n);
    }
  }

  lemma SwapRemoveOnce(s: Suite, start: Key, rc: ReceiverChain, i: nat)
    requires Follows(s, start, rc) && i < |rc.skipped|
    ensures var after := rc.(skipped := SwapRemove(rc.skipped, i));
      Follows(s, start, after) && !Cached(after, rc.skipped[i].counter)
  {
    hide KeysOfMessage, ChainKeyAt;
    var n := |rc.skipped| - 1;
    var after := SwapRemove(rc.skipped, i);
    forall j | 0 <= j < n ensures after[j] == rc.skipped[if j == i then n else j] {
    }
  }

  /// Taking the keys of message n: exactly when it succeeds, and that it gives the sender's keys of
  /// that message, except that a cached key ignores the post-quantum key.  Afterwards n is neither
  /// cached nor ahead, so it cannot be taken again.
  lemma TakeFollows(s: Suite, start: Key, rc: ReceiverChain, n: u32, pqr: Option<Key>)
    requires Follows(s, start, rc)
    ensures var r := TakeKeys(s, rc, n, pqr);
      if Cached(rc, n) then
        r.Ok? && r.value.0 == KeysOfMessage(s, start, n, None) && r.value.1.chain == rc.chain
      else if n < rc.chain.index then r == Err(DuplicateMessage)
      else if n - rc.chain.index > MAX_FORWARD_JUMPS then r == Err(InvalidMessage)
      else if n + 1 == TWO32 then r == Err(Panic)
      else r.Ok? && r.value.0 == KeysOfMessage(s, start, n, pqr) && r.value.1.chain.index == n + 1
    ensures var r := TakeKeys(s, rc, n, pqr);
      r.Ok? ==> Follows(s, start, r.value.1) && r.value.1.ratchet == rc.ratchet
                && n < r.value.1.chain.index && !Cached(r.value.1, n)
  {
    hide DeriveMessageKeys, MessageKeySeed, NextChainKey, SkipTo, KeysOfMessage;
    var i := FindSkipped(rc.skipped, n);
    if i < |rc.skipped| {
      SwapRemoveOnce(s, start, rc, i);
    } else if rc.chain.index <= n {
      SkipToFollows(s, start, rc, n);
      TakenIs(s, start, SkipTo(s, rc, n), n, pqr);
    }
  }

  /// The keys of messages a, a + 1, ..., b - 1 of a chain, derived without a post-quantum key.
  function KeysBetween(s: Suite, start: Key, a: nat, b: u32): (keys: seq<KeysAt>)
    requires a <= b
    ensures |keys| == b - a
    decreases b - a
  {
    if a < b then [KeysOfMessage(s, start, a, None)] + KeysBetween(s, start, a + 1, b) else []
  }

  lemma {:induction false} BetweenAt(s: Suite, start: Key, a: nat, b: u32, i: nat)
    requires i < b - a
    ensures KeysBetween(s, start, a, b)[i] == KeysOfMessage(s, start, a + i, None)
    decreases i
  {
    hide KeysOfMessage;
    if i > 0 {
      BetweenAt(s, start, a + 1, b, i - 1);
    }
  }

  /// The last 2000 of a list.
  function Latest(keys: seq<KeysAt>): seq<KeysAt> {
    if |keys| > MAX_MESSAGE_KEYS then keys[|keys| - MAX_MESSAGE_KEYS..] else keys
  }

  lemma LatestOf(keys: seq<KeysAt>, more: seq<KeysAt>)
    ensures Latest(Latest(keys) + more) == Latest(keys + more)
  {
  }

  /// Moving a chain forward caches exactly the keys it passes, in order, and drops the oldest beyond
  /// two thousand.
  lemma {:induction false} SkipToCaches(s: Suite, start: Key, rc: ReceiverChain, n: u32)
    requires Follows(s, start, rc) && rc.chain.index <= n && |rc.skipped| <= MAX_MESSAGE_KEYS
    ensures SkipTo(s, rc, n).skipped == Latest(rc.skipped + KeysBetween(s, start, rc.chain.index, n))
    decreases n - rc.chain.index
  {
    hide Follows, KeysOfMessage, SkipOne, KeysBetween, Latest;
    if rc.chain.index < n {
      var key, rest := KeysOfMessage(s, start, rc.chain.index, None), KeysBetween(s, start, rc.chain.index + 1, n);
      BetweenNext(s, start, rc.chain.index, n);
      SkipOneFollows(s, start, rc);
      SkipOneCaches(s, start, rc);
      SkipToCaches(s, start, SkipOne(s, rc), n);
      LatestOf(rc.skipped + [key], rest);
      assert rc.skipped + [key] + rest == rc.skipped + ([key] + rest);
    } else {
      BetweenNext(s, start, n, n);
      LatestShort(rc.skipped);
      assert rc.skipped + [] == rc.skipped;
    }
  }

  lemma BetweenNext(s: Suite, start: Key, a: u32, b: u32)
    requires a <= b
    ensures KeysBetween(s, start, a, b)
         == if a < b then [KeysOfMessage(s, start, a, None)] + KeysBetween(s, start, a + 1, b) else []
  {
    hide KeysOfMessage;
  }

  lemma LatestShort(keys: seq<KeysAt>)
    requires |keys| <= MAX_MESSAGE_KEYS
    ensures Latest(keys) == keys
  {
  }

  lemma SkipOneCaches(s: Suite, start: Key, rc: ReceiverChain)
    requires Follows(s, start, rc) && |rc.skipped| <= MAX_MESSAGE_KEYS && rc.chain.index + 1 < TWO32
    ensures var next := SkipOne(s, rc);
      && next.skipped == Latest(rc.skipped + [KeysOfMessage(s, start, rc.chain.index, None)])
      && next.chain.index == rc.chain.index + 1 && |next.skipped| <= MAX_MESSAGE_KEYS
  {
    hide DeriveMessageKeys, MessageKeySeed, NextChainKey;
    assert rc.chain == ChainKey(ChainKeyAt(s, start, rc.chain.index), rc.chain.index);
  }

  /// After message n, each of the messages skipped for it, up to two thousand, can still be read
  /// from the live state, once, with its key without a post-quantum part.
  lemma SkippedReadable(s: Suite, start: Key, rc: ReceiverChain, n: u32, k: u32, pqr: Option<Key>, pqr': Option<Key>)
    requires Follows(s, start, rc) && |rc.skipped| <= MAX_MESSAGE_KEYS
    requires !Cached(rc, n) && rc.chain.index <= k < n && n - k <= 2000 && TakeKeys(s, rc, n, pqr).Ok?
    ensures var r := TakeKeys(s, TakeKeys(s, rc, n, pqr).value.1, k, pqr');
      && r.Ok? && r.value.0 == KeysOfMessage(s, start, k, None)
      && TakeKeys(s, r.value.1, k, pqr') == Err(DuplicateMessage)
  {
    hide KeysOfMessage, MessageKeysOf, SkipTo, Follows, KeysBetween, FindSkipped;
    TakeFollows(s, start, rc, n, pqr);
    SkipToCaches(s, start, rc, n);
    var after := TakeKeys(s, rc, n, pqr).value.1;
    SkippedKept(s, start, rc, n, pqr);
    var keys := KeysBetween(s, start, rc.chain.index, n);
    var all := rc.skipped + keys;
    var i := |rc.skipped| + (k - rc.chain.index);
    BetweenAt(s, start, rc.chain.index, n, k - rc.chain.index);
    assert all[i] == keys[k - rc.chain.index];
    var shift := |all| - |after.skipped|;
    assert after.skipped[i - shift] == all[i];
    KeysCounter(s, start, k);
    assert Cached(after, k);
    TakeFollows(s, start, after, k, pqr');
    TakeFollows(s, start, TakeKeys(s, after, k, pqr').value.1, k, pqr');
  }

  lemma KeysCounter(s: Suite, start: Key, k: u32)
    ensures KeysOfMessage(s, start, k, None).counter == k
  {
  }

  lemma SkippedKept(s: Suite, start: Key, rc: ReceiverChain, n: u32, pqr: Option<Key>)
    requires !Cached(rc, n) && rc.chain.index <= n && TakeKeys(s, rc, n, pqr).Ok?
    ensures TakeKeys(s, rc, n, pqr).value.1.skipped == SkipTo(s, rc, n).skipped
  {
    hide MessageKeysOf, SkipTo;
  }

  /// A skipped message can be read as long as its key is cached, and not once the cache is gone,
  /// as it is after every load from a store.
  lemma ForgottenKeys(s: Suite, start: Key, rc: ReceiverChain, n: u32, pqr: Option<Key>)
    requires Follows(s, start, rc) && Cached(rc, n)
    ensures TakeKeys(s, rc, n, pqr).Ok?
    ensures TakeKeys(s, rc.(skipped := []), n, pqr) == Err(DuplicateMessage)
  {
    hide KeysOfMessage, ChainKeyAt, MessageKeysOf;
  }

  /// The position a chain was moved forward to.
  lemma TakenIs(s: Suite, start: Key, rc: ReceiverChain, n: u32, pqr: Option<Key>)
    requires Follows(s, start, rc) && rc.chain.index == n
    ensures MessageKeysOf(s, rc.chain, pqr) == KeysOfMessage(s, start, n, pqr)
    ensures n + 1 < TWO32 ==>
      var after := rc.(chain := ChainKey(NextChainKey(s, rc.chain.key), n + 1));
      Follows(s, start, after) && !Cached(after, n)
  {
    hide DeriveMessageKeys, MessageKeySeed, NextChainKey;
    assert rc.chain == ChainKey(ChainKeyAt(s, start, n), n);
  }
}
