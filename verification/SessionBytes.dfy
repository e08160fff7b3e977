/// The stored form of a session: SessionState.serialize and deserialize of
/// src/state/session_state.zig.  Every store of the library keeps these bytes.
module SessionBytes {
  import opened Bytes
  import opened Proto
  import opened Curve
  import opened Messages
  import opened Ratchet

  // ---------------------------------------------------------------- fields

  function ChainKeyFields(c: ChainKey): seq<Field> {
    [Varint(1, c.index)] + [Len(2, c.key)]
  }

  function SenderFields(st: State): seq<Field> {
    [Len(1, SerializePublic(st.senderPublic))] + [Len(2, st.senderPrivate)] + [Len(3, FieldsBytes(ChainKeyFields(st.senderChain)))]
  }

  function ReceiverFields(rc: ReceiverChain): seq<Field> {
    [Len(1, SerializePublic(rc.ratchet))] + [Len(3, FieldsBytes(ChainKeyFields(rc.chain)))]
  }

  /// One field 7 a chain, without its cached message keys.
  function ChainsFields(chains: seq<ReceiverChain>): seq<Field> {
    if chains == [] then []
    else ChainsFields(chains[..|chains| - 1]) + [Len(7, FieldsBytes(ReceiverFields(chains[|chains| - 1])))]
  }

  function PendingFields(p: PendingPreKey): seq<Field> {
    OptVarint(1, p.preKeyId) + [Len(2, SerializePublic(p.baseKey))] + [Varint(3, p.signedPreKeyId)] + [Fixed64(4, p.timestamp)]
  }

  function KyberFields(k: PendingKyber): seq<Field> {
    [Varint(1, k.preKeyId)] + [Len(2, k.ciphertext)]
  }

  function PendingBytes(p: Option<PendingPreKey>): Option<bytes> {
    if p.None? then None else Some(FieldsBytes(PendingFields(p.value)))
  }

  function KyberBytes(k: Option<PendingKyber>): Option<bytes> {
    if k.None? then None else Some(FieldsBytes(KyberFields(k.value)))
  }

  function NonEmpty(b: bytes): Option<bytes> {
    if b == [] then None else Some(b)
  }

  function HeadFields(st: State): seq<Field> {
    [Varint(1, st.version)] + [Len(2, SerializePublic(st.localIdentity))] + [Len(3, SerializePublic(st.remoteIdentity))]
    + [Len(4, st.root)] + [Varint(5, st.previousCounter)] + [Len(6, FieldsBytes(SenderFields(st)))]
  }

  function TailFields(st: State): seq<Field> {
    [Varint(10, st.remoteRegistration)] + ([Varint(11, st.localRegistration)]
    + (OptLen(9, PendingBytes(st.pendingPreKey)) + (OptLen(13, st.aliceBaseKey)
    + (OptLen(15, NonEmpty(st.pqState)) + (OptLen(14, KyberBytes(st.pendingKyber)) + [])))))
  }

  function StateFields(st: State): seq<Field> {
    HeadFields(st) + (ChainsFields(st.chains) + TailFields(st))
  }

  function SerializeState(st: State): bytes {
    FieldsBytes(StateFields(st))
  }

  // ---------------------------------------------------------------- parsing

  function ChainKeyStep(a: ChainKey, f: Field): Result<ChainKey> {
    match f
    case Varint(n, v) =>
      if n != 1 then Ok(a) else if v >= TWO32 then Err(Panic) else Ok(a.(index := v))
    case Len(n, d) => Ok(if n == 2 && |d| == 32 then a.(key := d) else a)
    case _ => Ok(a)
  }

  datatype ChainLocals = ChainLocals(ratchet: Option<bytes>, ratchetPrivate: Option<bytes>, chain: ChainKey)

  const CHAIN_INIT: ChainLocals := ChainLocals(None, None, ChainKey(Zeros(32), 0))

  function SenderStep(a: ChainLocals, f: Field): Result<ChainLocals> {
    match f
    case Len(n, d) =>
      if n == 1 then Ok(a.(ratchet := Some(d)))
      else if n == 2 then Ok(a.(ratchetPrivate := Some(d)))
      else if n == 3 then
        var c :- Scan(ChainKeyStep, a.chain, d);
        Ok(a.(chain := c))
      else Ok(a)
    case _ => Ok(a)
  }

  function ParseSender(st: State, data: bytes): Result<State> {
    var a :- Scan(SenderStep, CHAIN_INIT, data);
    var public :- if a.ratchet.None? then Ok(st.senderPublic) else DeserializePublic(a.ratchet.value);
    var private :- if a.ratchetPrivate.None? then Ok(st.senderPrivate) else DeserializePrivate(a.ratchetPrivate.value);
    Ok(st.(senderPublic := public, senderPrivate := private, senderChain := a.chain))
  }

  function ReceiverStep(a: ChainLocals, f: Field): Result<ChainLocals> {
    match f
    case Len(n, d) =>
      if n == 1 then Ok(a.(ratchet := Some(d)))
      else if n == 3 then
        var c :- Scan(ChainKeyStep, a.chain, d);
        Ok(a.(chain := c))
      else Ok(a)
    case _ => Ok(a)
  }

  function ParseReceiver(st: State, data: bytes): Result<State> {
    var a :- Scan(ReceiverStep, CHAIN_INIT, data);
    if a.ratchet.None? then Err(InvalidSession) else
    var ratchet :- DeserializePublic(a.ratchet.value);
    Ok(st.(chains := st.chains + [ReceiverChain(ratchet, a.chain, [])]))
  }

  datatype PendingLocals = PendingLocals(preKeyId: Option<u32>, baseKey: Option<bytes>, signedPreKeyId: u32, timestamp: u64)

  function PendingStep(a: PendingLocals, f: Field): Result<PendingLocals> {
    match f
    case Varint(n, v) =>
      if n != 1 && n != 3 then Ok(a)
      else if v >= TWO32 then Err(Panic)
      else Ok(if n == 1 then a.(preKeyId := Some(v)) else a.(signedPreKeyId := v))
    case Len(n, d) => Ok(if n == 2 then a.(baseKey := Some(d)) else a)
    case Fixed64(n, v) => if n != 4 then Ok(a) else if v >= TWO64 then Err(Panic) else Ok(a.(timestamp := v))
    case _ => Ok(a)
  }

  /// A pending pre-key without a base key is ignored.
  function ParsePending(st: State, data: bytes): Result<State> {
    var a :- Scan(PendingStep, PendingLocals(None, None, 0, 0), data);
    if a.baseKey.None? then Ok(st) else
    var base :- DeserializePublic(a.baseKey.value);
    Ok(st.(pendingPreKey := Some(PendingPreKey(a.preKeyId, a.signedPreKeyId, base, a.timestamp))))
  }

  datatype KyberLocals = KyberLocals(preKeyId: u32, ciphertext: Option<bytes>)

  function KyberStep(a: KyberLocals, f: Field): Result<KyberLocals> {
    match f
    case Varint(n, v) =>
      if n != 1 then Ok(a) else if v >= TWO32 then Err(Panic) else Ok(a.(preKeyId := v))
    case Len(n, d) => Ok(if n == 2 then a.(ciphertext := Some(d)) else a)
    case _ => Ok(a)
  }

  function ParseKyber(st: State, data: bytes): Result<State> {
    var a :- Scan(KyberStep, KyberLocals(0, None), data);
    Ok(if a.ciphertext.None? then st else st.(pendingKyber := Some(PendingKyber(a.preKeyId, a.ciphertext.value))))
  }

  function StateStep(a: State, f: Field): Result<State> {
    match f
    case Varint(n, v) =>
      if n !in {1, 5, 10, 11} then Ok(a)
      else if v >= TWO32 then Err(Panic)
      else Ok(if n == 1 then a.(version := v)
              else if n == 5 then a.(previousCounter := v)
              else if n == 10 then a.(remoteRegistration := v)
              else a.(localRegistration := v))
    case Len(n, d) =>
      if n == 2 then
        var k :- DeserializePublic(d);
        Ok(a.(localIdentity := k))
      else if n == 3 then
        var k :- DeserializePublic(d);
        Ok(a.(remoteIdentity := k))
      else if n == 4 then Ok(if |d| == 32 then a.(root := d) else a)
      else if n == 6 then ParseSender(a, d)
      else if n == 7 then ParseReceiver(a, d)
      else if n == 9 then ParsePending(a, d)
      else if n == 13 then Ok(if |d| == 33 then a.(aliceBaseKey := Some(d)) else a)
      else if n == 14 then ParseKyber(a, d)
      else if n == 15 then Ok(a.(pqState := d))
      else Ok(a)
    case _ => Ok(a)
  }

  /// SessionState.init: zeros, and a random key pair.
  function Blank(public: Key, private: Key): State {
    State(4, public, public, Zeros(32), 0, ChainKey(Zeros(32), 0), public, private, [], None, None, 0, 0, None, [])
  }

  /// The random key pair of the blank state is a parameter.
  function DeserializeState(data: bytes, public: Key, private: Key): Result<State> {
    Scan(StateStep, Blank(public, private), data)
  }

  method DeserializeSessionState(data: bytes, public: Key, private: Key) returns (r: Result<State>)
    ensures r == DeserializeState(data, public, private)
  {
    r := ScanLoop(StateStep, Blank(public, private), data);
  }

  // ---------------------------------------------------------------- writing

  method WriteChainKey(c: ChainKey) returns (out: bytes)
    ensures out == FieldsBytes(ChainKeyFields(c)) && |out| < 1000
  {
    hide FieldsBytes, AllEncodable;
    var enc := new Encoder();
    enc.WriteVarintField(1, c.index);
    assert enc.fields == [Varint(1, c.index)];
    enc.WriteBytesField(2, c.key);
    ChainKeySize(c);
    out := enc.buf;
  }

  method WriteSender(st: State) returns (out: bytes)
    ensures out == FieldsBytes(SenderFields(st)) && |out| < 1000
  {
    hide FieldsBytes, AllEncodable, SerializePublic;
    var enc := new Encoder();
    enc.WriteBytesField(1, SerializePublic(st.senderPublic));
    assert enc.fields == [Len(1, SerializePublic(st.senderPublic))];
    enc.WriteBytesField(2, st.senderPrivate);
    var chain := WriteChainKey(st.senderChain);
    enc.WriteBytesField(3, chain);
    SenderSize(st);
    out := enc.buf;
  }

  method WriteReceiver(rc: ReceiverChain) returns (out: bytes)
    ensures out == FieldsBytes(ReceiverFields(rc)) && |out| < 1000
  {
    hide FieldsBytes, AllEncodable, SerializePublic;
    var enc := new Encoder();
    enc.WriteBytesField(1, SerializePublic(rc.ratchet));
    assert enc.fields == [Len(1, SerializePublic(rc.ratchet))];
    var chain := WriteChainKey(rc.chain);
    enc.WriteBytesField(3, chain);
    ReceiverSize(rc);
    out := enc.buf;
  }

  method WritePending(p: PendingPreKey) returns (out: bytes)
    ensures out == FieldsBytes(PendingFields(p)) && |out| < 1000
  {
    hide FieldsBytes, AllEncodable, SerializePublic;
    var enc := new Encoder();
    enc.WriteOptVarint(1, p.preKeyId);
    assert enc.fields == OptVarint(1, p.preKeyId);
    enc.WriteBytesField(2, SerializePublic(p.baseKey));
    enc.WriteVarintField(3, p.signedPreKeyId);
    enc.WriteFixed64Field(4, p.timestamp);
    PendingSize(p);
    out := enc.buf;
  }

  method WriteKyber(k: PendingKyber) returns (out: bytes)
    requires |k.ciphertext| < LIMIT
    ensures out == FieldsBytes(KyberFields(k)) && |out| < TWO64
  {
    hide FieldsBytes, AllEncodable;
    var enc := new Encoder();
    enc.WriteVarintField(1, k.preKeyId);
    assert enc.fields == [Varint(1, k.preKeyId)];
    enc.WriteBytesField(2, k.ciphertext);
    FieldsSize(KyberFields(k));
    AtMost(KyberFields(k), 2, LIMIT);
    out := enc.buf;
  }

  method SerializeSessionState(st: State) returns (out: bytes)
    requires |st.pqState| < TWO64 && (st.pendingKyber.Some? ==> |st.pendingKyber.value.ciphertext| < LIMIT)
    ensures out == SerializeState(st)
  {
    hide FieldsBytes, AllEncodable, HeadFields, ChainsFields, TailFields;
    var enc := new Encoder();
    WriteHead(enc, st);
    WriteChains(enc, st.chains);
    WriteTail(enc, st);
    assert enc.fields == StateFields(st);
    out := enc.buf;
  }

  method WriteHead(enc: Encoder, st: State)
    requires enc.Valid() && enc.fields == []
    modifies enc
    ensures enc.Valid() && enc.fields == HeadFields(st)
  {
    hide FieldsBytes, AllEncodable, SerializePublic, SenderFields;
    enc.WriteVarintField(1, st.version);
    assert enc.fields == [Varint(1, st.version)];
    enc.WriteBytesField(2, SerializePublic(st.localIdentity));
    enc.WriteBytesField(3, SerializePublic(st.remoteIdentity));
    enc.WriteBytesField(4, st.root);
    enc.WriteVarintField(5, st.previousCounter);
    var sender := WriteSender(st);
    enc.WriteBytesField(6, sender);
  }

  method WriteChains(enc: Encoder, chains: seq<ReceiverChain>)
    requires enc.Valid()
    modifies enc
    ensures enc.Valid() && enc.fields == old(enc.fields) + ChainsFields(chains)
  {
    hide FieldsBytes, AllEncodable, ReceiverFields;
    var i := 0;
    while i < |chains|
      invariant 0 <= i <= |chains| && enc.Valid()
      invariant enc.fields == old(enc.fields) + ChainsFields(chains[..i])
    {
      var data := WriteReceiver(chains[i]);
      assert chains[..i + 1][..i] == chains[..i];
      enc.WriteBytesField(7, data);
      i := i + 1;
    }
    assert chains[..i] == chains;
  }

  method WriteTail(enc: Encoder, st: State)
    requires enc.Valid()
    requires |st.pqState| < TWO64 && (st.pendingKyber.Some? ==> |st.pendingKyber.value.ciphertext| < LIMIT)
    modifies enc
    ensures enc.Valid() && enc.fields == old(enc.fields) + TailFields(st)
  {
    hide FieldsBytes, AllEncodable, OptLen, PendingFields, KyberFields, TailFields;
    ghost var before := enc.fields;
    enc.WriteVarintField(10, st.remoteRegistration);
    enc.WriteVarintField(11, st.localRegistration);
    var pending: Option<bytes> := None;
    if st.pendingPreKey.Some? {
      var data := WritePending(st.pendingPreKey.value);
      pending := Some(data);
    }
    enc.WriteOptBytes(9, pending);
    enc.WriteOptBytes(13, st.aliceBaseKey);
    enc.WriteOptBytes(15, NonEmpty(st.pqState));
    var kyber: Option<bytes> := None;
    if st.pendingKyber.Some? {
      var data := WriteKyber(st.pendingKyber.value);
      kyber := Some(data);
    }
    enc.WriteOptBytes(14, kyber);
    TailIs(before, st, pending, kyber);
  }

  lemma TailIs(before: seq<Field>, st: State, pending: Option<bytes>, kyber: Option<bytes>)
    requires pending == PendingBytes(st.pendingPreKey) && kyber == KyberBytes(st.pendingKyber)
    ensures before + [Varint(10, st.remoteRegistration)] + [Varint(11, st.localRegistration)] + OptLen(9, pending)
            + OptLen(13, st.aliceBaseKey) + OptLen(15, NonEmpty(st.pqState)) + OptLen(14, kyber) == before + TailFields(st)
  {
    hide OptLen;
  }

  // ---------------------------------------------------------------- sizes

  lemma ChainKeySize(c: ChainKey)
    ensures |FieldsBytes(ChainKeyFields(c))| < 110 && AllSmall(ChainKeyFields(c))
  {
    hide FieldsBytes;
    FieldsSize(ChainKeyFields(c));
    AtMost(ChainKeyFields(c), 2, 32);
  }

  lemma SenderSize(st: State)
    ensures |FieldsBytes(SenderFields(st))| < 400 && AllSmall(SenderFields(st))
  {
    hide FieldsBytes, ChainKeyFields;
    ChainKeySize(st.senderChain);
    FieldsSize(SenderFields(st));
    AtMost(SenderFields(st), 3, 110);
  }

  lemma ReceiverSize(rc: ReceiverChain)
    ensures |FieldsBytes(ReceiverFields(rc))| < 400 && AllSmall(ReceiverFields(rc))
  {
    hide FieldsBytes, ChainKeyFields;
    ChainKeySize(rc.chain);
    FieldsSize(ReceiverFields(rc));
    AtMost(ReceiverFields(rc), 2, 110);
  }

  lemma PendingSize(p: PendingPreKey)
    ensures |FieldsBytes(PendingFields(p))| < 400 && AllSmall(PendingFields(p))
  {
    hide FieldsBytes;
    FieldsSize(PendingFields(p));
    AtMost(PendingFields(p), 4, 33);
  }

  // ---------------------------------------------------------------- round trip

  function Reloaded(chains: seq<ReceiverChain>): (r: seq<ReceiverChain>)
    ensures |r| == |chains|
  {
    seq(|chains|, i requires 0 <= i < |chains| => chains[i].(skipped := []))
  }

  /// A state as it comes back from a store: the cached message keys are gone.
  function Reload(st: State): State {
    st.(chains := Reloaded(st.chains))
  }

  lemma ChainKeyScan(c: ChainKey, a: ChainKey)
    ensures Scan(ChainKeyStep, a, FieldsBytes(ChainKeyFields(c))) == Ok(c)
  {
    hide Fold, Scan, FieldsBytes;
    ChainKeySize(c);
    Fits(ChainKeyFields(c));
    ScanEncoded(ChainKeyStep, a, ChainKeyFields(c));
    FoldCons(ChainKeyStep, a, Varint(1, c.index), [Len(2, c.key)]);
    FoldOne(ChainKeyStep, a.(index := c.index), Len(2, c.key));
  }

  lemma SenderParsed(st: State, a: State)
    ensures ParseSender(a, FieldsBytes(SenderFields(st)))
         == Ok(a.(senderPublic := st.senderPublic, senderPrivate := st.senderPrivate, senderChain := st.senderChain))
  {
    hide Fold, Scan, FieldsBytes, ChainKeyFields, SerializePublic;
    SenderSize(st);
    Fits(SenderFields(st));
    ScanEncoded(SenderStep, CHAIN_INIT, SenderFields(st));
    var pk, sk := Len(1, SerializePublic(st.senderPublic)), Len(2, st.senderPrivate);
    var ck := Len(3, FieldsBytes(ChainKeyFields(st.senderChain)));
    assert SenderFields(st) == [pk] + ([sk] + [ck]);
    var a1 := CHAIN_INIT.(ratchet := Some(pk.data));
    var a2 := a1.(ratchetPrivate := Some(sk.data));
    FoldCons(SenderStep, CHAIN_INIT, pk, [sk] + [ck]);
    FoldCons(SenderStep, a1, sk, [ck]);
    ChainKeyScan(st.senderChain, a2.chain);
    FoldOne(SenderStep, a2, ck);
    PublicRoundTrip(st.senderPublic);
    PrivateRoundTrip(st.senderPrivate);
  }

  lemma ReceiverParsed(rc: ReceiverChain, a: State)
    ensures ParseReceiver(a, FieldsBytes(ReceiverFields(rc))) == Ok(a.(chains := a.chains + [rc.(skipped := [])]))
  {
    hide Fold, Scan, FieldsBytes, ChainKeyFields, SerializePublic;
    ReceiverSize(rc);
    Fits(ReceiverFields(rc));
    ScanEncoded(ReceiverStep, CHAIN_INIT, ReceiverFields(rc));
    var pk, ck := Len(1, SerializePublic(rc.ratchet)), Len(3, FieldsBytes(ChainKeyFields(rc.chain)));
    var a1 := CHAIN_INIT.(ratchet := Some(pk.data));
    FoldCons(ReceiverStep, CHAIN_INIT, pk, [ck]);
    ChainKeyScan(rc.chain, a1.chain);
    FoldOne(ReceiverStep, a1, ck);
    PublicRoundTrip(rc.ratchet);
  }

  lemma PendingParsed(p: PendingPreKey, a: State)
    ensures ParsePending(a, FieldsBytes(PendingFields(p))) == Ok(a.(pendingPreKey := Some(p)))
  {
    hide Fold, Scan, FieldsBytes, SerializePublic, OptVarint;
    var bk := Len(2, SerializePublic(p.baseKey));
    var r1 := [Varint(3, p.signedPreKeyId)] + [Fixed64(4, p.timestamp)];
    assert PendingFields(p) == OptVarint(1, p.preKeyId) + ([bk] + r1);
    PendingSize(p);
    Fits(PendingFields(p));
    var a0 := PendingLocals(None, None, 0, 0);
    ScanEncoded(PendingStep, a0, PendingFields(p));
    var a1 := a0.(preKeyId := p.preKeyId);
    var a2 := a1.(baseKey := Some(bk.data));
    var a3 := a2.(signedPreKeyId := p.signedPreKeyId);
    FoldOptVarint(PendingStep, a0, 1, p.preKeyId, a1, [bk] + r1);
    FoldCons(PendingStep, a1, bk, r1);
    FoldCons(PendingStep, a2, Varint(3, p.signedPreKeyId), [Fixed64(4, p.timestamp)]);
    FoldOne(PendingStep, a3, Fixed64(4, p.timestamp));
    PublicRoundTrip(p.baseKey);
  }

  lemma KyberParsed(k: PendingKyber, a: State)
    requires |FieldsBytes(KyberFields(k))| < TWO64
    ensures ParseKyber(a, FieldsBytes(KyberFields(k))) == Ok(a.(pendingKyber := Some(k)))
  {
    hide Fold, Scan, FieldsBytes;
    var a0 := KyberLocals(0, None);
    ScanWritten(KyberStep, a0, KyberFields(k));
    FoldCons(KyberStep, a0, Varint(1, k.preKeyId), [Len(2, k.ciphertext)]);
    FoldOne(KyberStep, a0.(preKeyId := k.preKeyId), Len(2, k.ciphertext));
  }

  lemma {:induction false} ChainsFold(chains: seq<ReceiverChain>, a: State)
    ensures Fold(StateStep, a, ChainsFields(chains)) == Ok(a.(chains := a.chains + Reloaded(chains)))
  {
    hide Fold, Scan, FieldsBytes, ReceiverFields;
    if chains == [] {
      FoldOne(StateStep, a, Varint(1, 0));
      assert a.chains + Reloaded(chains) == a.chains;
    } else {
      var n := |chains| - 1;
      var last := Len(7, FieldsBytes(ReceiverFields(chains[n])));
      ChainsFold(chains[..n], a);
      FoldConcat(StateStep, a, ChainsFields(chains[..n]), [last]);
      var a1 := a.(chains := a.chains + Reloaded(chains[..n]));
      FoldOne(StateStep, a1, last);
      ReceiverParsed(chains[n], a1);
      assert a1.chains + [chains[n].(skipped := [])] == a.chains + Reloaded(chains);
    }
  }

  lemma HeadFold(st: State, a: State, rest: seq<Field>)
    ensures Fold(StateStep, a, HeadFields(st) + rest)
         == Fold(StateStep, a.(version := st.version, localIdentity := st.localIdentity, remoteIdentity := st.remoteIdentity,
                               root := st.root, previousCounter := st.previousCounter, senderPublic := st.senderPublic,
                               senderPrivate := st.senderPrivate, senderChain := st.senderChain), rest)
  {
    hide Fold, Scan, FieldsBytes, SerializePublic, SenderFields, ParseSender;
    var lik, rik := Len(2, SerializePublic(st.localIdentity)), Len(3, SerializePublic(st.remoteIdentity));
    var sender := Len(6, FieldsBytes(SenderFields(st)));
    var r1 := [sender] + rest;
    var r2 := [Varint(5, st.previousCounter)] + r1;
    var r3 := [Len(4, st.root)] + r2;
    var r4 := [rik] + r3;
    var r5 := [lik] + r4;
    assert HeadFields(st) + rest == [Varint(1, st.version)] + r5;
    var a1 := a.(version := st.version);
    var a2 := a1.(localIdentity := st.localIdentity);
    var a3 := a2.(remoteIdentity := st.remoteIdentity);
    var a4 := a3.(root := st.root);
    var a5 := a4.(previousCounter := st.previousCounter);
    FoldCons(StateStep, a, Varint(1, st.version), r5);
    PublicRoundTrip(st.localIdentity);
    FoldCons(StateStep, a1, lik, r4);
    PublicRoundTrip(st.remoteIdentity);
    FoldCons(StateStep, a2, rik, r3);
    FoldCons(StateStep, a3, Len(4, st.root), r2);
    FoldCons(StateStep, a4, Varint(5, st.previousCounter), r1);
    SenderParsed(st, a5);
    FoldCons(StateStep, a5, sender, rest);
  }

  lemma TailFold(st: State, a: State)
    requires st.pendingKyber.Some? ==> |FieldsBytes(KyberFields(st.pendingKyber.value))| < TWO64
    requires a.pendingPreKey == None && a.pendingKyber == None && a.aliceBaseKey == None && a.pqState == []
    ensures Fold(StateStep, a, TailFields(st))
         == Ok(a.(remoteRegistration := st.remoteRegistration, localRegistration := st.localRegistration,
                  pendingPreKey := st.pendingPreKey, aliceBaseKey := st.aliceBaseKey, pqState := st.pqState,
                  pendingKyber := st.pendingKyber))
  {
    hide Fold, Scan, FieldsBytes, OptLen, PendingFields, KyberFields, ParsePending, ParseKyber;
    var r1 := OptLen(14, KyberBytes(st.pendingKyber)) + [];
    var r2 := OptLen(15, NonEmpty(st.pqState)) + r1;
    var r3 := OptLen(13, st.aliceBaseKey) + r2;
    var r4 := OptLen(9, PendingBytes(st.pendingPreKey)) + r3;
    var a1 := a.(remoteRegistration := st.remoteRegistration);
    var a2 := a1.(localRegistration := st.localRegistration);
    var a3 := a2.(pendingPreKey := st.pendingPreKey);
    var a4 := a3.(aliceBaseKey := st.aliceBaseKey);
    var a5 := a4.(pqState := st.pqState);
    var a6 := a5.(pendingKyber := st.pendingKyber);
    FoldCons(StateStep, a, Varint(10, st.remoteRegistration), [Varint(11, st.localRegistration)] + r4);
    FoldCons(StateStep, a1, Varint(11, st.localRegistration), r4);
    if st.pendingPreKey.Some? {
      PendingParsed(st.pendingPreKey.value, a2);
    }
    FoldOptLen(StateStep, a2, 9, PendingBytes(st.pendingPreKey), a3, r3);
    FoldOptLen(StateStep, a3, 13, st.aliceBaseKey, a4, r2);
    FoldOptLen(StateStep, a4, 15, NonEmpty(st.pqState), a5, r1);
    if st.pendingKyber.Some? {
      KyberParsed(st.pendingKyber.value, a5);
    }
    FoldOptLen(StateStep, a5, 14, KyberBytes(st.pendingKyber), a6, []);
    FoldOne(StateStep, a6, Varint(1, 0));
  }

  lemma {:induction false} ChainsInRange(chains: seq<ReceiverChain>)
    ensures AllInRange(ChainsFields(chains))
  {
    hide FieldsBytes, ReceiverFields;
    if chains != [] {
      ChainsInRange(chains[..|chains| - 1]);
    }
  }

  lemma HeadInRange(st: State)
    ensures AllInRange(HeadFields(st))
  {
    hide FieldsBytes, SenderFields, SerializePublic;
  }

  lemma TailInRange(st: State)
    ensures AllInRange(TailFields(st))
  {
    hide AllInRange, OptLen;
    var pending, kyber := PendingBytes(st.pendingPreKey), KyberBytes(st.pendingKyber);
    OptInRange(14, kyber);
    OptInRange(15, NonEmpty(st.pqState));
    OptInRange(13, st.aliceBaseKey);
    OptInRange(9, pending);
    NumberInRange(10, st.remoteRegistration);
    NumberInRange(11, st.localRegistration);
    assert OptLen(14, kyber) + [] == OptLen(14, kyber);
    InRangeConcat(OptLen(15, NonEmpty(st.pqState)), OptLen(14, kyber));
    InRangeConcat(OptLen(13, st.aliceBaseKey), OptLen(15, NonEmpty(st.pqState)) + OptLen(14, kyber));
    InRangeConcat(OptLen(9, pending), OptLen(13, st.aliceBaseKey) + (OptLen(15, NonEmpty(st.pqState)) + OptLen(14, kyber)));
    InRangeConcat([Varint(11, st.localRegistration)], TailFields(st)[2..]);
    InRangeConcat([Varint(10, st.remoteRegistration)], TailFields(st)[1..]);
  }

  lemma OptInRange(number: u32, value: Option<bytes>)
    requires 0 < number < 100
    ensures AllInRange(OptLen(number, value))
  {
  }

  lemma NumberInRange(number: u32, value: u32)
    requires 0 < number < 100
    ensures AllInRange([Varint(number, value)])
  {
  }

  lemma StateInRange(st: State)
    ensures AllInRange(StateFields(st))
  {
    hide AllInRange, HeadFields, ChainsFields, TailFields;
    ChainsInRange(st.chains);
    HeadInRange(st);
    TailInRange(st);
    InRangeConcat(ChainsFields(st.chains), TailFields(st));
    InRangeConcat(HeadFields(st), ChainsFields(st.chains) + TailFields(st));
  }

  /// A stored session is read back as it was, but for the cached keys of skipped messages; so
  /// exactly when it had none, whatever the blank state's random key.
  lemma StateRoundTrip(st: State, public: Key, private: Key)
    requires |SerializeState(st)| < TWO64
    ensures DeserializeState(SerializeState(st), public, private) == Ok(Reload(st))
    ensures Reload(st) == st <==> forall i :: 0 <= i < |st.chains| ==> st.chains[i].skipped == []
  {
    hide Fold, Scan, FieldsBytes, HeadFields, ChainsFields, TailFields;
    var a := Blank(public, private);
    StateInRange(st);
    ScanWritten(StateStep, a, StateFields(st));
    HeadFold(st, a, ChainsFields(st.chains) + TailFields(st));
    var a1 := a.(version := st.version, localIdentity := st.localIdentity, remoteIdentity := st.remoteIdentity,
                 root := st.root, previousCounter := st.previousCounter, senderPublic := st.senderPublic,
                 senderPrivate := st.senderPrivate, senderChain := st.senderChain);
    ChainsFold(st.chains, a1);
    FoldConcat(StateStep, a1, ChainsFields(st.chains), TailFields(st));
    assert a1.chains + Reloaded(st.chains) == Reloaded(st.chains);
    KyberFits(st);
    TailFold(st, a1.(chains := Reloaded(st.chains)));
    SameWithoutSkipped(st.chains);
  }

  lemma SameWithoutSkipped(chains: seq<ReceiverChain>)
    ensures Reloaded(chains) == chains <==> forall i :: 0 <= i < |chains| ==> chains[i].skipped == []
  {
    if forall i :: 0 <= i < |chains| ==> chains[i].skipped == [] {
      assert forall i :: 0 <= i < |chains| ==> Reloaded(chains)[i] == chains[i];
    } else {
      var i :| 0 <= i < |chains| && chains[i].skipped != [];
      assert Reloaded(chains)[i] != chains[i];
    }
  }

  lemma KyberFits(st: State)
    requires |SerializeState(st)| < TWO64
    ensures st.pendingKyber.Some? ==> |FieldsBytes(KyberFields(st.pendingKyber.value))| < TWO64
  {
    hide FieldsBytes, HeadFields, ChainsFields, KyberFields, PendingFields;
    StateInRange(st);
    var fs := StateFields(st);
    DataFits(fs);
    if st.pendingKyber.Some? {
      assert fs[|fs| - 1] == Len(14, FieldsBytes(KyberFields(st.pendingKyber.value)));
      assert Encodable(fs[|fs| - 1]);
    }
  }
}
