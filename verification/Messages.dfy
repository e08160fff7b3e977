/// The messages built on the wire codec: src/messages/*.zig and the sender-key record of
/// src/group_session_builder.zig.
module Messages {
  import opened Bytes
  import opened Crypto
  import opened Proto
  import opened Curve

  /// Byte strings short enough for a whole message to fit the address space.
  const LIMIT: nat := 0x1000_0000_0000_0000

  // ---------------------------------------------------------------- folding over written fields

  lemma FoldOne<A>(step: (A, Field) -> Result<A>, acc: A, f: Field)
    ensures Fold(step, acc, [f]) == step(acc, f)
    ensures Fold(step, acc, []) == Ok(acc)
  {
    if step(acc, f).Ok? {
      assert [f][1..] == [];
    }
  }

  /// Reading one field first.
  lemma FoldCons<A>(step: (A, Field) -> Result<A>, acc: A, f: Field, rest: seq<Field>)
    ensures Fold(step, acc, [f] + rest) == var r := step(acc, f); if r.Err? then r else Fold(step, r.value, rest)
  {
    FoldOne(step, acc, f);
    FoldConcat(step, acc, [f], rest);
  }

  /// A few encodable fields, none so long that the message would not fit.
  ghost predicate AllSmall(fs: seq<Field>) {
    && |fs| <= 8
    && forall i :: 0 <= i < |fs| ==> Encodable(fs[i]) && (fs[i].Len? ==> |fs[i].data| < LIMIT)
  }

  lemma {:induction false} AtMost(fs: seq<Field>, n: nat, limit: nat)
    requires |fs| <= n
    requires forall i :: 0 <= i < |fs| && fs[i].Len? ==> |fs[i].data| <= limit
    ensures DataSize(fs) <= n * limit
  {
    if fs == [] {
      NotNegative(n, limit);
    } else {
      AtMost(fs[1..], n - 1, limit);
      OneMore(n - 1, limit);
    }
  }

  lemma NotNegative(a: nat, b: nat)
    ensures a * b >= 0
  {
  }

  lemma OneMore(a: nat, b: nat)
    ensures (a + 1) * b == a * b + b
  {
  }

  lemma Fits(fs: seq<Field>)
    requires AllSmall(fs)
    ensures AllEncodable(fs) && 20 * |fs| + DataSize(fs) < TWO64
  {
    AtMost(fs, 8, LIMIT);
  }

  lemma FoldOptVarint<A>(step: (A, Field) -> Result<A>, acc: A, n: nat, v: Option<u32>, next: A, rest: seq<Field>)
    requires if v.Some? then step(acc, Varint(n, v.value)) == Ok(next) else next == acc
    ensures Fold(step, acc, OptVarint(n, v) + rest) == Fold(step, next, rest)
  {
    if v.Some? {
      FoldCons(step, acc, Varint(n, v.value), rest);
    } else {
      assert [] + rest == rest;
    }
  }

  lemma FoldOptLen<A>(step: (A, Field) -> Result<A>, acc: A, n: nat, d: Option<bytes>, next: A, rest: seq<Field>)
    requires if d.Some? then step(acc, Len(n, d.value)) == Ok(next) else next == acc
    ensures Fold(step, acc, OptLen(n, d) + rest) == Fold(step, next, rest)
  {
    if d.Some? {
      FoldCons(step, acc, Len(n, d.value), rest);
    } else {
      assert [] + rest == rest;
    }
  }

  // ---------------------------------------------------------------- PreKeySignalMessage

  datatype PreKeySignalMessage = PreKeySignalMessage(
    version: byte,
    registrationId: u32,
    preKeyId: Option<u32>,
    signedPreKeyId: u32,
    kyberPreKeyId: Option<u32>,
    baseKey: Key,
    identityKey: Key,
    kyberCiphertext: Option<bytes>,
    message: bytes
  )

  /// The fields in the order in which serialize writes them.
  function PreKeyFields(m: PreKeySignalMessage): seq<Field> {
    [Varint(5, m.registrationId)] + OptVarint(1, m.preKeyId) + [Varint(6, m.signedPreKeyId)]
    + OptVarint(7, m.kyberPreKeyId) + OptLen(8, m.kyberCiphertext)
    + [Len(2, SerializePublic(m.baseKey))] + [Len(3, SerializePublic(m.identityKey))] + [Len(4, m.message)]
  }

  /// High nibble: the session version; low nibble: wire version 4.
  function VersionByte(version: byte): byte {
    version % 16 * 16 + 4
  }

  function SerializePreKey(m: PreKeySignalMessage): bytes {
    [VersionByte(m.version)] + FieldsBytes(PreKeyFields(m))
  }

  /// The locals of the parsing loop.
  datatype PreKeyLocals = PreKeyLocals(
    registrationId: u32, preKeyId: Option<u32>, signedPreKeyId: u32, kyberPreKeyId: Option<u32>,
    baseKey: Option<bytes>, identityKey: Option<bytes>, kyberCiphertext: Option<bytes>, message: Option<bytes>)

  function PreKeyStep(a: PreKeyLocals, f: Field): Result<PreKeyLocals> {
    match f
    case Varint(n, v) =>
      if n !in {1, 5, 6, 7} then Ok(a)
      else if v >= TWO32 then Err(Panic)
      else Ok(if n == 1 then a.(preKeyId := Some(v))
              else if n == 5 then a.(registrationId := v)
              else if n == 6 then a.(signedPreKeyId := v)
              else a.(kyberPreKeyId := Some(v)))
    case Len(n, d) =>
      Ok(if n == 2 then a.(baseKey := Some(d))
         else if n == 3 then a.(identityKey := Some(d))
         else if n == 4 then a.(message := Some(d))
         else if n == 8 then a.(kyberCiphertext := Some(d))
         else a)
    case _ => Ok(a)
  }

  const PRE_KEY_INIT: PreKeyLocals := PreKeyLocals(0, None, 0, None, None, None, None, None)

  function PreKeyResult(version: byte, a: PreKeyLocals): Result<PreKeySignalMessage> {
    if a.baseKey.None? then Err(InvalidMessage) else
    var baseKey :- DeserializePublic(a.baseKey.value);
    if a.identityKey.None? then Err(InvalidMessage) else
    var identityKey :- DeserializePublic(a.identityKey.value);
    if a.message.None? then Err(InvalidMessage) else
    Ok(PreKeySignalMessage(version, a.registrationId, a.preKeyId, a.signedPreKeyId, a.kyberPreKeyId,
                           baseKey, identityKey, a.kyberCiphertext, a.message.value))
  }

  function DeserializePreKey(data: bytes): Result<PreKeySignalMessage> {
    if |data| < 1 then Err(InvalidMessage)
    else if data[0] / 16 < 3 then Err(LegacyCiphertextVersion)
    else
      var a :- Scan(PreKeyStep, PRE_KEY_INIT, data[1..]);
      PreKeyResult(data[0] / 16, a)
  }

  method SerializePreKeyMessage(m: PreKeySignalMessage) returns (out: bytes)
    requires |m.message| < TWO64 && (m.kyberCiphertext.Some? ==> |m.kyberCiphertext.value| < TWO64)
    ensures out == SerializePreKey(m)
  {
    hide SerializePublic, FieldsBytes, AllEncodable;
    var enc := new Encoder();
    enc.WriteVarintField(5, m.registrationId);
    assert enc.fields == [Varint(5, m.registrationId)];
    enc.WriteOptVarint(1, m.preKeyId);
    enc.WriteVarintField(6, m.signedPreKeyId);
    enc.WriteOptVarint(7, m.kyberPreKeyId);
    enc.WriteOptBytes(8, m.kyberCiphertext);
    enc.WriteBytesField(2, SerializePublic(m.baseKey));
    enc.WriteBytesField(3, SerializePublic(m.identityKey));
    enc.WriteBytesField(4, m.message);
    out := [VersionByte(m.version)] + enc.buf;
  }

  method DeserializePreKeyMessage(data: bytes) returns (r: Result<PreKeySignalMessage>)
    ensures r == DeserializePreKey(data)
  {
    if |data| < 1 {
      return Err(InvalidMessage);
    }
    var version := data[0] / 16;
    if version < 3 {
      return Err(LegacyCiphertextVersion);
    }
    var a := ScanLoop(PreKeyStep, PRE_KEY_INIT, data[1..]);
    if a.Err? {
      return Err(a.error);
    }
    r := PreKeyResult(version, a.value);
  }

  function PreKeyRead(m: PreKeySignalMessage): PreKeyLocals {
    PreKeyLocals(m.registrationId, m.preKeyId, m.signedPreKeyId, m.kyberPreKeyId,
                 Some(SerializePublic(m.baseKey)), Some(SerializePublic(m.identityKey)), m.kyberCiphertext, Some(m.message))
  }

  lemma PreKeyFold(m: PreKeySignalMessage)
    ensures Fold(PreKeyStep, PRE_KEY_INIT, PreKeyFields(m)) == Ok(PreKeyRead(m))
  {
    hide Fold, SerializePublic, OptVarint, OptLen;
    var kpk, kc, pk := OptVarint(7, m.kyberPreKeyId), OptLen(8, m.kyberCiphertext), OptVarint(1, m.preKeyId);
    var bk, ik, msg := Len(2, SerializePublic(m.baseKey)), Len(3, SerializePublic(m.identityKey)), Len(4, m.message);
    var r1 := [ik] + [msg];
    var r2 := kc + ([bk] + r1);
    var r3 := [Varint(6, m.signedPreKeyId)] + (kpk + r2);
    assert PreKeyFields(m) == [Varint(5, m.registrationId)] + (pk + r3);
    var a0 := PRE_KEY_INIT.(registrationId := m.registrationId);
    var a1 := a0.(preKeyId := m.preKeyId);
    var a2 := a1.(signedPreKeyId := m.signedPreKeyId);
    var a3 := a2.(kyberPreKeyId := m.kyberPreKeyId);
    var a4 := a3.(kyberCiphertext := m.kyberCiphertext);
    var a5 := a4.(baseKey := Some(bk.data));
    var a6 := a5.(identityKey := Some(ik.data));
    FoldCons(PreKeyStep, PRE_KEY_INIT, Varint(5, m.registrationId), pk + r3);
    FoldOptVarint(PreKeyStep, a0, 1, m.preKeyId, a1, r3);
    FoldCons(PreKeyStep, a1, Varint(6, m.signedPreKeyId), kpk + r2);
    FoldOptVarint(PreKeyStep, a2, 7, m.kyberPreKeyId, a3, r2);
    FoldOptLen(PreKeyStep, a3, 8, m.kyberCiphertext, a4, [bk] + r1);
    FoldCons(PreKeyStep, a4, bk, r1);
    FoldCons(PreKeyStep, a5, ik, [msg]);
    FoldOne(PreKeyStep, a6, msg);
  }

  /// A pre-key message reads back as itself, with the low four bits of its version; versions
  /// below 3 are refused.
  lemma PreKeyRoundTrip(m: PreKeySignalMessage)
    requires |m.message| < LIMIT && (m.kyberCiphertext.Some? ==> |m.kyberCiphertext.value| < LIMIT)
    ensures DeserializePreKey(SerializePreKey(m))
         == if m.version % 16 < 3 then Err(LegacyCiphertextVersion) else Ok(m.(version := m.version % 16))
  {
    hide Fold, Scan, FieldsBytes, SerializePublic;
    PreKeyFold(m);
    PreKeySize(m);
    Fits(PreKeyFields(m));
    ScanEncoded(PreKeyStep, PRE_KEY_INIT, PreKeyFields(m));
    assert SerializePreKey(m)[1..] == FieldsBytes(PreKeyFields(m));
    PreKeyReadResult(m, m.version % 16);
  }

  lemma PreKeyReadResult(m: PreKeySignalMessage, version: byte)
    ensures PreKeyResult(version, PreKeyRead(m)) == Ok(m.(version := version))
  {
    PublicRoundTrip(m.baseKey);
    PublicRoundTrip(m.identityKey);
  }

  lemma PreKeySize(m: PreKeySignalMessage)
    requires |m.message| < LIMIT && (m.kyberCiphertext.Some? ==> |m.kyberCiphertext.value| < LIMIT)
    ensures AllSmall(PreKeyFields(m))
  {
  }

  // ---------------------------------------------------------------- SenderKeyMessage

  datatype SenderKeyMessage = SenderKeyMessage(uuid: Block, chainId: u32, iteration: u32, ciphertext: bytes)

  /// Version 3 in both nibbles.
  const GROUP_VERSION: byte := 0x33

  function SenderKeyFields(m: SenderKeyMessage): seq<Field> {
    [Len(1, m.uuid)] + [Varint(2, m.chainId)] + [Varint(3, m.iteration)] + [Len(4, m.ciphertext)]
  }

  function SignedPart(m: SenderKeyMessage): bytes {
    [GROUP_VERSION] + FieldsBytes(SenderKeyFields(m))
  }

  function SerializeSenderKey(s: Suite, m: SenderKeyMessage, signing: Key, random: bytes): bytes {
    SignedPart(m) + s.sign(signing, SignedPart(m), random)
  }

  datatype SenderKeyLocals = SenderKeyLocals(uuid: Option<Block>, chainId: u32, iteration: u32, ciphertext: Option<bytes>)

  const SENDER_KEY_INIT: SenderKeyLocals := SenderKeyLocals(None, 0, 0, None)

  function SenderKeyStep(a: SenderKeyLocals, f: Field): Result<SenderKeyLocals> {
    match f
    case Varint(n, v) =>
      if n != 2 && n != 3 then Ok(a)
      else if v >= TWO32 then Err(Panic)
      else Ok(if n == 2 then a.(chainId := v) else a.(iteration := v))
    case Len(n, d) =>
      Ok(if n == 1 && |d| == 16 then a.(uuid := Some(d))
         else if n == 4 then a.(ciphertext := Some(d))
         else a)
    case _ => Ok(a)
  }

  function SenderKeyResult(a: SenderKeyLocals): Result<SenderKeyMessage> {
    if a.uuid.None? || a.ciphertext.None? then Err(InvalidMessage)
    else Ok(SenderKeyMessage(a.uuid.value, a.chainId, a.iteration, a.ciphertext.value))
  }

  /// The signature is checked before anything is parsed.
  function DeserializeSenderKey(s: Suite, data: bytes, sender: Key): Result<SenderKeyMessage> {
    if |data| < 65 then Err(InvalidMessage)
    else if data[0] / 16 < 3 then Err(LegacyCiphertextVersion)
    else if !s.verify(sender, data[..|data| - 64], data[|data| - 64..]) then Err(InvalidSignature)
    else
      var a :- Scan(SenderKeyStep, SENDER_KEY_INIT, data[1..|data| - 64]);
      SenderKeyResult(a)
  }

  method SerializeSenderKeyMessage(s: Suite, m: SenderKeyMessage, signing: Key, random: bytes) returns (out: bytes)
    requires |m.ciphertext| < LIMIT
    ensures out == SerializeSenderKey(s, m, signing, random)
  {
    hide FieldsBytes, AllEncodable;
    var enc := new Encoder();
    enc.WriteBytesField(1, m.uuid);
    assert enc.fields == [Len(1, m.uuid)];
    enc.WriteVarintField(2, m.chainId);
    enc.WriteVarintField(3, m.iteration);
    enc.WriteBytesField(4, m.ciphertext);
    var part := [GROUP_VERSION] + enc.buf;
    out := part + s.sign(signing, part, random);
  }

  method DeserializeAndVerify(s: Suite, data: bytes, sender: Key) returns (r: Result<SenderKeyMessage>)
    ensures r == DeserializeSenderKey(s, data, sender)
  {
    if |data| < 65 {
      return Err(InvalidMessage);
    }
    if data[0] / 16 < 3 {
      return Err(LegacyCiphertextVersion);
    }
    var at := |data| - 64;
    if !s.verify(sender, data[..at], data[at..]) {
      return Err(InvalidSignature);
    }
    var a := ScanLoop(SenderKeyStep, SENDER_KEY_INIT, data[1..at]);
    if a.Err? {
      return Err(a.error);
    }
    r := SenderKeyResult(a.value);
  }

  lemma SenderKeyFold(m: SenderKeyMessage)
    ensures Fold(SenderKeyStep, SENDER_KEY_INIT, SenderKeyFields(m))
         == Ok(SenderKeyLocals(Some(m.uuid), m.chainId, m.iteration, Some(m.ciphertext)))
  {
    hide Fold;
    var r1 := [Varint(3, m.iteration)] + [Len(4, m.ciphertext)];
    var r2 := [Varint(2, m.chainId)] + r1;
    assert SenderKeyFields(m) == [Len(1, m.uuid)] + r2;
    var a1 := SENDER_KEY_INIT.(uuid := Some(m.uuid));
    var a2 := a1.(chainId := m.chainId);
    var a3 := a2.(iteration := m.iteration);
    FoldCons(SenderKeyStep, SENDER_KEY_INIT, Len(1, m.uuid), r2);
    FoldCons(SenderKeyStep, a1, Varint(2, m.chainId), r1);
    FoldCons(SenderKeyStep, a2, Varint(3, m.iteration), [Len(4, m.ciphertext)]);
    FoldOne(SenderKeyStep, a3, Len(4, m.ciphertext));
  }

  /// Reading what was written: the message if the signature verifies, whoever made it.
  lemma SenderKeyReads(s: Suite, m: SenderKeyMessage, signature: Signature, sender: Key)
    requires |m.ciphertext| < LIMIT
    ensures DeserializeSenderKey(s, SignedPart(m) + signature, sender)
         == if s.verify(sender, SignedPart(m), signature) then Ok(m) else Err(InvalidSignature)
  {
    hide Fold, Scan, FieldsBytes;
    var part := SignedPart(m);
    var data := part + signature;
    assert data[..|data| - 64] == part && data[|data| - 64..] == signature;
    assert data[1..|data| - 64] == FieldsBytes(SenderKeyFields(m));
    SenderKeyFold(m);
    Fits(SenderKeyFields(m));
    ScanEncoded(SenderKeyStep, SENDER_KEY_INIT, SenderKeyFields(m));
  }

  /// A message signed with the sender's key reads back under its public key.
  lemma SenderKeyRoundTrip(s: Suite, m: SenderKeyMessage, signing: Key, random: bytes)
    requires SignLaw(s) && |m.ciphertext| < LIMIT
    ensures DeserializeSenderKey(s, SerializeSenderKey(s, m, signing, random), s.pub(signing)) == Ok(m)
  {
    hide FieldsBytes, DeserializeSenderKey;
    SenderKeyReads(s, m, s.sign(signing, SignedPart(m), random), s.pub(signing));
  }

  // ---------------------------------------------------------------- SenderKeyDistributionMessage

  datatype DistributionMessage = DistributionMessage(uuid: Block, chainId: u32, iteration: u32, chainKey: Key, signingKey: Key)

  function DistributionFields(m: DistributionMessage): seq<Field> {
    [Len(1, m.uuid)] + [Varint(2, m.chainId)] + [Varint(3, m.iteration)] + [Len(4, m.chainKey)]
    + [Len(5, SerializePublic(m.signingKey))]
  }

  function SerializeDistribution(m: DistributionMessage): bytes {
    [GROUP_VERSION] + FieldsBytes(DistributionFields(m))
  }

  datatype DistributionLocals = DistributionLocals(
    uuid: Option<Block>, chainId: u32, iteration: u32, chainKey: Option<bytes>, signingKey: Option<bytes>)

  const DISTRIBUTION_INIT: DistributionLocals := DistributionLocals(None, 0, 0, None, None)

  function DistributionStep(a: DistributionLocals, f: Field): Result<DistributionLocals> {
    match f
    case Varint(n, v) =>
      if n != 2 && n != 3 then Ok(a)
      else if v >= TWO32 then Err(Panic)
      else Ok(if n == 2 then a.(chainId := v) else a.(iteration := v))
    case Len(n, d) =>
      Ok(if n == 1 && |d| == 16 then a.(uuid := Some(d))
         else if n == 4 then a.(chainKey := Some(d))
         else if n == 5 then a.(signingKey := Some(d))
         else a)
    case _ => Ok(a)
  }

  function DistributionResult(a: DistributionLocals): Result<DistributionMessage> {
    if a.uuid.None? || a.chainKey.None? || |a.chainKey.value| != 32 || a.signingKey.None? then Err(InvalidMessage)
    else
      var key :- DeserializePublic(a.signingKey.value);
      Ok(DistributionMessage(a.uuid.value, a.chainId, a.iteration, a.chainKey.value, key))
  }

  function DeserializeDistribution(data: bytes): Result<DistributionMessage> {
    if |data| < 1 then Err(InvalidMessage)
    else if data[0] / 16 < 3 then Err(LegacyCiphertextVersion)
    else
      var a :- Scan(DistributionStep, DISTRIBUTION_INIT, data[1..]);
      DistributionResult(a)
  }

  method SerializeDistributionMessage(m: DistributionMessage) returns (out: bytes)
    ensures out == SerializeDistribution(m)
  {
    hide FieldsBytes, AllEncodable, SerializePublic;
    var enc := new Encoder();
    enc.WriteBytesField(1, m.uuid);
    assert enc.fields == [Len(1, m.uuid)];
    enc.WriteVarintField(2, m.chainId);
    enc.WriteVarintField(3, m.iteration);
    enc.WriteBytesField(4, m.chainKey);
    enc.WriteBytesField(5, SerializePublic(m.signingKey));
    out := [GROUP_VERSION] + enc.buf;
  }

  method DeserializeDistributionMessage(data: bytes) returns (r: Result<DistributionMessage>)
    ensures r == DeserializeDistribution(data)
  {
    if |data| < 1 {
      return Err(InvalidMessage);
    }
    if data[0] / 16 < 3 {
      return Err(LegacyCiphertextVersion);
    }
    var a := ScanLoop(DistributionStep, DISTRIBUTION_INIT, data[1..]);
    if a.Err? {
      return Err(a.error);
    }
    r := DistributionResult(a.value);
  }

  lemma DistributionFold(m: DistributionMessage)
    ensures Fold(DistributionStep, DISTRIBUTION_INIT, DistributionFields(m))
         == Ok(DistributionLocals(Some(m.uuid), m.chainId, m.iteration, Some(m.chainKey), Some(SerializePublic(m.signingKey))))
  {
    hide Fold, SerializePublic;
    var key := Len(5, SerializePublic(m.signingKey));
    var r1 := [Len(4, m.chainKey)] + [key];
    var r2 := [Varint(3, m.iteration)] + r1;
    var r3 := [Varint(2, m.chainId)] + r2;
    assert DistributionFields(m) == [Len(1, m.uuid)] + r3;
    var a1 := DISTRIBUTION_INIT.(uuid := Some(m.uuid));
    var a2 := a1.(chainId := m.chainId);
    var a3 := a2.(iteration := m.iteration);
    var a4 := a3.(chainKey := Some(m.chainKey));
    FoldCons(DistributionStep, DISTRIBUTION_INIT, Len(1, m.uuid), r3);
    FoldCons(DistributionStep, a1, Varint(2, m.chainId), r2);
    FoldCons(DistributionStep, a2, Varint(3, m.iteration), r1);
    FoldCons(DistributionStep, a3, Len(4, m.chainKey), [key]);
    FoldOne(DistributionStep, a4, key);
  }

  lemma DistributionRoundTrip(m: DistributionMessage)
    ensures DeserializeDistribution(SerializeDistribution(m)) == Ok(m)
  {
    hide Fold, Scan, FieldsBytes;
    DistributionFold(m);
    Fits(DistributionFields(m));
    ScanEncoded(DistributionStep, DISTRIBUTION_INIT, DistributionFields(m));
    PublicRoundTrip(m.signingKey);
    assert SerializeDistribution(m)[1..] == FieldsBytes(DistributionFields(m));
  }

  // ---------------------------------------------------------------- SenderKeyStateRecord

  datatype SenderKeyRecord = SenderKeyRecord(
    version: u32, chainId: u32, chainKey: Key, iteration: u32, signingPublic: Key, signingPrivate: Key, uuid: Block)

  function ChainFields(r: SenderKeyRecord): seq<Field> {
    [Varint(1, r.iteration)] + [Len(2, r.chainKey)]
  }

  function SigningFields(r: SenderKeyRecord): seq<Field> {
    [Len(1, SerializePublic(r.signingPublic))] + [Len(2, r.signingPrivate)]
  }

  function RecordFields(r: SenderKeyRecord): seq<Field> {
    [Varint(5, r.version)] + [Varint(1, r.chainId)] + [Len(2, FieldsBytes(ChainFields(r)))]
    + [Len(3, FieldsBytes(SigningFields(r)))] + [Len(4, r.uuid)]
  }

  function SerializeRecord(r: SenderKeyRecord): bytes {
    FieldsBytes(RecordFields(r))
  }

  datatype RecordLocals = RecordLocals(
    version: u32, chainId: u32, chainKey: Key, iteration: u32, signingPublic: Option<bytes>, signingPrivate: Option<bytes>, uuid: Block)

  const RECORD_INIT: RecordLocals := RecordLocals(3, 0, Zeros(32), 0, None, None, Zeros(16))

  /// Chain keys and identifiers of another size than theirs are ignored.
  function ChainStep(a: RecordLocals, f: Field): Result<RecordLocals> {
    match f
    case Varint(n, v) =>
      if n != 1 then Ok(a) else if v >= TWO32 then Err(Panic) else Ok(a.(iteration := v))
    case Len(n, d) => Ok(if n == 2 && |d| == 32 then a.(chainKey := d) else a)
    case _ => Ok(a)
  }

  function SigningStep(a: RecordLocals, f: Field): Result<RecordLocals> {
    match f
    case Len(n, d) =>
      Ok(if n == 1 then a.(signingPublic := Some(d)) else if n == 2 then a.(signingPrivate := Some(d)) else a)
    case _ => Ok(a)
  }

  /// The nested messages update the same locals.
  function RecordStep(a: RecordLocals, f: Field): Result<RecordLocals> {
    match f
    case Varint(n, v) =>
      if n != 1 && n != 5 then Ok(a)
      else if v >= TWO32 then Err(Panic)
      else Ok(if n == 5 then a.(version := v) else a.(chainId := v))
    case Len(n, d) =>
      if n == 2 then Scan(ChainStep, a, d)
      else if n == 3 then Scan(SigningStep, a, d)
      else if n == 4 && |d| == 16 then Ok(a.(uuid := d))
      else Ok(a)
    case _ => Ok(a)
  }

  function RecordResult(a: RecordLocals): Result<SenderKeyRecord> {
    if a.signingPublic.None? then Err(InvalidArgument) else
    var pk :- DeserializePublic(a.signingPublic.value);
    if a.signingPrivate.None? then Err(InvalidArgument) else
    var sk :- DeserializePrivate(a.signingPrivate.value);
    Ok(SenderKeyRecord(a.version, a.chainId, a.chainKey, a.iteration, pk, sk, a.uuid))
  }

  function DeserializeRecord(data: bytes): Result<SenderKeyRecord> {
    var a :- Scan(RecordStep, RECORD_INIT, data);
    RecordResult(a)
  }

  method SerializeSenderKeyRecord(r: SenderKeyRecord) returns (out: bytes)
    ensures out == SerializeRecord(r)
  {
    hide FieldsBytes, AllEncodable, SerializePublic;
    var enc := new Encoder();
    enc.WriteVarintField(5, r.version);
    assert enc.fields == [Varint(5, r.version)];
    enc.WriteVarintField(1, r.chainId);
    var chain := new Encoder();
    chain.WriteVarintField(1, r.iteration);
    assert chain.fields == [Varint(1, r.iteration)];
    chain.WriteBytesField(2, r.chainKey);
    NestedSize(r);
    enc.WriteBytesField(2, chain.buf);
    var signing := new Encoder();
    signing.WriteBytesField(1, SerializePublic(r.signingPublic));
    assert signing.fields == [Len(1, SerializePublic(r.signingPublic))];
    signing.WriteBytesField(2, r.signingPrivate);
    enc.WriteBytesField(3, signing.buf);
    enc.WriteBytesField(4, r.uuid);
    out := enc.buf;
  }

  lemma NestedSize(r: SenderKeyRecord)
    ensures |FieldsBytes(ChainFields(r))| < 200 && |FieldsBytes(SigningFields(r))| < 200
    ensures AllSmall(ChainFields(r)) && AllSmall(SigningFields(r)) && AllSmall(RecordFields(r))
  {
    hide FieldsBytes;
    FieldsSize(ChainFields(r));
    FieldsSize(SigningFields(r));
    AtMost(ChainFields(r), 2, 33);
    AtMost(SigningFields(r), 2, 33);
  }

  method DeserializeSenderKeyRecord(data: bytes) returns (r: Result<SenderKeyRecord>)
    ensures r == DeserializeRecord(data)
  {
    var a := ScanLoop(RecordStep, RECORD_INIT, data);
    if a.Err? {
      return Err(a.error);
    }
    r := RecordResult(a.value);
  }

  lemma ChainScan(r: SenderKeyRecord, a: RecordLocals)
    ensures Scan(ChainStep, a, FieldsBytes(ChainFields(r))) == Ok(a.(iteration := r.iteration, chainKey := r.chainKey))
  {
    hide Fold, Scan, FieldsBytes;
    NestedSize(r);
    Fits(ChainFields(r));
    ScanEncoded(ChainStep, a, ChainFields(r));
    FoldCons(ChainStep, a, Varint(1, r.iteration), [Len(2, r.chainKey)]);
    FoldOne(ChainStep, a.(iteration := r.iteration), Len(2, r.chainKey));
  }

  lemma SigningScan(r: SenderKeyRecord, a: RecordLocals)
    ensures Scan(SigningStep, a, FieldsBytes(SigningFields(r)))
         == Ok(a.(signingPublic := Some(SerializePublic(r.signingPublic)), signingPrivate := Some(r.signingPrivate)))
  {
    hide Fold, Scan, FieldsBytes, SerializePublic;
    NestedSize(r);
    Fits(SigningFields(r));
    ScanEncoded(SigningStep, a, SigningFields(r));
    var pk := Len(1, SerializePublic(r.signingPublic));
    FoldCons(SigningStep, a, pk, [Len(2, r.signingPrivate)]);
    FoldOne(SigningStep, a.(signingPublic := Some(pk.data)), Len(2, r.signingPrivate));
  }

  /// What parsing leaves in the locals.
  function RecordRead(r: SenderKeyRecord): RecordLocals {
    RecordLocals(r.version, r.chainId, r.chainKey, r.iteration, Some(SerializePublic(r.signingPublic)),
                 Some(r.signingPrivate), r.uuid)
  }

  lemma RecordFold(r: SenderKeyRecord)
    ensures Fold(RecordStep, RECORD_INIT, RecordFields(r)) == Ok(RecordRead(r))
  {
    hide Fold, Scan, FieldsBytes, SerializePublic;
    var chain, signing := Len(2, FieldsBytes(ChainFields(r))), Len(3, FieldsBytes(SigningFields(r)));
    var r1 := [signing] + [Len(4, r.uuid)];
    var r2 := [chain] + r1;
    var r3 := [Varint(1, r.chainId)] + r2;
    assert RecordFields(r) == [Varint(5, r.version)] + r3;
    var a1 := RECORD_INIT.(version := r.version);
    var a2 := a1.(chainId := r.chainId);
    var a3 := a2.(iteration := r.iteration, chainKey := r.chainKey);
    var a4 := a3.(signingPublic := Some(SerializePublic(r.signingPublic)), signingPrivate := Some(r.signingPrivate));
    FoldCons(RecordStep, RECORD_INIT, Varint(5, r.version), r3);
    FoldCons(RecordStep, a1, Varint(1, r.chainId), r2);
    ChainScan(r, a2);
    FoldCons(RecordStep, a2, chain, r1);
    SigningScan(r, a3);
    FoldCons(RecordStep, a3, signing, [Len(4, r.uuid)]);
    FoldOne(RecordStep, a4, Len(4, r.uuid));
  }

  /// The stored record is read back as it was written.
  lemma RecordRoundTrip(r: SenderKeyRecord)
    ensures DeserializeRecord(SerializeRecord(r)) == Ok(r)
  {
    hide Fold, Scan, FieldsBytes, SerializePublic;
    NestedSize(r);
    RecordFold(r);
    Fits(RecordFields(r));
    ScanEncoded(RecordStep, RECORD_INIT, RecordFields(r));
    PublicRoundTrip(r.signingPublic);
    PrivateRoundTrip(r.signingPrivate);
  }
}
