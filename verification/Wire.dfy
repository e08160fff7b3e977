/// The bytes of the messages on the wire, field by field: src/messages and src/proto.zig together.
module Wire {
  import opened Bytes
  import opened Proto
  import opened Messages
  import opened Session

  /// A number, after its tag.
  function NumberAt(tag: byte, v: nat): bytes {
    [tag] + VarintBytes(v)
  }

  /// A byte string, after its tag and its length.
  function BytesAt(tag: byte, data: bytes): bytes {
    [tag] + VarintBytes(|data|) + data
  }

  /// A public key takes 33 bytes, of which the first is 5.
  function KeyAt(tag: byte, key: Key): bytes {
    [tag, 33, 5] + key
  }

  lemma SmallVarint(v: nat)
    requires v < 128
    ensures VarintBytes(v) == [v as byte]
  {
  }

  lemma LenIs(number: nat, data: bytes)
    ensures FieldBytes(Len(number, data)) == VarintBytes(8 * number + 2) + VarintBytes(|data|) + data
  {
    hide VarintBytes, LittleEndian;
  }

  lemma SameStart(x: bytes, y: bytes, a: bytes, b: bytes)
    requires x == y
    ensures x + a + b == y + a + b
  {
  }

  lemma One(f: Field)
    ensures FieldsBytes([f]) == FieldBytes(f)
  {
    hide FieldBytes;
    assert [f][1..] == [];
    assert FieldsBytes([]) == [];
  }

  lemma OneNumber(number: nat, v: nat)
    requires 0 < number < 15
    ensures FieldsBytes([Varint(number, v)]) == NumberAt((8 * number) as byte, v)
  {
    hide VarintBytes, FieldsBytes;
    One(Varint(number, v));
    SmallVarint(8 * number);
  }

  lemma OneBytes(number: nat, data: bytes)
    requires 0 < number < 15
    ensures FieldsBytes([Len(number, data)]) == BytesAt((8 * number + 2) as byte, data)
  {
    hide VarintBytes, FieldsBytes, FieldBytes;
    One(Len(number, data));
    LenIs(number, data);
    SmallVarint(8 * number + 2);
    SameStart(VarintBytes(8 * number + 2), [(8 * number + 2) as byte], VarintBytes(|data|), data);
  }

  lemma OneKey(number: nat, key: Key)
    requires 0 < number < 15
    ensures FieldsBytes([Len(number, [5] + key)]) == KeyAt((8 * number + 2) as byte, key)
  {
    hide VarintBytes, FieldsBytes;
    OneBytes(number, [5] + key);
    SmallVarint(33);
    var tag := (8 * number + 2) as byte;
    assert [tag] + [33] + ([5] + key) == [tag, 33, 5] + key;
  }

  lemma OptNumber(number: nat, v: Option<u32>)
    requires 0 < number < 15
    ensures FieldsBytes(OptVarint(number, v)) == if v.Some? then NumberAt((8 * number) as byte, v.value) else []
  {
    hide NumberAt;
    if v.Some? {
      hide FieldsBytes;
      OneNumber(number, v.value);
    }
  }

  lemma OptBytes(number: nat, data: Option<bytes>)
    requires 0 < number < 15
    ensures FieldsBytes(OptLen(number, data)) == if data.Some? then BytesAt((8 * number + 2) as byte, data.value) else []
  {
    hide BytesAt;
    if data.Some? {
      hide FieldsBytes;
      OneBytes(number, data.value);
    }
  }

  /// The bytes of a message before its MAC.
  lemma SignalOnWire(m: SignalMessage)
    ensures SignalPart(m)
         == [m.version % 16 * 16 + 4]
            + (KeyAt(0x0a, m.ratchet) + NumberAt(0x10, m.counter) + NumberAt(0x18, m.previousCounter) + BytesAt(0x22, m.ciphertext)
               + (if m.pq.Some? then BytesAt(0x2a, m.pq.value) else []))
  {
    hide FieldsBytes, KeyAt, NumberAt, BytesAt, OptLen;
    var f1, f2, f3, f4 := [Len(1, [5] + m.ratchet)], [Varint(2, m.counter)], [Varint(3, m.previousCounter)], [Len(4, m.ciphertext)];
    FieldsBytesConcat(f1 + f2 + f3 + f4, OptLen(5, m.pq));
    FieldsBytesConcat(f1 + f2 + f3, f4);
    FieldsBytesConcat(f1 + f2, f3);
    FieldsBytesConcat(f1, f2);
    OneKey(1, m.ratchet);
    OneNumber(2, m.counter);
    OneNumber(3, m.previousCounter);
    OneBytes(4, m.ciphertext);
    OptBytes(5, m.pq);
  }

  /// A pre-key message.
  lemma PreKeyOnWire(m: PreKeySignalMessage)
    ensures SerializePreKey(m)
         == [m.version % 16 * 16 + 4]
            + (NumberAt(0x28, m.registrationId)
               + (if m.preKeyId.Some? then NumberAt(0x08, m.preKeyId.value) else [])
               + NumberAt(0x30, m.signedPreKeyId)
               + (if m.kyberPreKeyId.Some? then NumberAt(0x38, m.kyberPreKeyId.value) else [])
               + (if m.kyberCiphertext.Some? then BytesAt(0x42, m.kyberCiphertext.value) else [])
               + KeyAt(0x12, m.baseKey) + KeyAt(0x1a, m.identityKey) + BytesAt(0x22, m.message))
  {
    hide FieldsBytes, KeyAt, NumberAt, BytesAt, OptLen, OptVarint;
    var p1, p2 := [Varint(5, m.registrationId)], OptVarint(1, m.preKeyId);
    var p3, p4 := [Varint(6, m.signedPreKeyId)], OptVarint(7, m.kyberPreKeyId);
    var p5 := OptLen(8, m.kyberCiphertext);
    var p6, p7 := [Len(2, [5] + m.baseKey)], [Len(3, [5] + m.identityKey)];
    FieldsBytesConcat(p1 + p2 + p3 + p4 + p5 + p6 + p7, [Len(4, m.message)]);
    FieldsBytesConcat(p1 + p2 + p3 + p4 + p5 + p6, p7);
    FieldsBytesConcat(p1 + p2 + p3 + p4 + p5, p6);
    FieldsBytesConcat(p1 + p2 + p3 + p4, p5);
    FieldsBytesConcat(p1 + p2 + p3, p4);
    FieldsBytesConcat(p1 + p2, p3);
    FieldsBytesConcat(p1, p2);
    OneNumber(5, m.registrationId);
    OptNumber(1, m.preKeyId);
    OneNumber(6, m.signedPreKeyId);
    OptNumber(7, m.kyberPreKeyId);
    OptBytes(8, m.kyberCiphertext);
    OneKey(2, m.baseKey);
    OneKey(3, m.identityKey);
    OneBytes(4, m.message);
  }

  /// A group message, before its signature.
  lemma SenderKeyOnWire(m: SenderKeyMessage)
    ensures SignedPart(m)
         == [0x33] + (BytesAt(0x0a, m.uuid) + NumberAt(0x10, m.chainId) + NumberAt(0x18, m.iteration) + BytesAt(0x22, m.ciphertext))
  {
    hide FieldsBytes, NumberAt, BytesAt;
    var f1, f2, f3 := [Len(1, m.uuid)], [Varint(2, m.chainId)], [Varint(3, m.iteration)];
    FieldsBytesConcat(f1 + f2 + f3, [Len(4, m.ciphertext)]);
    FieldsBytesConcat(f1 + f2, f3);
    FieldsBytesConcat(f1, f2);
    OneBytes(1, m.uuid);
    OneNumber(2, m.chainId);
    OneNumber(3, m.iteration);
    OneBytes(4, m.ciphertext);
  }

  /// A distribution message.
  lemma DistributionOnWire(m: DistributionMessage)
    ensures SerializeDistribution(m)
         == [0x33] + (BytesAt(0x0a, m.uuid) + NumberAt(0x10, m.chainId) + NumberAt(0x18, m.iteration) + BytesAt(0x22, m.chainKey)
                      + KeyAt(0x2a, m.signingKey))
  {
    hide FieldsBytes, NumberAt, BytesAt, KeyAt;
    var f1, f2, f3, f4 := [Len(1, m.uuid)], [Varint(2, m.chainId)], [Varint(3, m.iteration)], [Len(4, m.chainKey)];
    FieldsBytesConcat(f1 + f2 + f3 + f4, [Len(5, [5] + m.signingKey)]);
    FieldsBytesConcat(f1 + f2 + f3, f4);
    FieldsBytesConcat(f1 + f2, f3);
    FieldsBytesConcat(f1, f2);
    OneBytes(1, m.uuid);
    OneNumber(2, m.chainId);
    OneNumber(3, m.iteration);
    OneBytes(4, m.chainKey);
    OneKey(5, m.signingKey);
  }
}
