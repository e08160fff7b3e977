/// Sealed sender, version 1, and its certificates (src/sealed_sender.zig).
module SealedSenderV1 {
  import opened Bytes
  import opened Crypto
  import opened Kdf
  import opened Curve
  import opened Proto
  import opened Messages
  import Cbc

  // ---------------------------------------------------------------- signed envelopes

  /// Both certificates travel as { 1: certificate, 2: signature }.
  function EnvelopeFields(certificate: bytes, signature: Signature): seq<Field> {
    [Len(1, certificate)] + [Len(2, signature)]
  }

  datatype EnvelopeLocals = EnvelopeLocals(certificate: Option<bytes>, signature: Option<bytes>)

  function EnvelopeStep(a: EnvelopeLocals, f: Field): Result<EnvelopeLocals> {
    match f
    case Len(n, d) => Ok(if n == 1 then a.(certificate := Some(d)) else if n == 2 then a.(signature := Some(d)) else a)
    case _ => Ok(a)
  }

  datatype Envelope = Envelope(certificate: bytes, signature: Signature)

  function EnvelopeResult(a: EnvelopeLocals): Result<Envelope> {
    if a.certificate.None? || a.signature.None? then Err(InvalidArgument)
    else if |a.signature.value| != 64 then Err(InvalidSignature)
    else Ok(Envelope(a.certificate.value, a.signature.value))
  }

  function OpenEnvelope(data: bytes): Result<Envelope> {
    var a :- Scan(EnvelopeStep, EnvelopeLocals(None, None), data);
    EnvelopeResult(a)
  }

  function SealEnvelope(certificate: bytes, signature: Signature): bytes {
    FieldsBytes(EnvelopeFields(certificate, signature))
  }

  method WriteEnvelope(certificate: bytes, signature: Signature) returns (out: bytes)
    requires |certificate| < TWO64
    ensures out == SealEnvelope(certificate, signature)
  {
    hide FieldsBytes, AllEncodable;
    var enc := new Encoder();
    enc.WriteBytesField(1, certificate);
    assert enc.fields == [Len(1, certificate)];
    enc.WriteBytesField(2, signature);
    out := enc.buf;
  }

  method ReadEnvelope(data: bytes) returns (r: Result<Envelope>)
    ensures r == OpenEnvelope(data)
  {
    var a := ScanLoop(EnvelopeStep, EnvelopeLocals(None, None), data);
    if a.Err? {
      return Err(a.error);
    }
    r := EnvelopeResult(a.value);
  }

  lemma EnvelopeRoundTrip(certificate: bytes, signature: Signature)
    requires |SealEnvelope(certificate, signature)| < TWO64
    ensures OpenEnvelope(SealEnvelope(certificate, signature)) == Ok(Envelope(certificate, signature))
    ensures |certificate| < TWO64
  {
    hide Fold, Scan, FieldsBytes;
    var fs := EnvelopeFields(certificate, signature);
    DataFits(fs);
    assert Encodable(fs[0]);
    var a := EnvelopeLocals(None, None);
    ScanWritten(EnvelopeStep, a, fs);
    FoldCons(EnvelopeStep, a, Len(1, certificate), [Len(2, signature)]);
    FoldOne(EnvelopeStep, a.(certificate := Some(certificate)), Len(2, signature));
  }

  // ---------------------------------------------------------------- ServerCertificate

  datatype ServerCertificate = ServerCertificate(keyId: u32, key: Key, certificate: bytes, signature: Signature)

  function ServerFields(keyId: u32, key: Key): seq<Field> {
    [Varint(1, keyId)] + [Len(2, SerializePublic(key))]
  }

  function NewServer(s: Suite, keyId: u32, key: Key, trustRoot: Key, random: bytes): ServerCertificate {
    var certificate := FieldsBytes(ServerFields(keyId, key));
    ServerCertificate(keyId, key, certificate, s.sign(trustRoot, certificate, random))
  }

  function ValidateServer(s: Suite, c: ServerCertificate, trustRoot: Key): bool {
    s.verify(trustRoot, c.certificate, c.signature)
  }

  function SerializeServer(c: ServerCertificate): bytes {
    SealEnvelope(c.certificate, c.signature)
  }

  datatype ServerLocals = ServerLocals(keyId: u32, key: Option<bytes>)

  function ServerStep(a: ServerLocals, f: Field): Result<ServerLocals> {
    match f
    case Varint(n, v) => if n != 1 then Ok(a) else if v >= TWO32 then Err(Panic) else Ok(a.(keyId := v))
    case Len(n, d) => Ok(if n == 2 then a.(key := Some(d)) else a)
    case _ => Ok(a)
  }

  /// The fields of a server certificate, from its signed bytes.
  function ParseServer(certificate: bytes): Result<(u32, Key)> {
    var a :- Scan(ServerStep, ServerLocals(0, None), certificate);
    if a.key.None? then Err(InvalidArgument)
    else
      var key :- DeserializePublic(a.key.value);
      Ok((a.keyId, key))
  }

  function DeserializeServer(data: bytes): Result<ServerCertificate> {
    var e :- OpenEnvelope(data);
    var p :- ParseServer(e.certificate);
    Ok(ServerCertificate(p.0, p.1, e.certificate, e.signature))
  }

  method MakeServerCertificate(s: Suite, keyId: u32, key: Key, trustRoot: Key, random: bytes) returns (c: ServerCertificate)
    ensures c == NewServer(s, keyId, key, trustRoot, random)
  {
    hide FieldsBytes, AllEncodable, SerializePublic;
    var enc := new Encoder();
    enc.WriteVarintField(1, keyId);
    assert enc.fields == [Varint(1, keyId)];
    enc.WriteBytesField(2, SerializePublic(key));
    c := ServerCertificate(keyId, key, enc.buf, s.sign(trustRoot, enc.buf, random));
  }

  method DeserializeServerCertificate(data: bytes) returns (r: Result<ServerCertificate>)
    ensures r == DeserializeServer(data)
  {
    var e := ReadEnvelope(data);
    if e.Err? {
      return Err(e.error);
    }
    var a := ScanLoop(ServerStep, ServerLocals(0, None), e.value.certificate);
    if a.Err? {
      return Err(a.error);
    }
    if a.value.key.None? {
      return Err(InvalidArgument);
    }
    var key := DeserializePublic(a.value.key.value);
    if key.Err? {
      return Err(key.error);
    }
    r := Ok(ServerCertificate(a.value.keyId, key.value, e.value.certificate, e.value.signature));
  }

  /// The fields of a certificate are those its signed bytes say.
  predicate ServerBuilt(c: ServerCertificate) {
    ParseServer(c.certificate) == Ok((c.keyId, c.key))
  }

  lemma NewServerBuilt(s: Suite, keyId: u32, key: Key, trustRoot: Key, random: bytes)
    ensures ServerBuilt(NewServer(s, keyId, key, trustRoot, random))
    ensures |NewServer(s, keyId, key, trustRoot, random).certificate| <= 106
  {
    hide Fold, Scan, FieldsBytes;
    var fs := ServerFields(keyId, key);
    var a := ServerLocals(0, None);
    FieldsSize(fs);
    AtMost(fs, 2, 33);
    ScanWritten(ServerStep, a, fs);
    FoldCons(ServerStep, a, Varint(1, keyId), [Len(2, SerializePublic(key))]);
    FoldOne(ServerStep, a.(keyId := keyId), Len(2, SerializePublic(key)));
    PublicRoundTrip(key);
  }

  /// A server certificate reads back as itself exactly when its fields are those it signs.
  lemma ServerRoundTrip(c: ServerCertificate)
    requires |SerializeServer(c)| < TWO64
    ensures DeserializeServer(SerializeServer(c)) == Ok(c) <==> ServerBuilt(c)
  {
    hide ParseServer, OpenEnvelope, SealEnvelope;
    EnvelopeRoundTrip(c.certificate, c.signature);
  }

  // ---------------------------------------------------------------- SenderCertificate

  datatype SenderCertificate = SenderCertificate(
    uuid: bytes, e164: Option<bytes>, deviceId: u32, key: Key, expiration: u64, signer: ServerCertificate,
    certificate: bytes, signature: Signature)

  function SenderFields(uuid: bytes, e164: Option<bytes>, deviceId: u32, key: Key, expiration: u64, signer: ServerCertificate): seq<Field> {
    [Len(6, uuid)] + (OptLen(1, e164) + ([Varint(2, deviceId)] + ([Fixed64(3, expiration)]
    + ([Len(4, SerializePublic(key))] + [Len(5, SerializeServer(signer))]))))
  }

  function NewSender(s: Suite, uuid: bytes, e164: Option<bytes>, deviceId: u32, key: Key, expiration: u64,
                     signer: ServerCertificate, serverKey: Key, random: bytes): SenderCertificate
  {
    var certificate := FieldsBytes(SenderFields(uuid, e164, deviceId, key, expiration, signer));
    SenderCertificate(uuid, e164, deviceId, key, expiration, signer, certificate, s.sign(serverKey, certificate, random))
  }

  function ValidateSender(s: Suite, c: SenderCertificate, trustRoot: Key, now: nat): bool {
    now <= c.expiration && ValidateServer(s, c.signer, trustRoot) && s.verify(c.signer.key, c.certificate, c.signature)
  }

  function SerializeSender(c: SenderCertificate): bytes {
    SealEnvelope(c.certificate, c.signature)
  }

  datatype SenderLocals = SenderLocals(
    uuid: Option<bytes>, e164: Option<bytes>, deviceId: u32, expiration: u64, key: Option<bytes>, signer: Option<bytes>)

  const SENDER_INIT: SenderLocals := SenderLocals(None, None, 1, 0, None, None)

  function SenderStep(a: SenderLocals, f: Field): Result<SenderLocals> {
    match f
    case Varint(n, v) => if n != 2 then Ok(a) else if v >= TWO32 then Err(Panic) else Ok(a.(deviceId := v))
    case Fixed64(n, v) => if n != 3 then Ok(a) else if v >= TWO64 then Err(Panic) else Ok(a.(expiration := v))
    case Len(n, d) =>
      Ok(if n == 1 then a.(e164 := Some(d))
         else if n == 4 then a.(key := Some(d))
         else if n == 5 then a.(signer := Some(d))
         else if n == 6 then a.(uuid := Some(d))
         else a)
    case _ => Ok(a)
  }

  function SenderResult(e: Envelope, a: SenderLocals): Result<SenderCertificate> {
    if a.uuid.None? || a.key.None? then Err(InvalidArgument) else
    var key :- DeserializePublic(a.key.value);
    if a.signer.None? then Err(InvalidArgument) else
    var signer :- DeserializeServer(a.signer.value);
    Ok(SenderCertificate(a.uuid.value, a.e164, a.deviceId, key, a.expiration, signer, e.certificate, e.signature))
  }

  function DeserializeSender(data: bytes): Result<SenderCertificate> {
    var e :- OpenEnvelope(data);
    var a :- Scan(SenderStep, SENDER_INIT, e.certificate);
    SenderResult(e, a)
  }

  method MakeSenderCertificate(s: Suite, uuid: bytes, e164: Option<bytes>, deviceId: u32, key: Key, expiration: u64,
                               signer: ServerCertificate, serverKey: Key, random: bytes) returns (c: SenderCertificate)
    requires |FieldsBytes(SenderFields(uuid, e164, deviceId, key, expiration, signer))| < TWO64
    ensures c == NewSender(s, uuid, e164, deviceId, key, expiration, signer, serverKey, random)
  {
    hide FieldsBytes, AllEncodable, SerializePublic, OptLen, SealEnvelope;
    SenderParts(uuid, e164, deviceId, key, expiration, signer);
    var enc := new Encoder();
    enc.WriteBytesField(6, uuid);
    assert enc.fields == [Len(6, uuid)];
    enc.WriteOptBytes(1, e164);
    enc.WriteVarintField(2, deviceId);
    enc.WriteFixed64Field(3, expiration);
    enc.WriteBytesField(4, SerializePublic(key));
    var sc := WriteEnvelope(signer.certificate, signer.signature);
    enc.WriteBytesField(5, sc);
    assert enc.fields == SenderFields(uuid, e164, deviceId, key, expiration, signer);
    c := SenderCertificate(uuid, e164, deviceId, key, expiration, signer, enc.buf, s.sign(serverKey, enc.buf, random));
  }

  lemma SenderInRange(uuid: bytes, e164: Option<bytes>, deviceId: u32, key: Key, expiration: u64, signer: ServerCertificate)
    ensures AllInRange(SenderFields(uuid, e164, deviceId, key, expiration, signer))
  {
    hide SealEnvelope, SerializePublic;
  }

  lemma SenderParts(uuid: bytes, e164: Option<bytes>, deviceId: u32, key: Key, expiration: u64, signer: ServerCertificate)
    requires |FieldsBytes(SenderFields(uuid, e164, deviceId, key, expiration, signer))| < TWO64
    ensures |uuid| < TWO64 && (e164.Some? ==> |e164.value| < TWO64)
    ensures |SerializeServer(signer)| < TWO64 && |signer.certificate| < TWO64
  {
    hide FieldsBytes, SerializePublic, SealEnvelope;
    var fs := SenderFields(uuid, e164, deviceId, key, expiration, signer);
    SenderInRange(uuid, e164, deviceId, key, expiration, signer);
    DataFits(fs);
    assert fs[0] == Len(6, uuid) && Encodable(fs[0]);
    if e164.Some? {
      assert fs[1] == Len(1, e164.value) && Encodable(fs[1]);
    }
    assert fs[|fs| - 1] == Len(5, SerializeServer(signer)) && Encodable(fs[|fs| - 1]);
    EnvelopeRoundTrip(signer.certificate, signer.signature);
  }

  method DeserializeSenderCertificate(data: bytes) returns (r: Result<SenderCertificate>)
    ensures r == DeserializeSender(data)
  {
    hide DeserializeServer, OpenEnvelope;
    var e := ReadEnvelope(data);
    if e.Err? {
      return Err(e.error);
    }
    var a := ScanLoop(SenderStep, SENDER_INIT, e.value.certificate);
    if a.Err? {
      return Err(a.error);
    }
    if a.value.uuid.None? || a.value.key.None? {
      return Err(InvalidArgument);
    }
    var key := DeserializePublic(a.value.key.value);
    if key.Err? {
      return Err(key.error);
    }
    if a.value.signer.None? {
      return Err(InvalidArgument);
    }
    var signer := DeserializeServerCertificate(a.value.signer.value);
    if signer.Err? {
      return Err(signer.error);
    }
    r := Ok(SenderCertificate(a.value.uuid.value, a.value.e164, a.value.deviceId, key.value, a.value.expiration,
                              signer.value, e.value.certificate, e.value.signature));
  }

  /// The certificate that its fields encode to: one made by NewSender, with a signer made by NewServer.
  predicate SenderBuilt(c: SenderCertificate) {
    && c.certificate == FieldsBytes(SenderFields(c.uuid, c.e164, c.deviceId, c.key, c.expiration, c.signer))
    && ServerBuilt(c.signer)
  }

  lemma SenderScan(c: SenderCertificate)
    requires SenderBuilt(c) && |c.certificate| < TWO64
    ensures Scan(SenderStep, SENDER_INIT, c.certificate)
         == Ok(SenderLocals(Some(c.uuid), c.e164, c.deviceId, c.expiration, Some(SerializePublic(c.key)), Some(SerializeServer(c.signer))))
  {
    hide Fold, Scan, FieldsBytes, SerializePublic, SealEnvelope, OptLen, ServerBuilt;
    var fs := SenderFields(c.uuid, c.e164, c.deviceId, c.key, c.expiration, c.signer);
    SenderInRange(c.uuid, c.e164, c.deviceId, c.key, c.expiration, c.signer);
    ScanWritten(SenderStep, SENDER_INIT, fs);
    var pk, sc := Len(4, SerializePublic(c.key)), Len(5, SerializeServer(c.signer));
    var r1 := [pk] + [sc];
    var r2 := [Fixed64(3, c.expiration)] + r1;
    var r3 := [Varint(2, c.deviceId)] + r2;
    var a1 := SENDER_INIT.(uuid := Some(c.uuid));
    var a2 := a1.(e164 := c.e164);
    var a3 := a2.(deviceId := c.deviceId);
    var a4 := a3.(expiration := c.expiration);
    FoldCons(SenderStep, SENDER_INIT, Len(6, c.uuid), OptLen(1, c.e164) + r3);
    FoldOptLen(SenderStep, a1, 1, c.e164, a2, r3);
    FoldCons(SenderStep, a2, Varint(2, c.deviceId), r2);
    FoldCons(SenderStep, a3, Fixed64(3, c.expiration), r1);
    FoldCons(SenderStep, a4, pk, [sc]);
    FoldOne(SenderStep, a4.(key := Some(pk.data)), sc);
  }

  lemma SenderRoundTrip(c: SenderCertificate)
    requires SenderBuilt(c) && |SerializeSender(c)| < TWO64
    ensures DeserializeSender(SerializeSender(c)) == Ok(c)
  {
    hide Scan, FieldsBytes, SerializePublic, SealEnvelope, OpenEnvelope, ServerBuilt, DeserializeServer;
    EnvelopeRoundTrip(c.certificate, c.signature);
    SenderScan(c);
    PublicRoundTrip(c.key);
    SenderParts(c.uuid, c.e164, c.deviceId, c.key, c.expiration, c.signer);
    ServerRoundTrip(c.signer);
  }

  /// A chain of genuine certificates validates until it expires, before and after the wire.
  lemma GenuineValidates(s: Suite, keyId: u32, serverKey: Key, trustRoot: Key, r1: bytes, uuid: bytes, e164: Option<bytes>,
                         deviceId: u32, key: Key, expiration: u64, r2: bytes, now: nat)
    requires SignLaw(s)
    ensures var signer := NewServer(s, keyId, s.pub(serverKey), trustRoot, r1);
      var c := NewSender(s, uuid, e164, deviceId, key, expiration, signer, serverKey, r2);
      && SenderBuilt(c)
      && (ValidateSender(s, c, s.pub(trustRoot), now) <==> now <= expiration)
      && (|SerializeSender(c)| < TWO64 ==> DeserializeSender(SerializeSender(c)) == Ok(c))
  {
    hide FieldsBytes, SerializePublic, SealEnvelope, OpenEnvelope, DeserializeServer, DeserializeSender, ParseServer;
    NewServerBuilt(s, keyId, s.pub(serverKey), trustRoot, r1);
    var signer := NewServer(s, keyId, s.pub(serverKey), trustRoot, r1);
    var c := NewSender(s, uuid, e164, deviceId, key, expiration, signer, serverKey, r2);
    if |SerializeSender(c)| < TWO64 {
      SenderRoundTrip(c);
    }
  }

  /// Which certificates validate, for every certificate: those that have not expired, whose signer the
  /// trust root signed, and which the signer's key signed.
  lemma ValidatesIff(s: Suite, c: SenderCertificate, trustRoot: Key, now: nat)
    ensures ValidateSender(s, c, trustRoot, now) <==>
      && now <= c.expiration
      && s.verify(trustRoot, c.signer.certificate, c.signer.signature)
      && s.verify(c.signer.key, c.certificate, c.signature)
  {
  }

  /// The fields of a certificate are the ones that its signed bytes say, and so are its signer's.
  predicate Covered(c: SenderCertificate) {
    var a := Scan(SenderStep, SENDER_INIT, c.certificate);
    && a.Ok? && a.value.uuid == Some(c.uuid) && a.value.e164 == c.e164
    && a.value.deviceId == c.deviceId && a.value.expiration == c.expiration
    && a.value.key.Some? && DeserializePublic(a.value.key.value) == Ok(c.key)
    && a.value.signer.Some? && DeserializeServer(a.value.signer.value) == Ok(c.signer)
    && ParseServer(c.signer.certificate) == Ok((c.signer.keyId, c.signer.key))
  }

  /// Whatever was read and validates, all of it is signed: its fields under the signer's key, the
  /// signer's key under the trust root.
  lemma AcceptedIsSigned(s: Suite, data: bytes, trustRoot: Key, now: nat)
    requires DeserializeSender(data).Ok? && ValidateSender(s, DeserializeSender(data).value, trustRoot, now)
    ensures var c := DeserializeSender(data).value;
      && Covered(c) && now <= c.expiration
      && s.verify(trustRoot, c.signer.certificate, c.signer.signature)
      && s.verify(c.signer.key, c.certificate, c.signature)
  {
    hide Scan, OpenEnvelope, SenderStep;
    var c := DeserializeSender(data).value;
    ValidatesIff(s, c, trustRoot, now);
    var a := Scan(SenderStep, SENDER_INIT, c.certificate).value;
    SignerCovered(a.signer.value);
  }

  lemma SignerCovered(data: bytes)
    requires DeserializeServer(data).Ok?
    ensures var c := DeserializeServer(data).value; ParseServer(c.certificate) == Ok((c.keyId, c.key))
  {
    hide OpenEnvelope, Scan;
  }

  // ---------------------------------------------------------------- UnidentifiedSenderMessageContent

  datatype ContentType = PreKeyContent | MessageContent | SenderKeyContent | PlaintextContent
  datatype ContentHint = DefaultHint | Resendable | Implicit

  function TypeCode(t: ContentType): u32 {
    match t
    case PreKeyContent => 1
    case MessageContent => 2
    case SenderKeyContent => 7
    case PlaintextContent => 8
  }

  /// @enumFromInt of the low byte: other values trap.
  function TypeOf(v: nat): Result<ContentType> {
    var b := v % 256;
    if b == 1 then Ok(PreKeyContent)
    else if b == 2 then Ok(MessageContent)
    else if b == 7 then Ok(SenderKeyContent)
    else if b == 8 then Ok(PlaintextContent)
    else Err(Panic)
  }

  function HintCode(h: ContentHint): u32 {
    match h case DefaultHint => 0 case Resendable => 1 case Implicit => 2
  }

  function HintOf(v: nat): Result<ContentHint> {
    var b := v % 256;
    if b == 0 then Ok(DefaultHint) else if b == 1 then Ok(Resendable) else if b == 2 then Ok(Implicit) else Err(Panic)
  }

  datatype Content = Content(kind: ContentType, sender: SenderCertificate, hint: ContentHint, group: Option<bytes>, contents: bytes)

  /// The default hint is not written.
  function ContentFields(u: Content): seq<Field> {
    [Varint(1, TypeCode(u.kind))] + ([Len(2, SerializeSender(u.sender))] + ([Len(3, u.contents)]
    + (OptVarint(4, if u.hint.DefaultHint? then None else Some(HintCode(u.hint))) + (OptLen(5, u.group) + []))))
  }

  function SerializeContent(u: Content): bytes {
    FieldsBytes(ContentFields(u))
  }

  datatype ContentLocals = ContentLocals(kind: ContentType, sender: Option<bytes>, contents: Option<bytes>, hint: ContentHint, group: Option<bytes>)

  const CONTENT_INIT: ContentLocals := ContentLocals(MessageContent, None, None, DefaultHint, None)

  function ContentStep(a: ContentLocals, f: Field): Result<ContentLocals> {
    match f
    case Varint(n, v) =>
      if n == 1 then
        var t :- TypeOf(v);
        Ok(a.(kind := t))
      else if n == 4 then
        var h :- HintOf(v);
        Ok(a.(hint := h))
      else Ok(a)
    case Len(n, d) =>
      Ok(if n == 2 then a.(sender := Some(d))
         else if n == 3 then a.(contents := Some(d))
         else if n == 5 then a.(group := Some(d))
         else a)
    case _ => Ok(a)
  }

  function ContentResult(a: ContentLocals): Result<Content> {
    if a.sender.None? then Err(InvalidArgument) else
    var sender :- DeserializeSender(a.sender.value);
    if a.contents.None? then Err(InvalidArgument) else
    Ok(Content(a.kind, sender, a.hint, a.group, a.contents.value))
  }

  function DeserializeContent(data: bytes): Result<Content> {
    var a :- Scan(ContentStep, CONTENT_INIT, data);
    ContentResult(a)
  }

  lemma ContentInRange(u: Content)
    ensures AllInRange(ContentFields(u))
  {
    hide SealEnvelope;
  }

  lemma ContentParts(u: Content)
    requires |SerializeContent(u)| < TWO64
    ensures |SerializeSender(u.sender)| < TWO64 && |u.sender.certificate| < TWO64
    ensures |u.contents| < TWO64 && (u.group.Some? ==> |u.group.value| < TWO64)
  {
    hide FieldsBytes, SealEnvelope;
    var fs := ContentFields(u);
    ContentInRange(u);
    DataFits(fs);
    assert fs[1] == Len(2, SerializeSender(u.sender)) && Encodable(fs[1]);
    assert fs[2] == Len(3, u.contents) && Encodable(fs[2]);
    if u.group.Some? {
      assert fs[|fs| - 1] == Len(5, u.group.value) && Encodable(fs[|fs| - 1]);
    }
    EnvelopeRoundTrip(u.sender.certificate, u.sender.signature);
  }

  method SerializeMessageContent(u: Content) returns (out: bytes)
    requires |SerializeContent(u)| < TWO64
    ensures out == SerializeContent(u)
  {
    hide FieldsBytes, AllEncodable, OptLen, OptVarint, SealEnvelope;
    ContentParts(u);
    var enc := new Encoder();
    enc.WriteVarintField(1, TypeCode(u.kind));
    assert enc.fields == [Varint(1, TypeCode(u.kind))];
    var sender := WriteEnvelope(u.sender.certificate, u.sender.signature);
    enc.WriteBytesField(2, sender);
    enc.WriteBytesField(3, u.contents);
    enc.WriteOptVarint(4, if u.hint.DefaultHint? then None else Some(HintCode(u.hint)));
    enc.WriteOptBytes(5, u.group);
    assert enc.fields == ContentFields(u);
    out := enc.buf;
  }

  method DeserializeMessageContent(data: bytes) returns (r: Result<Content>)
    ensures r == DeserializeContent(data)
  {
    hide DeserializeSender;
    var a := ScanLoop(ContentStep, CONTENT_INIT, data);
    if a.Err? {
      return Err(a.error);
    }
    if a.value.sender.None? {
      return Err(InvalidArgument);
    }
    var sender := DeserializeSenderCertificate(a.value.sender.value);
    if sender.Err? {
      return Err(sender.error);
    }
    if a.value.contents.None? {
      return Err(InvalidArgument);
    }
    r := Ok(Content(a.value.kind, sender.value, a.value.hint, a.value.group, a.value.contents.value));
  }

  /// A content whose certificates were made by their constructors reads back as itself, with its
  /// optional fields.
  lemma ContentRoundTrip(u: Content)
    requires SenderBuilt(u.sender) && |SerializeContent(u)| < TWO64
    ensures DeserializeContent(SerializeContent(u)) == Ok(u)
  {
    hide Fold, Scan, FieldsBytes, SealEnvelope, OptLen, OptVarint, DeserializeSender, SenderBuilt;
    var fs := ContentFields(u);
    ContentInRange(u);
    ScanWritten(ContentStep, CONTENT_INIT, fs);
    var code := if u.hint.DefaultHint? then None else Some(HintCode(u.hint));
    var sc := Len(2, SerializeSender(u.sender));
    var r0 := OptLen(5, u.group) + [];
    var r1 := OptVarint(4, code) + r0;
    var r2 := [Len(3, u.contents)] + r1;
    var a1 := CONTENT_INIT.(kind := u.kind);
    var a2 := a1.(sender := Some(sc.data));
    var a3 := a2.(contents := Some(u.contents));
    var a4 := a3.(hint := u.hint);
    var a5 := a4.(group := u.group);
    FoldCons(ContentStep, CONTENT_INIT, Varint(1, TypeCode(u.kind)), [sc] + r2);
    FoldCons(ContentStep, a1, sc, r2);
    FoldCons(ContentStep, a2, Len(3, u.contents), r1);
    FoldOptVarint(ContentStep, a3, 4, code, a4, r0);
    FoldOptLen(ContentStep, a4, 5, u.group, a5, []);
    FoldOne(ContentStep, a5, sc);
    ContentParts(u);
    SenderRoundTrip(u.sender);
  }

  // ---------------------------------------------------------------- sealing

  datatype LayerKeys = LayerKeys(iv: Block, cipher: Key, mac: Key)

  function Layer(s: Suite, ikm: bytes, salt: bytes): LayerKeys {
    var out := DeriveSecrets(s, ikm, salt, [], 96);
    LayerKeys(out[..16], out[32..64], out[64..])
  }

  function EphemeralLayer(s: Suite, shared: Key): LayerKeys {
    Layer(s, shared, Ascii("UnidentifiedDelivery"))
  }

  /// The static part: the sender's certificate bound to the ephemeral layer.
  function StaticPart(s: Suite, ePub: Key, shared: Key, u: Content, ciphertext: bytes, mac: Key): bytes {
    var keys := Layer(s, shared + mac[..8], []);
    var sealed := Cbc.Encrypt(s, keys.cipher, keys.iv, SerializeSender(u.sender) + ciphertext + mac[..8]);
    sealed + s.hmac(keys.mac, SerializePublic(ePub) + sealed)[..10]
  }

  function SealedFields(ePub: Key, static_: bytes, ciphertext: bytes): seq<Field> {
    [Len(1, SerializePublic(ePub))] + ([Len(2, static_)] + [Len(3, ciphertext)])
  }

  /// sealedSenderEncrypt; ePriv is the fresh ephemeral key.
  function EncryptV1(s: Suite, recipient: Key, u: Content, ePriv: Key): Result<bytes> {
    var ePub := s.pub(ePriv);
    var first := s.dh(ePriv, recipient);
    if first.None? then Err(IdentityElement)
    else
      var keys := EphemeralLayer(s, first.value);
      var ciphertext := Cbc.Encrypt(s, keys.cipher, keys.iv, SerializeContent(u));
      var mac := s.hmac(keys.mac, SerializePublic(ePub) + ciphertext);
      var second := s.dh(ePriv, u.sender.key);
      if second.None? then Err(IdentityElement)
      else Ok(FieldsBytes(SealedFields(ePub, StaticPart(s, ePub, second.value, u, ciphertext, mac), ciphertext)))
  }

  datatype SealedLocals = SealedLocals(ePub: Option<bytes>, message: Option<bytes>)

  function SealedStep(a: SealedLocals, f: Field): Result<SealedLocals> {
    match f
    case Len(n, d) => Ok(if n == 1 then a.(ePub := Some(d)) else if n == 3 then a.(message := Some(d)) else a)
    case _ => Ok(a)
  }

  /// sealedSenderDecryptToUsmc: the static part is not looked at.
  function DecryptV1(s: Suite, data: bytes, identity: Key): Result<Content> {
    var a :- Scan(SealedStep, SealedLocals(None, None), data);
    if a.ePub.None? || a.message.None? then Err(InvalidMessage)
    else
      var ePub :- DeserializePublic(a.ePub.value);
      var shared := s.dh(identity, ePub);
      if shared.None? then Err(IdentityElement)
      else
        var keys := EphemeralLayer(s, shared.value);
        var plaintext :- Cbc.Decrypt(s, keys.cipher, keys.iv, a.message.value);
        DeserializeContent(plaintext)
  }

  method SealedSenderEncrypt(s: Suite, recipient: Key, u: Content, ePriv: Key) returns (r: Result<bytes>)
    requires |SerializeContent(u)| < LIMIT
    ensures r == EncryptV1(s, recipient, u, ePriv)
  {
    hide FieldsBytes, AllEncodable, SerializePublic, Cbc.Encrypt, SealEnvelope, SerializeContent, Layer;
    var plaintext := SerializeMessageContent(u);
    var ePub := s.pub(ePriv);
    var first := s.dh(ePriv, recipient);
    if first.None? {
      return Err(IdentityElement);
    }
    var keys := EphemeralLayer(s, first.value);
    var buf := Cbc.EncryptLoop(s, keys.cipher, keys.iv, plaintext);
    Cbc.EncryptLength(s, keys.cipher, keys.iv, plaintext);
    var ciphertext := buf[..];
    var mac := s.hmac(keys.mac, SerializePublic(ePub) + ciphertext);
    var second := s.dh(ePriv, u.sender.key);
    if second.None? {
      return Err(IdentityElement);
    }
    var static_ := SealStatic(s, ePub, second.value, u, ciphertext, mac);
    var enc := new Encoder();
    enc.WriteBytesField(1, SerializePublic(ePub));
    assert enc.fields == [Len(1, SerializePublic(ePub))];
    enc.WriteBytesField(2, static_);
    enc.WriteBytesField(3, ciphertext);
    assert enc.fields == SealedFields(ePub, static_, ciphertext);
    r := Ok(enc.buf);
  }

  method SealStatic(s: Suite, ePub: Key, shared: Key, u: Content, ciphertext: bytes, mac: Key) returns (out: bytes)
    requires |SerializeContent(u)| < LIMIT && |ciphertext| <= LIMIT + 16
    ensures out == StaticPart(s, ePub, shared, u, ciphertext, mac) && |out| < TWO64
  {
    hide SerializePublic, Cbc.Encrypt, SealEnvelope, SerializeContent, Layer;
    var keys := Layer(s, shared + mac[..8], []);
    ContentSize(u);
    var sender := WriteEnvelope(u.sender.certificate, u.sender.signature);
    var plain := sender + ciphertext;
    plain := plain + mac[..8];
    var buf := Cbc.EncryptLoop(s, keys.cipher, keys.iv, plain);
    Cbc.EncryptLength(s, keys.cipher, keys.iv, plain);
    var sealed := buf[..];
    out := sealed + s.hmac(keys.mac, SerializePublic(ePub) + sealed)[..10];
  }

  /// The sender's certificate is inside the content.
  lemma ContentSize(u: Content)
    requires |SerializeContent(u)| < LIMIT
    ensures |SerializeSender(u.sender)| < LIMIT && |u.sender.certificate| < TWO64
  {
    hide SealEnvelope, VarintBytes;
    ContentParts(u);
    var fs := ContentFields(u);
    FieldsBytesConcat([fs[0]], fs[1..]);
    assert fs == [fs[0]] + fs[1..];
    assert fs[1] == Len(2, SerializeSender(u.sender));
    assert |FieldsBytes(fs[1..])| >= |FieldBytes(fs[1])| >= |SerializeSender(u.sender)|;
  }

  /// A layer's keys, from HMAC alone: the IV is half of the first block, and the second and third
  /// blocks are the keys.
  predicate LayerIs(s: Suite, ikm: bytes, salt: bytes, k: LayerKeys) {
    var prk := s.hmac(salt, ikm);
    var t1 := s.hmac(prk, [1]);
    && k.iv == t1[..16] && k.cipher == s.hmac(prk, t1 + [2]) && k.mac == s.hmac(prk, k.cipher + [3])
  }

  lemma LayerOf(s: Suite, ikm: bytes, salt: bytes)
    ensures LayerIs(s, ikm, salt, Layer(s, ikm, salt))
  {
    hide Expand;
    var prk := s.hmac(salt, ikm);
    ExpandIs(s, prk, []);
    var t1 := s.hmac(prk, [1]);
    assert [] + [1] == [1];
    assert t1 + [] + [2] == t1 + [2];
    var t2 := s.hmac(prk, t1 + [2]);
    assert t2 + [] + [3] == t2 + [3];
    var out := t1 + t2 + s.hmac(prk, t2 + [3]);
    assert out[..16] == t1[..16] && out[32..64] == t2 && out[64..] == s.hmac(prk, t2 + [3]);
  }

  /// What is in a sealed message: the ephemeral key; under a layer keyed by the agreement with the
  /// recipient, the content; and under a layer keyed by the agreement with the sender's key and the
  /// first layer's MAC, the sender's certificate, that ciphertext and the start of its MAC, with ten
  /// bytes of MAC of its own.
  lemma SealedHolds(s: Suite, recipient: Key, u: Content, ePriv: Key)
    requires BlockLaw(s) && EncryptV1(s, recipient, u, ePriv).Ok?
    ensures s.dh(ePriv, recipient).Some? && s.dh(ePriv, u.sender.key).Some?
    ensures exists outer, inner, ciphertext, sealed ::
      && Sealed(s, recipient, u, ePriv, outer, inner, ciphertext, sealed)
      && EncryptV1(s, recipient, u, ePriv).value
         == FieldsBytes([Len(1, [5] + s.pub(ePriv)),
                         Len(2, sealed + s.hmac(inner.mac, [5] + s.pub(ePriv) + sealed)[..10]),
                         Len(3, ciphertext)])
  {
    hide FieldsBytes, Cbc.Encrypt, Cbc.Decrypt, SerializeContent, SealEnvelope, Layer, LayerIs;
    var ePub := s.pub(ePriv);
    var outer := EphemeralLayer(s, s.dh(ePriv, recipient).value);
    LayerOf(s, s.dh(ePriv, recipient).value, Ascii("UnidentifiedDelivery"));
    var ciphertext := Cbc.Encrypt(s, outer.cipher, outer.iv, SerializeContent(u));
    Cbc.RoundTrip(s, outer.cipher, outer.iv, SerializeContent(u));
    var mac := s.hmac(outer.mac, [5] + ePub + ciphertext);
    var ikm := s.dh(ePriv, u.sender.key).value + mac[..8];
    var inner := Layer(s, ikm, []);
    LayerOf(s, ikm, []);
    var plain := SerializeSender(u.sender) + ciphertext + mac[..8];
    var sealed := Cbc.Encrypt(s, inner.cipher, inner.iv, plain);
    Cbc.RoundTrip(s, inner.cipher, inner.iv, plain);
    assert Sealed(s, recipient, u, ePriv, outer, inner, ciphertext, sealed);
    var static_ := sealed + s.hmac(inner.mac, [5] + ePub + sealed)[..10];
    assert SealedFields(ePub, static_, ciphertext) == [Len(1, [5] + ePub), Len(2, static_), Len(3, ciphertext)];
  }

  ghost predicate Sealed(s: Suite, recipient: Key, u: Content, ePriv: Key, outer: LayerKeys, inner: LayerKeys,
                         ciphertext: bytes, sealed: bytes)
    requires s.dh(ePriv, recipient).Some? && s.dh(ePriv, u.sender.key).Some?
  {
    var mac := s.hmac(outer.mac, [5] + s.pub(ePriv) + ciphertext)[..8];
    && LayerIs(s, s.dh(ePriv, recipient).value, Ascii("UnidentifiedDelivery"), outer)
    && LayerIs(s, s.dh(ePriv, u.sender.key).value + mac, [], inner)
    && Cbc.Decrypt(s, outer.cipher, outer.iv, ciphertext) == Ok(SerializeContent(u))
    && Cbc.Decrypt(s, inner.cipher, inner.iv, sealed) == Ok(SerializeSender(u.sender) + ciphertext + mac)
  }

  method SealedSenderDecrypt(s: Suite, data: bytes, identity: Key) returns (r: Result<Content>)
    ensures r == DecryptV1(s, data, identity)
  {
    hide Scan, Layer, Cbc.Decrypt, DeserializeContent;
    var a := ScanLoop(SealedStep, SealedLocals(None, None), data);
    if a.Err? {
      return Err(a.error);
    }
    if a.value.ePub.None? || a.value.message.None? {
      return Err(InvalidMessage);
    }
    var ePub := DeserializePublic(a.value.ePub.value);
    if ePub.Err? {
      return Err(ePub.error);
    }
    var shared := s.dh(identity, ePub.value);
    if shared.None? {
      return Err(IdentityElement);
    }
    var keys := EphemeralLayer(s, shared.value);
    var plaintext := Cbc.DecryptLoop(s, keys.cipher, keys.iv, a.value.message.value);
    if plaintext.Err? {
      return Err(plaintext.error);
    }
    r := DeserializeMessageContent(plaintext.value);
  }

  /// Whatever the static part, the content comes back to the holder of the recipient's key.
  lemma OpensWithAnyStatic(s: Suite, u: Content, ePriv: Key, identity: Key, static_: bytes)
    requires DhLaw(s) && BlockLaw(s) && SenderBuilt(u.sender)
    requires s.dh(ePriv, s.pub(identity)).Some?
    requires var keys := EphemeralLayer(s, s.dh(ePriv, s.pub(identity)).value);
      |FieldsBytes(SealedFields(s.pub(ePriv), static_, Cbc.Encrypt(s, keys.cipher, keys.iv, SerializeContent(u))))| < TWO64
    ensures var keys := EphemeralLayer(s, s.dh(ePriv, s.pub(identity)).value);
      var ciphertext := Cbc.Encrypt(s, keys.cipher, keys.iv, SerializeContent(u));
      DecryptV1(s, FieldsBytes(SealedFields(s.pub(ePriv), static_, ciphertext)), identity) == Ok(u)
  {
    hide Fold, Scan, FieldsBytes, SerializePublic, Cbc.Encrypt, Cbc.Decrypt, SerializeContent, DeserializeContent, Layer, SenderBuilt;
    var ePub := s.pub(ePriv);
    var keys := EphemeralLayer(s, s.dh(ePriv, s.pub(identity)).value);
    var ciphertext := Cbc.Encrypt(s, keys.cipher, keys.iv, SerializeContent(u));
    var fs := SealedFields(ePub, static_, ciphertext);
    DataFits(fs);
    assert fs[2] == Len(3, ciphertext) && Encodable(fs[2]);
    Cbc.EncryptLength(s, keys.cipher, keys.iv, SerializeContent(u));
    ContentRoundTrip(u);
    Cbc.RoundTrip(s, keys.cipher, keys.iv, SerializeContent(u));
    var a := SealedLocals(None, None);
    var pk := Len(1, SerializePublic(ePub));
    ScanWritten(SealedStep, a, fs);
    var a1 := a.(ePub := Some(pk.data));
    FoldCons(SealedStep, a, pk, [Len(2, static_)] + [Len(3, ciphertext)]);
    FoldCons(SealedStep, a1, Len(2, static_), [Len(3, ciphertext)]);
    FoldOne(SealedStep, a1, Len(3, ciphertext));
    PublicRoundTrip(ePub);
    assert s.dh(identity, ePub) == s.dh(ePriv, s.pub(identity));
  }

  /// Decrypting what was sealed for the recipient returns the same content.
  lemma V1RoundTrip(s: Suite, u: Content, ePriv: Key, identity: Key)
    requires DhLaw(s) && BlockLaw(s) && SenderBuilt(u.sender)
    ensures var r := EncryptV1(s, s.pub(identity), u, ePriv);
      r.Ok? && |r.value| < TWO64 ==> DecryptV1(s, r.value, identity) == Ok(u)
  {
    hide FieldsBytes, Cbc.Encrypt, SerializeContent, DecryptV1, Layer, SenderBuilt, StaticPart;
    var r := EncryptV1(s, s.pub(identity), u, ePriv);
    if r.Ok? && |r.value| < TWO64 {
      var keys := EphemeralLayer(s, s.dh(ePriv, s.pub(identity)).value);
      var ciphertext := Cbc.Encrypt(s, keys.cipher, keys.iv, SerializeContent(u));
      var mac := s.hmac(keys.mac, SerializePublic(s.pub(ePriv)) + ciphertext);
      OpensWithAnyStatic(s, u, ePriv, identity, StaticPart(s, s.pub(ePriv), s.dh(ePriv, u.sender.key).value, u, ciphertext, mac));
    }
  }
}
