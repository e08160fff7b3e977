/// Sealed sender, version 2 (src/sealed_sender.zig): one message sealed for many devices, dispatched
/// by the server and opened by each.
module SealedSenderV2 {
  import opened Bytes
  import opened Crypto
  import opened Kdf
  import opened Proto

  /// A service id in its fixed-width form.
  type ServiceId = b: bytes | |b| == 17 witness Zeros(17)

  datatype Recipient = Recipient(id: ServiceId, device: byte, identity: Key)

  const SENT: byte := 0x23
  const RECEIVED: byte := 0x22

  function LabelR(): bytes { Ascii("Sealed Sender v2: r (2023-08)") }
  function LabelK(): bytes { Ascii("Sealed Sender v2: K") }
  function LabelDh(): bytes { Ascii("Sealed Sender v2: DH") }
  function LabelDhSender(): bytes { Ascii("Sealed Sender v2: DH-sender") }

  // ---------------------------------------------------------------- keys

  /// hkdfV2 with a short output.
  function Hkdf(s: Suite, ikm: bytes, info: bytes, len: nat): (out: bytes)
    requires len <= 255 * 32
    ensures |out| == len
  {
    Expand(s, Extract(s, [], ikm), info, len)
  }

  method Derive(s: Suite, ikm: bytes, info: bytes, len: nat) returns (out: bytes)
    requires len <= 254 * 32
    ensures out == Hkdf(s, ikm, info, len)
  {
    hide Expand, Extract;
    var buf := new byte[len];
    var ok := HkdfV2(s, ikm, info, buf);
    out := buf[..];
  }

  /// X25519 clamping.
  function Clamp(k: Key): Key {
    [k[0] - k[0] % 8] + k[1..31] + [k[31] % 64 + 64]
  }

  function EphemeralPrivate(s: Suite, m: Key): Key {
    Clamp(Hkdf(s, m, LabelR(), 32))
  }

  function EphemeralPublic(s: Suite, m: Key): Key {
    s.pub(EphemeralPrivate(s, m))
  }

  function MessageKey(s: Suite, m: Key): Key {
    Hkdf(s, m, LabelK(), 32)
  }

  function PadFrom(s: Suite, shared: Key, ePub: Key, rPub: Key): Key {
    Hkdf(s, shared + ePub + rPub, LabelDh(), 32)
  }

  function TagFrom(s: Suite, shared: Key, ePub: Key, c: Key, sPub: Key, rPub: Key): Block {
    Hkdf(s, shared + ePub + c + sPub + rPub, LabelDhSender(), 16)
  }

  function ComputePad(s: Suite, ePriv: Key, rPub: Key, ePub: Key): Result<Key> {
    var shared := s.dh(ePriv, rPub);
    if shared.None? then Err(IdentityElement) else Ok(PadFrom(s, shared.value, ePub, rPub))
  }

  function ComputeAt(s: Suite, sPriv: Key, rPub: Key, ePub: Key, c: Key, sPub: Key): Result<Block> {
    var shared := s.dh(sPriv, rPub);
    if shared.None? then Err(IdentityElement) else Ok(TagFrom(s, shared.value, ePub, c, sPub, rPub))
  }

  // ---------------------------------------------------------------- encryption

  const ENTRY_LEN: nat := 68

  type Entry = b: bytes | |b| == ENTRY_LEN witness Zeros(ENTRY_LEN)

  function MaskedSecret(pad: Key, m: Key): Key {
    XorBytes(m, pad)
  }

  /// id || device || 0 || 0 || C || AT
  function EntryOf(r: Recipient, c: Key, at: Block): Entry {
    r.id + [r.device, 0, 0] + c + at
  }

  function SealEntry(s: Suite, m: Key, sPriv: Key, r: Recipient): Result<Entry> {
    var ePub := EphemeralPublic(s, m);
    var pad :- ComputePad(s, EphemeralPrivate(s, m), r.identity, ePub);
    var c := MaskedSecret(pad, m);
    var at :- ComputeAt(s, sPriv, r.identity, ePub, c, s.pub(sPriv));
    Ok(EntryOf(r, c, at))
  }

  /// The entries of all recipients; the first failing agreement is the error.
  function SealEntries(s: Suite, m: Key, sPriv: Key, rs: seq<Recipient>): Result<seq<Entry>> {
    if rs == [] then Ok([])
    else
      var n := |rs| - 1;
      var before :- SealEntries(s, m, sPriv, rs[..n]);
      var last :- SealEntry(s, m, sPriv, rs[n]);
      Ok(before + [last])
  }

  /// An excluded id takes 18 bytes.
  function ExcludedBytes(ids: seq<ServiceId>): bytes {
    if ids == [] then [] else ExcludedBytes(ids[..|ids| - 1]) + ids[|ids| - 1] + [0]
  }

  function Suffix(s: Suite, m: Key, message: bytes): bytes {
    EphemeralPublic(s, m) + s.seal(MessageKey(s, m), message)
  }

  /// sealedSenderEncryptV2; m is the random secret.
  function EncryptV2(s: Suite, message: bytes, sPriv: Key, rs: seq<Recipient>, excluded: seq<ServiceId>, m: Key): Result<bytes> {
    var entries :- SealEntries(s, m, sPriv, rs);
    Ok([SENT] + VarintBytes(|rs| + |excluded|) + Concat(entries) + ExcludedBytes(excluded) + Suffix(s, m, message))
  }

  lemma {:induction false} ConcatSnoc(pieces: seq<bytes>, last: bytes)
    ensures Concat(pieces + [last]) == Concat(pieces) + last
  {
    if pieces == [] {
      assert Concat([last]) == last + Concat([]);
    } else {
      assert (pieces + [last])[1..] == pieces[1..] + [last];
      ConcatSnoc(pieces[1..], last);
    }
  }

  /// The ephemeral private key: derived, then clamped in place.
  method DeriveEphemeral(s: Suite, m: Key) returns (ePriv: Key)
    ensures ePriv == EphemeralPrivate(s, m)
  {
    hide Hkdf, LabelR, Clamp;
    var derived := Derive(s, m, LabelR(), 32);
    var e := new byte[32];
    Copy(e, 0, derived);
    assert e[..] == derived;
    e[0] := e[0] - e[0] % 8;
    e[31] := e[31] % 128;
    e[31] := if e[31] < 64 then e[31] + 64 else e[31];
    ClampIs(derived, e[..]);
    ePriv := e[..];
  }

  method AppendEntries(s: Suite, m: Key, ePriv: Key, ePub: Key, sPriv: Key, rs: seq<Recipient>, start: bytes)
    returns (r: Result<bytes>)
    requires ePriv == EphemeralPrivate(s, m) && ePub == EphemeralPublic(s, m)
    ensures var all := SealEntries(s, m, sPriv, rs);
      r == if all.Err? then Err(all.error) else Ok(start + Concat(all.value))
  {
    hide Concat, SealEntry, EphemeralPrivate, EphemeralPublic, SealEntries;
    var out := start;
    ghost var entries: seq<Entry> := [];
    ConcatNone();
    SealNone(s, m, sPriv);
    assert rs[..0] == [];
    for i := 0 to |rs|
      invariant SealEntries(s, m, sPriv, rs[..i]) == Ok(entries)
      invariant out == start + Concat(entries)
    {
      SealNext(s, m, sPriv, rs, i);
      var entry := SealOne(s, m, ePriv, ePub, sPriv, rs[i]);
      if entry.Err? {
        return Err(entry.error);
      }
      ConcatSnoc(entries, entry.value);
      out := out + entry.value;
      entries := entries + [entry.value];
    }
    assert rs[..|rs|] == rs;
    r := Ok(out);
  }

  method AppendExcluded(excluded: seq<ServiceId>, start: bytes) returns (out: bytes)
    ensures out == start + ExcludedBytes(excluded)
  {
    hide ExcludedBytes;
    out := start;
    NoneExcluded();
    assert excluded[..0] == [];
    for i := 0 to |excluded|
      invariant out == start + ExcludedBytes(excluded[..i])
    {
      ExcludedNext(excluded, i);
      out := out + excluded[i];
      out := out + [0];
    }
    assert excluded[..|excluded|] == excluded;
  }

  method Encrypt(s: Suite, message: bytes, sPriv: Key, rs: seq<Recipient>, excluded: seq<ServiceId>, m: Key)
    returns (r: Result<bytes>)
    requires |rs| + |excluded| < TWO64
    ensures r == EncryptV2(s, message, sPriv, rs, excluded, m)
  {
    hide Hkdf, LabelK, VarintBytes, Concat, ExcludedBytes, SealEntries, EphemeralPrivate;
    var ePriv := DeriveEphemeral(s, m);
    var ePub := s.pub(ePriv);
    var key := Derive(s, m, LabelK(), 32);
    var sealed := s.seal(key, message);
    var buf := new byte[10];
    var n := EncodeVarint(|rs| + |excluded|, buf);
    var out := [SENT] + buf[..n];
    r := AppendEntries(s, m, ePriv, ePub, sPriv, rs, out);
    if r.Err? {
      return;
    }
    out := AppendExcluded(excluded, r.value);
    out := out + ePub;
    out := out + sealed;
    assert out == r.value + ExcludedBytes(excluded) + Suffix(s, m, message);
    r := Ok(out);
  }

  lemma SealNone(s: Suite, m: Key, sPriv: Key)
    ensures SealEntries(s, m, sPriv, []) == Ok([])
  {
  }

  lemma ConcatNone()
    ensures Concat([]) == []
  {
  }

  lemma NoneExcluded()
    ensures ExcludedBytes([]) == []
  {
  }

  lemma ExcludedNext(ids: seq<ServiceId>, i: nat)
    requires i < |ids|
    ensures ExcludedBytes(ids[..i + 1]) == ExcludedBytes(ids[..i]) + ids[i] + [0]
  {
    assert ids[..i + 1][..i] == ids[..i];
  }

  /// One more recipient: an error there is the error of the whole.
  lemma SealNext(s: Suite, m: Key, sPriv: Key, rs: seq<Recipient>, i: nat)
    requires i < |rs| && SealEntries(s, m, sPriv, rs[..i]).Ok?
    ensures var one := SealEntry(s, m, sPriv, rs[i]);
      if one.Ok? then SealEntries(s, m, sPriv, rs[..i + 1]) == Ok(SealEntries(s, m, sPriv, rs[..i]).value + [one.value])
      else SealEntries(s, m, sPriv, rs) == Err(one.error)
  {
    hide SealEntry;
    assert rs[..i + 1][..i] == rs[..i];
    if SealEntry(s, m, sPriv, rs[i]).Err? {
      SealFails(s, m, sPriv, rs, i + 1);
    }
  }

  lemma {:induction false} SealFails(s: Suite, m: Key, sPriv: Key, rs: seq<Recipient>, i: nat)
    requires i <= |rs| && SealEntries(s, m, sPriv, rs[..i]).Err?
    ensures SealEntries(s, m, sPriv, rs) == SealEntries(s, m, sPriv, rs[..i])
    decreases |rs| - i
  {
    hide SealEntry;
    if i == |rs| {
      assert rs[..i] == rs;
    } else {
      assert rs[..i + 1][..i] == rs[..i];
      SealFails(s, m, sPriv, rs, i + 1);
    }
  }

  method SealOne(s: Suite, m: Key, ePriv: Key, ePub: Key, sPriv: Key, r: Recipient) returns (entry: Result<Entry>)
    requires ePriv == EphemeralPrivate(s, m) && ePub == EphemeralPublic(s, m)
    ensures entry == SealEntry(s, m, sPriv, r)
  {
    hide Hkdf, EphemeralPrivate;
    var out := r.id + [r.device, 0, 0];
    var pad := ComputePad(s, ePriv, r.identity, ePub);
    if pad.Err? {
      return Err(pad.error);
    }
    var c := XorBytes(m, pad.value);
    out := out + c;
    var at := ComputeAt(s, sPriv, r.identity, ePub, c, s.pub(sPriv));
    if at.Err? {
      return Err(at.error);
    }
    out := out + at.value;
    entry := Ok(out);
  }

  lemma ClampIs(k: Key, e: Key)
    requires forall i :: 1 <= i < 31 ==> e[i] == k[i]
    requires e[0] == k[0] - k[0] % 8
    requires e[31] == (if k[31] % 128 < 64 then k[31] % 128 + 64 else k[31] % 128)
    ensures e == Clamp(k)
  {
    var b := k[31];
    assert b % 64 + 64 == if b % 128 < 64 then b % 128 + 64 else b % 128;
    assert forall i :: 0 <= i < 32 ==> e[i] == Clamp(k)[i];
  }

  // ---------------------------------------------------------------- dispatch

  /// The count: a varint whose end may be missing; a tenth continuation bit traps.
  function ReadCount(s: bytes, acc: nat, shift: nat): Result<(nat, nat)>
    requires shift <= 63
    decreases |s|
  {
    if s == [] then Ok((acc, 0))
    else
      var acc' := acc + (s[0] as nat % 128) * Pow2(shift) % TWO64;
      if s[0] < 128 then Ok((acc', 1))
      else if shift + 7 > 63 then Err(Panic)
      else
        var (v, used) :- ReadCount(s[1..], acc', shift + 7);
        Ok((v, used + 1))
  }

  lemma {:induction false} ReadCountVarint(s: bytes, acc: nat, shift: nat)
    requires shift <= 63
    ensures match ParseVarint(s, acc, shift)
            case Got(v, used) => ReadCount(s, acc, shift) == Ok((v, used))
            case Failed(_) => true
    ensures ReadCount(s, acc, shift).Ok? ==> ReadCount(s, acc, shift).value.1 <= |s|
    decreases |s|
  {
    hide Pow2;
    if s != [] && s[0] >= 128 && shift + 7 <= 63 {
      var acc' := acc + (s[0] as nat % 128) * Pow2(shift) % TWO64;
      ReadCountVarint(s[1..], acc', shift + 7);
    }
  }

  method ReadRecipientCount(sent: bytes) returns (r: Result<(nat, nat)>)
    requires |sent| >= 1
    ensures r == match ReadCount(sent[1..], 0, 0) case Err(e) => Err(e) case Ok(p) => Ok((p.0, p.1 + 1))
  {
    var pos, count: nat, shift: nat := 1, 0, 0;
    while pos < |sent|
      invariant 1 <= pos <= |sent| && shift <= 63
      invariant ReadCount(sent[1..], 0, 0) ==
        match ReadCount(sent[pos..], count, shift) case Err(e) => Err(e) case Ok(p) => Ok((p.0, p.1 + pos - 1))
    {
      var b := sent[pos];
      assert sent[pos..][1..] == sent[pos + 1..];
      pos := pos + 1;
      count := count + (b as nat % 128) * Pow2(shift) % TWO64;
      if b < 128 {
        return Ok((count, pos));
      }
      if shift + 7 > 63 {
        return Err(Panic);
      }
      shift := shift + 7;
    }
    r := Ok((count, pos));
  }

  /// Entry i of a sent message is that of the device.
  predicate IsFor(sent: bytes, start: nat, i: nat, id: ServiceId, device: byte)
    requires start + (i + 1) * ENTRY_LEN <= |sent|
  {
    var e := start + i * ENTRY_LEN;
    sent[e..e + 17] == id && sent[e + 17] == device
  }

  /// The first of the entries from i on that is the device's; count when there is none.
  function FindEntry(sent: bytes, start: nat, count: nat, i: nat, id: ServiceId, device: byte): (k: nat)
    requires i <= count && start + count * ENTRY_LEN <= |sent|
    ensures i <= k <= count
    decreases count - i
  {
    if i == count then count
    else
      assert (i + 1) * ENTRY_LEN <= count * ENTRY_LEN;
      if IsFor(sent, start, i, id, device) then i else FindEntry(sent, start, count, i + 1, id, device)
  }

  /// 0x22 || C || AT || e_pub || ciphertext
  function ReceivedOf(sent: bytes, entry: nat, end: nat): bytes
    requires entry + ENTRY_LEN <= end && end + 32 <= |sent|
  {
    [RECEIVED] + sent[entry + 20..entry + 52] + sent[entry + 52..entry + 68] + sent[end..end + 32] + sent[end + 32..]
  }

  /// v2Dispatch
  function Dispatch(sent: bytes, id: ServiceId, device: byte): Result<bytes> {
    if |sent| < 2 then Err(InvalidMessage)
    else if sent[0] != SENT then Err(UnknownCiphertextVersion)
    else
      var p :- ReadCount(sent[1..], 0, 0);
      var count, start := p.0, p.1 + 1;
      var end := start + count * ENTRY_LEN;
      if end + 32 >= TWO64 then Err(Panic)
      else if end + 32 > |sent| then Err(InvalidMessage)
      else
        var k := FindEntry(sent, start, count, 0, id, device);
        if k == count then Err(InvalidKeyIdentifier)
        else
          assert (k + 1) * ENTRY_LEN <= count * ENTRY_LEN;
          Ok(ReceivedOf(sent, start + k * ENTRY_LEN, end))
  }

  method V2Dispatch(sent: bytes, id: ServiceId, device: byte) returns (r: Result<bytes>)
    ensures r == Dispatch(sent, id, device)
  {
    hide ReadCount, FindEntry;
    if |sent| < 2 {
      return Err(InvalidMessage);
    }
    if sent[0] != SENT {
      return Err(UnknownCiphertextVersion);
    }
    var p := ReadRecipientCount(sent);
    if p.Err? {
      return Err(p.error);
    }
    var (count, start) := p.value;
    var end := start + count * ENTRY_LEN;
    if end + 32 >= TWO64 {
      return Err(Panic);
    }
    if end + 32 > |sent| {
      return Err(InvalidMessage);
    }
    var i := 0;
    while i < count
      invariant i <= count
      invariant FindEntry(sent, start, count, i, id, device) == FindEntry(sent, start, count, 0, id, device)
    {
      assert (i + 1) * ENTRY_LEN <= count * ENTRY_LEN;
      FindNext(sent, start, count, i, id, device);
      var e := start + i * ENTRY_LEN;
      if sent[e..e + 17] == id && sent[e + 17] == device {
        return Ok([RECEIVED] + sent[e + 20..e + 52] + sent[e + 52..e + 68] + sent[end..end + 32] + sent[end + 32..]);
      }
      i := i + 1;
    }
    FindNext(sent, start, count, i, id, device);
    r := Err(InvalidKeyIdentifier);
  }

  lemma FindNext(sent: bytes, start: nat, count: nat, i: nat, id: ServiceId, device: byte)
    requires i <= count && start + count * ENTRY_LEN <= |sent|
    ensures i == count ==> FindEntry(sent, start, count, i, id, device) == count
    ensures i < count ==>
      && start + (i + 1) * ENTRY_LEN <= |sent|
      && FindEntry(sent, start, count, i, id, device)
         == if IsFor(sent, start, i, id, device) then i else FindEntry(sent, start, count, i + 1, id, device)
  {
  }

  // ---------------------------------------------------------------- decryption

  /// sealedSenderDecryptV2
  function DecryptV2(s: Suite, received: bytes, rPriv: Key, rPub: Key, sPub: Key): Result<bytes> {
    if |received| < 97 then Err(InvalidMessage)
    else if received[0] != RECEIVED then Err(UnknownCiphertextVersion)
    else OpenV2(s, received[1..33], received[33..49], received[49..81], received[81..], rPriv, rPub, sPub)
  }

  function OpenV2(s: Suite, c: Key, at: Block, ePub: Key, sealed: bytes, rPriv: Key, rPub: Key, sPub: Key): Result<bytes> {
    var shared := s.dh(rPriv, ePub);
    if shared.None? then Err(IdentityElement)
    else
      var m := XorBytes(c, PadFrom(s, shared.value, ePub, rPub));
      if EphemeralPublic(s, m) != ePub then Err(InvalidMessage)
      else if |sealed| < 16 then Err(InvalidMessage)
      else
        var plaintext := s.open(MessageKey(s, m), sealed);
        if plaintext.None? then Err(AuthenticationFailed)
        else
          var bound := s.dh(rPriv, sPub);
          if bound.None? then Err(IdentityElement)
          else if at != TagFrom(s, bound.value, ePub, c, sPub, rPub) then Err(InvalidMessage)
          else Ok(plaintext.value)
  }

  method Decrypt(s: Suite, received: bytes, rPriv: Key, rPub: Key, sPub: Key) returns (r: Result<bytes>)
    ensures r == DecryptV2(s, received, rPriv, rPub, sPub)
  {
    hide Hkdf, LabelR, LabelK, LabelDh, LabelDhSender, Clamp, XorBytes;
    if |received| < 97 {
      return Err(InvalidMessage);
    }
    if received[0] != RECEIVED {
      return Err(UnknownCiphertextVersion);
    }
    var pos := 1;
    var c: Key := received[pos..pos + 32];
    pos := pos + 32;
    var at: Block := received[pos..pos + 16];
    pos := pos + 16;
    var ePub: Key := received[pos..pos + 32];
    pos := pos + 32;
    var sealed := received[pos..];
    var shared := s.dh(rPriv, ePub);
    if shared.None? {
      return Err(IdentityElement);
    }
    var pad := Derive(s, shared.value + ePub + rPub, LabelDh(), 32);
    var m: Key := XorBytes(c, pad);
    var e := Derive(s, m, LabelR(), 32);
    if s.pub(Clamp(e)) != ePub {
      return Err(InvalidMessage);
    }
    var key := Derive(s, m, LabelK(), 32);
    if |sealed| < 16 {
      return Err(InvalidMessage);
    }
    match s.open(key, sealed)
    case None =>
      r := Err(AuthenticationFailed);
    case Some(plaintext) =>
      var bound := s.dh(rPriv, sPub);
      if bound.None? {
        return Err(IdentityElement);
      }
      var expected := Derive(s, bound.value + ePub + c + sPub + rPub, LabelDhSender(), 16);
      if at != expected {
        return Err(InvalidMessage);
      }
      r := Ok(plaintext);
  }

  // ---------------------------------------------------------------- what acceptance proves

  // The same in terms of HMAC, of which a key of one block is two.

  function OneBlock(s: Suite, ikm: bytes, info: string): Key {
    s.hmac(s.hmac([], ikm), Ascii(info) + [1])
  }

  lemma OneBlockIs(s: Suite, ikm: bytes, info: string)
    ensures Hkdf(s, ikm, Ascii(info), 32) == OneBlock(s, ikm, info)
    ensures Hkdf(s, ikm, Ascii(info), 16) == OneBlock(s, ikm, info)[..16]
  {
    hide Expand, Ascii;
    ExpandIs(s, s.hmac([], ikm), Ascii(info));
  }

  /// The ephemeral key is the one that the secret determines: a clamped key derived from it.
  predicate EphemeralFits(s: Suite, m: Key, ePub: Key) {
    var e := OneBlock(s, m, "Sealed Sender v2: r (2023-08)");
    s.pub([e[0] - e[0] % 8] + e[1..31] + [e[31] % 64 + 64]) == ePub
  }

  /// The tag is that of an agreement with the sender's identity, over everything the entry binds.
  predicate TagFits(s: Suite, shared: Key, at: Block, ePub: Key, c: Key, sPub: Key, rPub: Key) {
    at == OneBlock(s, shared + ePub + c + sPub + rPub, "Sealed Sender v2: DH-sender")[..16]
  }

  /// The secret under the pad of an agreement with the ephemeral key.
  function Unmasked(s: Suite, shared: Key, c: Key, ePub: Key, rPub: Key): Key {
    XorBytes(c, OneBlock(s, shared + ePub + rPub, "Sealed Sender v2: DH"))
  }

  /// Exactly when a received message opens, and what it gives when it does not.
  lemma AcceptanceProves(s: Suite, received: bytes, rPriv: Key, rPub: Key, sPub: Key)
    ensures var r := DecryptV2(s, received, rPriv, rPub, sPub);
      && (|received| < 97 ==> r == Err(InvalidMessage))
      && (|received| >= 97 && received[0] != 0x22 ==> r == Err(UnknownCiphertextVersion))
      && (|received| >= 97 && received[0] == 0x22 ==>
            var c, at, ePub := received[1..33], received[33..49], received[49..81];
            var agreed, bound := s.dh(rPriv, ePub), s.dh(rPriv, sPub);
            && (agreed.None? ==> r == Err(IdentityElement))
            && (agreed.Some? ==>
                  var m := Unmasked(s, agreed.value, c, ePub, rPub);
                  var plain := s.open(OneBlock(s, m, "Sealed Sender v2: K"), received[81..]);
                  var fits := EphemeralFits(s, m, ePub);
                  && (!fits ==> r == Err(InvalidMessage))
                  && (fits && plain.None? ==> r == Err(AuthenticationFailed))
                  && (fits && plain.Some? && bound.None? ==> r == Err(IdentityElement))
                  && (fits && plain.Some? && bound.Some? ==>
                        r == if TagFits(s, bound.value, at, ePub, c, sPub, rPub) then Ok(plain.value) else Err(InvalidMessage))))
  {
    hide Hkdf, Ascii, XorBytes, OneBlock;
    if |received| >= 97 && received[0] == RECEIVED {
      var c, ePub := received[1..33], received[49..81];
      var agreed, bound := s.dh(rPriv, ePub), s.dh(rPriv, sPub);
      if agreed.Some? {
        OneBlockIs(s, agreed.value + ePub + rPub, "Sealed Sender v2: DH");
        var m := Unmasked(s, agreed.value, c, ePub, rPub);
        OneBlockIs(s, m, "Sealed Sender v2: r (2023-08)");
        OneBlockIs(s, m, "Sealed Sender v2: K");
        if bound.Some? {
          OneBlockIs(s, bound.value + ePub + c + sPub + rPub, "Sealed Sender v2: DH-sender");
        }
      }
    }
  }

  // ---------------------------------------------------------------- end to end

  /// An entry opens with its recipient's key: both checks pass and the message comes back.
  lemma EntryOpens(s: Suite, m: Key, sPriv: Key, r: Recipient, rPriv: Key, message: bytes)
    requires DhLaw(s) && SealLaw(s) && r.identity == s.pub(rPriv)
    requires SealEntry(s, m, sPriv, r).Ok?
    ensures var entry := SealEntry(s, m, sPriv, r).value;
      OpenV2(s, entry[20..52], entry[52..68], EphemeralPublic(s, m), s.seal(MessageKey(s, m), message), rPriv, r.identity, s.pub(sPriv))
        == Ok(message)
  {
    hide Hkdf, PadFrom, TagFrom, MessageKey, EphemeralPrivate, XorBytes;
    var ePriv, ePub := EphemeralPrivate(s, m), EphemeralPublic(s, m);
    var pad := ComputePad(s, ePriv, r.identity, ePub).value;
    var c := MaskedSecret(pad, m);
    var at := ComputeAt(s, sPriv, r.identity, ePub, c, s.pub(sPriv)).value;
    var entry := EntryOf(r, c, at);
    assert entry[20..52] == c && entry[52..68] == at;
    XorTwice(m, pad);
    assert s.dh(rPriv, ePub) == s.dh(ePriv, r.identity);
    assert s.dh(rPriv, s.pub(sPriv)) == s.dh(sPriv, r.identity);
  }

  /// A genuine message opens under another sender's identity only if both identities give the entry
  /// the same tag.
  lemma OtherSender(s: Suite, m: Key, sPriv: Key, r: Recipient, rPriv: Key, message: bytes, other: Key)
    requires DhLaw(s) && SealLaw(s) && r.identity == s.pub(rPriv)
    requires SealEntry(s, m, sPriv, r).Ok?
    ensures var entry := SealEntry(s, m, sPriv, r).value;
      var c, at, ePub := entry[20..52], entry[52..68], EphemeralPublic(s, m);
      var received := [RECEIVED] + c + at + ePub + s.seal(MessageKey(s, m), message);
      var bound := s.dh(rPriv, other);
      DecryptV2(s, received, rPriv, r.identity, other)
        == if bound.None? then Err(IdentityElement)
           else if TagFits(s, bound.value, at, ePub, c, other, r.identity) then Ok(message)
           else Err(InvalidMessage)
  {
    hide PadFrom, MessageKey, EphemeralPublic, Hkdf, SealEntry, OneBlock;
    var entry := SealEntry(s, m, sPriv, r).value;
    var c, at, ePub, sealed := entry[20..52], entry[52..68], EphemeralPublic(s, m), s.seal(MessageKey(s, m), message);
    ReceivedParts(c, at, ePub, sealed);
    EntryOpens(s, m, sPriv, r, rPriv, message);
    var bound := s.dh(rPriv, other);
    if bound.Some? {
      OneBlockIs(s, bound.value + ePub + c + other + r.identity, "Sealed Sender v2: DH-sender");
    }
  }

  lemma {:induction false} EntriesLength(s: Suite, m: Key, sPriv: Key, rs: seq<Recipient>)
    requires SealEntries(s, m, sPriv, rs).Ok?
    ensures var entries := SealEntries(s, m, sPriv, rs).value;
      && |entries| == |rs|
      && forall i :: 0 <= i < |rs| ==> SealEntry(s, m, sPriv, rs[i]) == Ok(entries[i])
  {
    hide SealEntry;
    if rs != [] {
      EntriesLength(s, m, sPriv, rs[..|rs| - 1]);
    }
  }

  /// Entries of equal length are found at multiples of it.
  lemma {:induction false} ConcatAt(entries: seq<Entry>, i: nat)
    requires i < |entries|
    ensures |Concat(entries)| == ENTRY_LEN * |entries|
    ensures ENTRY_LEN * i + ENTRY_LEN <= |Concat(entries)|
    ensures Concat(entries)[ENTRY_LEN * i..ENTRY_LEN * i + ENTRY_LEN] == entries[i]
  {
    var rest := Concat(entries[1..]);
    if |entries| == 1 {
      assert rest == [];
    } else {
      ConcatAt(entries[1..], if i > 0 then i - 1 else 0);
    }
    if i > 0 {
      assert Concat(entries)[ENTRY_LEN * i..ENTRY_LEN * i + ENTRY_LEN]
          == rest[ENTRY_LEN * (i - 1)..ENTRY_LEN * (i - 1) + ENTRY_LEN];
    }
  }

  lemma ConcatLength(entries: seq<Entry>)
    ensures |Concat(entries)| == ENTRY_LEN * |entries|
  {
    if entries != [] {
      ConcatAt(entries, 0);
    }
  }

  /// Recipient r is the device's.
  predicate Names(r: Recipient, id: ServiceId, device: byte) {
    r.id == id && r.device == device
  }

  /// The first recipient from i on that is the device; |rs| when it is not listed.
  function FirstNamed(rs: seq<Recipient>, i: nat, id: ServiceId, device: byte): (k: nat)
    requires i <= |rs|
    ensures i <= k <= |rs|
    ensures k < |rs| ==> Names(rs[k], id, device)
    ensures forall j :: i <= j < k ==> !Names(rs[j], id, device)
    decreases |rs| - i
  {
    if i == |rs| then i
    else if Names(rs[i], id, device) then i
    else FirstNamed(rs, i + 1, id, device)
  }

  /// Where the parts of a sent message are.
  lemma Layout(head: bytes, entries: seq<Entry>, tail: bytes, i: nat)
    requires i < |entries|
    ensures var sent := head + Concat(entries) + tail;
      var at := |head| + i * ENTRY_LEN;
      at + ENTRY_LEN <= |sent| && sent[at..at + ENTRY_LEN] == entries[i]
  {
    ConcatAt(entries, i);
    var body := Concat(entries);
    var sent := head + body + tail;
    var at := |head| + i * ENTRY_LEN;
    assert sent[at..at + ENTRY_LEN] == body[ENTRY_LEN * i..ENTRY_LEN * i + ENTRY_LEN];
  }

  /// The search over the bytes is the search over the recipients.
  lemma {:induction false} SearchIs(head: bytes, entries: seq<Entry>, tail: bytes, rs: seq<Recipient>, i: nat, id: ServiceId, device: byte)
    requires i <= |entries| == |rs|
    requires forall k :: 0 <= k < |rs| ==> entries[k][..17] == rs[k].id && entries[k][17] == rs[k].device
    ensures var sent := head + Concat(entries) + tail;
      |head| + |rs| * ENTRY_LEN <= |sent|
      && FindEntry(sent, |head|, |rs|, i, id, device) == FirstNamed(rs, i, id, device)
    decreases |rs| - i
  {
    hide Concat, FindEntry;
    var sent := head + Concat(entries) + tail;
    ConcatLength(entries);
    FindNext(sent, |head|, |rs|, i, id, device);
    if i < |rs| {
      SearchIs(head, entries, tail, rs, i + 1, id, device);
      Layout(head, entries, tail, i);
      var at := |head| + i * ENTRY_LEN;
      EntryHead(sent, at, entries[i]);
    }
  }

  lemma EntryHead(sent: bytes, at: nat, entry: Entry)
    requires at + ENTRY_LEN <= |sent| && sent[at..at + ENTRY_LEN] == entry
    ensures sent[at..at + 17] == entry[..17] && sent[at + 17] == entry[17]
    ensures sent[at + 20..at + 52] == entry[20..52] && sent[at + 52..at + 68] == entry[52..68]
  {
    assert sent[at..at + ENTRY_LEN][..17] == sent[at..at + 17];
    assert sent[at..at + ENTRY_LEN][17] == sent[at + 17];
    assert sent[at..at + ENTRY_LEN][20..52] == sent[at + 20..at + 52];
    assert sent[at..at + ENTRY_LEN][52..68] == sent[at + 52..at + 68];
  }

  /// What the entries say of their recipients.
  lemma EntriesNamed(s: Suite, m: Key, sPriv: Key, rs: seq<Recipient>)
    requires SealEntries(s, m, sPriv, rs).Ok?
    ensures var entries := SealEntries(s, m, sPriv, rs).value;
      && |entries| == |rs|
      && forall k :: 0 <= k < |rs| ==> entries[k][..17] == rs[k].id && entries[k][17] == rs[k].device
  {
    hide ComputePad, ComputeAt, MaskedSecret, EphemeralPublic, EphemeralPrivate;
    EntriesLength(s, m, sPriv, rs);
    var entries := SealEntries(s, m, sPriv, rs).value;
    forall k | 0 <= k < |rs| ensures entries[k][..17] == rs[k].id && entries[k][17] == rs[k].device {
      assert SealEntry(s, m, sPriv, rs[k]) == Ok(entries[k]);
    }
  }

  /// The count that dispatch reads back.
  lemma CountRead(n: u64, rest: bytes)
    ensures ReadCount(VarintBytes(n) + rest, 0, 0) == Ok((n, |VarintBytes(n)|))
  {
    hide ParseVarint, ReadCount, VarintBytes;
    VarintRoundTrip(n, rest);
    ReadCountVarint(VarintBytes(n) + rest, 0, 0);
  }

  /// The entry, and the rest of the message from 50 bytes further on for each id excluded.
  lemma ShiftedParts(head: bytes, entries: seq<Entry>, ids: bytes, tail: bytes, k: nat, shift: nat)
    requires k < |entries| && |ids| == 18 * shift && 50 * shift + 32 <= |tail|
    ensures var sent := head + Concat(entries) + (ids + tail);
      var at, end := |head| + k * ENTRY_LEN, |head| + (|entries| + shift) * ENTRY_LEN;
      at + ENTRY_LEN <= end && end + 32 <= |sent|
      && ReceivedOf(sent, at, end) == [RECEIVED] + entries[k][20..52] + entries[k][52..68] + tail[50 * shift..]
  {
    hide Concat, ReceivedOf;
    ConcatLength(entries);
    var before := head + Concat(entries);
    var sent := before + (ids + tail);
    var at, end := |head| + k * ENTRY_LEN, |head| + (|entries| + shift) * ENTRY_LEN;
    Layout(head, entries, ids + tail, k);
    EntryHead(sent, at, entries[k]);
    assert end == |before + ids| + 50 * shift;
    assert sent == (before + ids) + tail;
    RestAt(before + ids, tail, 50 * shift);
    ReceivedIs(sent, at, end, entries[k], tail[50 * shift..]);
  }

  lemma ReceivedIs(sent: bytes, at: nat, end: nat, entry: Entry, rest: bytes)
    requires at + ENTRY_LEN <= end && end + 32 <= |sent| && sent[end..] == rest
    requires sent[at + 20..at + 52] == entry[20..52] && sent[at + 52..at + 68] == entry[52..68]
    ensures ReceivedOf(sent, at, end) == [RECEIVED] + entry[20..52] + entry[52..68] + rest
  {
    Rejoined([RECEIVED] + entry[20..52] + entry[52..68], sent, end);
  }

  lemma RestAt(before: bytes, tail: bytes, n: nat)
    requires n <= |tail|
    ensures (before + tail)[|before| + n..] == tail[n..]
  {
  }

  lemma Rejoined(start: bytes, sent: bytes, end: nat)
    requires end + 32 <= |sent|
    ensures start + sent[end..end + 32] + sent[end + 32..] == start + sent[end..]
  {
    assert sent[end..] == sent[end..end + 32] + sent[end + 32..];
  }

  /// What dispatch makes of a sent message with well-formed entries.
  lemma Dispatched(head: bytes, entries: seq<Entry>, ePub: Key, sealed: bytes, rs: seq<Recipient>, id: ServiceId, device: byte)
    requires |entries| == |rs| && head == [SENT] + VarintBytes(|rs|)
    requires forall k :: 0 <= k < |rs| ==> entries[k][..17] == rs[k].id && entries[k][17] == rs[k].device
    requires |head + Concat(entries) + (ePub + sealed)| < TWO64
    ensures var k := FirstNamed(rs, 0, id, device);
      Dispatch(head + Concat(entries) + (ePub + sealed), id, device)
        == if k == |rs| then Err(InvalidKeyIdentifier)
           else Ok([RECEIVED] + entries[k][20..52] + entries[k][52..68] + ePub + sealed)
  {
    hide VarintBytes, Concat, ReadCount, FindEntry, FirstNamed, ReceivedOf;
    var tail := ePub + sealed;
    var sent := head + Concat(entries) + tail;
    ConcatLength(entries);
    assert sent[1..] == VarintBytes(|rs|) + (Concat(entries) + tail);
    CountRead(|rs|, Concat(entries) + tail);
    SearchIs(head, entries, tail, rs, 0, id, device);
    var k := FirstNamed(rs, 0, id, device);
    if k < |rs| {
      assert [] + tail == tail && tail[50 * 0..] == tail;
      ShiftedParts(head, entries, [], tail, k, 0);
      var start := [RECEIVED] + entries[k][20..52] + entries[k][52..68];
      assert start + tail == start + ePub + sealed;
    }
  }

  /// With no excluded ids, for every device: dispatch takes the first entry that names it, and with
  /// its identity key that opens to the message; a device that is not listed has no entry.
  lemma EndToEnd(s: Suite, message: bytes, sPriv: Key, rs: seq<Recipient>, m: Key, id: ServiceId, device: byte, rPriv: Key)
    requires DhLaw(s) && SealLaw(s)
    requires EncryptV2(s, message, sPriv, rs, [], m).Ok? && |EncryptV2(s, message, sPriv, rs, [], m).value| < TWO64
    ensures var sent := EncryptV2(s, message, sPriv, rs, [], m).value;
      var k := FirstNamed(rs, 0, id, device);
      var dispatched := Dispatch(sent, id, device);
      && (k == |rs| ==> dispatched == Err(InvalidKeyIdentifier))
      && (k < |rs| ==> dispatched.Ok?)
      && (k < |rs| && rs[k].identity == s.pub(rPriv) ==>
            DecryptV2(s, dispatched.value, rPriv, rs[k].identity, s.pub(sPriv)) == Ok(message))
  {
    hide VarintBytes, Concat, SealEntry, Dispatch, EphemeralPublic, MessageKey, OpenV2;
    var entries := SealEntries(s, m, sPriv, rs).value;
    EntriesNamed(s, m, sPriv, rs);
    EntriesLength(s, m, sPriv, rs);
    var head := [SENT] + VarintBytes(|rs|);
    var ePub, sealed := EphemeralPublic(s, m), s.seal(MessageKey(s, m), message);
    assert EncryptV2(s, message, sPriv, rs, [], m).value == head + Concat(entries) + (ePub + sealed) by { NoneExcluded(); }
    Dispatched(head, entries, ePub, sealed, rs, id, device);
    var k := FirstNamed(rs, 0, id, device);
    if k < |rs| && rs[k].identity == s.pub(rPriv) {
      ReceivedParts(entries[k][20..52], entries[k][52..68], ePub, sealed);
      EntryOpens(s, m, sPriv, rs[k], rPriv, message);
    }
  }

  lemma ReceivedParts(c: Key, at: Block, ePub: Key, sealed: bytes)
    ensures var r := [RECEIVED] + c + at + ePub + sealed;
      |r| == 81 + |sealed| && r[0] == RECEIVED
      && r[1..33] == c && r[33..49] == at && r[49..81] == ePub && r[81..] == sealed
  {
  }

  lemma {:induction false} ExcludedLength(ids: seq<ServiceId>)
    ensures |ExcludedBytes(ids)| == 18 * |ids|
  {
    if ids != [] {
      ExcludedLength(ids[..|ids| - 1]);
    }
  }

  /// The parts of a sent message, when ids are excluded.
  lemma SentIs(s: Suite, message: bytes, sPriv: Key, rs: seq<Recipient>, excluded: seq<ServiceId>, m: Key)
    requires SealLaw(s) && EncryptV2(s, message, sPriv, rs, excluded, m).Ok?
    ensures SealEntries(s, m, sPriv, rs).Ok? && |SealEntries(s, m, sPriv, rs).value| == |rs|
    ensures var n := |rs| + |excluded|;
      var entries := SealEntries(s, m, sPriv, rs).value;
      var sent := EncryptV2(s, message, sPriv, rs, excluded, m).value;
      var head, tail := [SENT] + VarintBytes(n), Suffix(s, m, message);
      && sent == head + Concat(entries) + (ExcludedBytes(excluded) + tail) && sent[0] == 0x23
      && sent[1..] == VarintBytes(n) + (Concat(entries) + (ExcludedBytes(excluded) + tail))
      && |Concat(entries)| == ENTRY_LEN * |rs| && |ExcludedBytes(excluded)| == 18 * |excluded|
      && |tail| == |message| + 48
  {
    hide VarintBytes, Concat, SealEntry, EphemeralPublic, MessageKey, ExcludedBytes;
    EntriesLength(s, m, sPriv, rs);
    ConcatLength(SealEntries(s, m, sPriv, rs).value);
    ExcludedLength(excluded);
  }

  /// Excluded ids are counted like recipients but take 50 bytes less: dispatch then refuses every
  /// device as soon as the sealed message is too short to make up for them, and only then.
  lemma ExcludedMisread(s: Suite, message: bytes, sPriv: Key, rs: seq<Recipient>, excluded: seq<ServiceId>, m: Key, id: ServiceId, device: byte)
    requires SealLaw(s)
    requires EncryptV2(s, message, sPriv, rs, excluded, m).Ok?
    requires 68 * (|rs| + |excluded|) + 100 < TWO64
    ensures var sent := EncryptV2(s, message, sPriv, rs, excluded, m).value;
      Dispatch(sent, id, device) == Err(InvalidMessage) <==> |message| + 16 < 50 * |excluded|
  {
    hide VarintBytes, Concat, SealEntries, ReadCount, FindEntry, ExcludedBytes, Suffix, EncryptV2;
    var n := |rs| + |excluded|;
    SentIs(s, message, sPriv, rs, excluded, m);
    CountRead(n, Concat(SealEntries(s, m, sPriv, rs).value) + (ExcludedBytes(excluded) + Suffix(s, m, message)));
    VarintLength(n);
  }

  /// Entries after the first that matches do not change the search.
  lemma {:induction false} FindAmongMore(sent: bytes, start: nat, count: nat, more: nat, i: nat, id: ServiceId, device: byte)
    requires i <= count <= more && start + more * ENTRY_LEN <= |sent|
    ensures start + count * ENTRY_LEN <= |sent|
    ensures var k := FindEntry(sent, start, count, i, id, device);
      FindEntry(sent, start, more, i, id, device) == if k < count then k else FindEntry(sent, start, more, count, id, device)
    decreases count - i
  {
    assert count * ENTRY_LEN <= more * ENTRY_LEN;
    if i < count {
      FindNext(sent, start, count, i, id, device);
      FindNext(sent, start, more, i, id, device);
      FindAmongMore(sent, start, count, more, i + 1, id, device);
    }
  }

  /// What dispatch takes for the entries: those of the recipients first, then whatever follows.
  lemma SearchWithExcluded(head: bytes, entries: seq<Entry>, tail: bytes, rs: seq<Recipient>, n: nat, id: ServiceId, device: byte)
    requires |entries| == |rs| <= n
    requires forall k :: 0 <= k < |rs| ==> entries[k][..17] == rs[k].id && entries[k][17] == rs[k].device
    requires |head| + n * ENTRY_LEN <= |head + Concat(entries) + tail|
    ensures var sent := head + Concat(entries) + tail;
      var k := FirstNamed(rs, 0, id, device);
      FindEntry(sent, |head|, n, 0, id, device) == if k < |rs| then k else FindEntry(sent, |head|, n, |rs|, id, device)
  {
    hide Concat, FindEntry, FirstNamed;
    SearchIs(head, entries, tail, rs, 0, id, device);
    FindAmongMore(head + Concat(entries) + tail, |head|, |rs|, n, 0, id, device);
  }

  /// What a listed device is dispatched when ids are excluded: its own entry, but the rest of the
  /// message from 50 bytes further on for each of them.
  lemma ExcludedShifts(s: Suite, message: bytes, sPriv: Key, rs: seq<Recipient>, excluded: seq<ServiceId>, m: Key, id: ServiceId, device: byte)
    requires SealLaw(s)
    requires EncryptV2(s, message, sPriv, rs, excluded, m).Ok?
    requires 68 * (|rs| + |excluded|) + 100 < TWO64
    requires FirstNamed(rs, 0, id, device) < |rs| && |message| + 16 >= 50 * |excluded|
    ensures SealEntries(s, m, sPriv, rs).Ok? && |SealEntries(s, m, sPriv, rs).value| == |rs|
    ensures |Suffix(s, m, message)| == |message| + 48
    ensures var entry := SealEntries(s, m, sPriv, rs).value[FirstNamed(rs, 0, id, device)];
      Dispatch(EncryptV2(s, message, sPriv, rs, excluded, m).value, id, device)
        == Ok([RECEIVED] + entry[20..52] + entry[52..68] + Suffix(s, m, message)[50 * |excluded|..])
  {
    hide VarintBytes, Concat, SealEntries, ReadCount, FindEntry, ExcludedBytes, Suffix, EncryptV2, FirstNamed, ReceivedOf;
    var n := |rs| + |excluded|;
    SentIs(s, message, sPriv, rs, excluded, m);
    var entries := SealEntries(s, m, sPriv, rs).value;
    EntriesNamed(s, m, sPriv, rs);
    var head, tail := [SENT] + VarintBytes(n), ExcludedBytes(excluded) + Suffix(s, m, message);
    CountRead(n, Concat(entries) + tail);
    VarintLength(n);
    SearchWithExcluded(head, entries, tail, rs, n, id, device);
    var k := FirstNamed(rs, 0, id, device);
    ShiftedParts(head, entries, ExcludedBytes(excluded), Suffix(s, m, message), k, |excluded|);
  }

  /// Dispatch gives a listed device what it would be given with no excluded ids exactly when there
  /// are none.
  lemma DispatchedExactly(s: Suite, message: bytes, sPriv: Key, rs: seq<Recipient>, excluded: seq<ServiceId>, m: Key, id: ServiceId, device: byte)
    requires SealLaw(s)
    requires EncryptV2(s, message, sPriv, rs, excluded, m).Ok? && EncryptV2(s, message, sPriv, rs, [], m).Ok?
    requires 68 * (|rs| + |excluded|) + 100 < TWO64
    requires FirstNamed(rs, 0, id, device) < |rs|
    ensures (Dispatch(EncryptV2(s, message, sPriv, rs, excluded, m).value, id, device)
             == Dispatch(EncryptV2(s, message, sPriv, rs, [], m).value, id, device))
            <==> excluded == []
  {
    hide SealEntries, Suffix, EncryptV2, FirstNamed, Dispatch;
    ExcludedShifts(s, message, sPriv, rs, [], m, id, device);
    ExcludedMisread(s, message, sPriv, rs, excluded, m, id, device);
    if excluded != [] && |message| + 16 >= 50 * |excluded| {
      ExcludedShifts(s, message, sPriv, rs, excluded, m, id, device);
      var tail := Suffix(s, m, message);
      assert |tail[50 * |excluded|..]| < |tail[50 * 0..]|;
    }
  }

  /// The first excluded id is dispatched as if it were the recipient's, for device 0.
  lemma ExcludedDispatched(s: Suite, message: bytes, sPriv: Key, rs: seq<Recipient>, excluded: seq<ServiceId>, m: Key)
    requires SealLaw(s)
    requires EncryptV2(s, message, sPriv, rs, excluded, m).Ok?
    requires 68 * (|rs| + |excluded|) + 100 < TWO64
    requires excluded != [] && |message| + 16 >= 50 * |excluded|
    ensures Dispatch(EncryptV2(s, message, sPriv, rs, excluded, m).value, excluded[0], 0).Ok?
  {
    hide VarintBytes, Concat, SealEntries, ReadCount, FindEntry, ExcludedBytes, Suffix, EncryptV2, FirstNamed, ReceivedOf;
    var n := |rs| + |excluded|;
    SentIs(s, message, sPriv, rs, excluded, m);
    var entries := SealEntries(s, m, sPriv, rs).value;
    EntriesNamed(s, m, sPriv, rs);
    var head, tail := [SENT] + VarintBytes(n), ExcludedBytes(excluded) + Suffix(s, m, message);
    var sent := head + Concat(entries) + tail;
    CountRead(n, Concat(entries) + tail);
    VarintLength(n);
    SearchWithExcluded(head, entries, tail, rs, n, excluded[0], 0);
    FindNext(sent, |head|, n, |rs|, excluded[0], 0);
    FirstExcluded(excluded);
    var at := |head| + |rs| * ENTRY_LEN;
    assert sent[at..] == tail;
    assert sent[at..at + 17] == tail[..17] && sent[at + 17] == tail[17];
  }

  lemma {:induction false} FirstExcluded(ids: seq<ServiceId>)
    requires ids != []
    ensures |ExcludedBytes(ids)| >= 18 && ExcludedBytes(ids)[..17] == ids[0] && ExcludedBytes(ids)[17] == 0
  {
    if |ids| > 1 {
      FirstExcluded(ids[..|ids| - 1]);
    } else {
      NoneExcluded();
      assert ids[..0] == [];
      assert ExcludedBytes(ids) == ids[0] + [0];
    }
  }
}
