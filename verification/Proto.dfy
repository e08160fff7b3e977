/// The wire codec of src/proto.zig.
module Proto {
  import opened Bytes

  // ---------------------------------------------------------------- varints

  function VarintBytes(v: nat): (s: bytes)
    ensures |s| >= 1
  {
    if v < 128 then [v as byte] else [(v % 128 + 128) as byte] + VarintBytes(v / 128)
  }

  /// What parsing yields: a value and the number of bytes it took.
  datatype Parsed<+T> = Got(value: T, used: nat) | Failed(error: Error)

  /// A varint at the start of s.  The accumulator is below 2^shift, so the source's `|` is a sum;
  /// the shift counter has six bits, and adding 7 to 63 traps.
  function ParseVarint(s: bytes, acc: nat, shift: nat): Parsed<nat>
    requires shift <= 63
  {
    if s == [] then Failed(Truncated)
    else
      var acc' := acc + (s[0] as nat % 128) * Pow2(shift) % TWO64;
      if s[0] < 128 then Got(acc', 1)
      else if shift + 7 > 63 then Failed(Panic)
      else
        match ParseVarint(s[1..], acc', shift + 7)
        case Got(v, used) => Got(v, used + 1)
        case Failed(e) => Failed(e)
  }

  method DecodeVarint(buf: bytes, pos: nat) returns (r: Parsed<nat>)
    requires pos <= |buf|
    ensures r == ParseVarint(buf[pos..], 0, 0)
  {
    var result: nat, shift: nat, p := 0, 0, pos;
    while p < |buf|
      invariant pos <= p <= |buf| && shift <= 63
      invariant ParseVarint(buf[pos..], 0, 0) ==
        match ParseVarint(buf[p..], result, shift)
        case Got(v, used) => Got(v, used + p - pos)
        case Failed(e) => Failed(e)
    {
      var b := buf[p];
      assert buf[p..][1..] == buf[p + 1..];
      p := p + 1;
      result := result + (b as nat % 128) * Pow2(shift) % TWO64;
      if b < 128 {
        return Got(result, p - pos);
      }
      if shift + 7 > 63 {
        return Failed(Panic);
      }
      shift := shift + 7;
    }
    return Failed(Truncated);
  }

  method EncodeVarint(value: u64, buf: array<byte>) returns (n: nat)
    requires buf.Length >= 10
    modifies buf
    ensures n <= 10 && buf[..n] == VarintBytes(value)
  {
    hide VarintBytes;
    VarintLength(value);
    var v: nat := value;
    n := 0;
    while true
      invariant n + |VarintBytes(v)| == |VarintBytes(value)| <= 10
      invariant buf[..n] + VarintBytes(v) == VarintBytes(value)
      decreases v
    {
      VarintUnfold(v);
      ghost var done := buf[..n];
      buf[n] := (v % 128) as byte;
      if v / 128 == 0 {
        n := n + 1;
        assert buf[..n] == done + VarintBytes(v);
        break;
      }
      buf[n] := buf[n] + 128;
      n := n + 1;
      assert buf[..n] == done + [(v % 128 + 128) as byte];
      v := v / 128;
    }
  }

  lemma VarintUnfold(v: nat)
    ensures v < 128 ==> VarintBytes(v) == [(v % 128) as byte]
    ensures v >= 128 ==> VarintBytes(v) == [(v % 128 + 128) as byte] + VarintBytes(v / 128)
  {
  }

  function Pow128(n: nat): nat {
    if n == 0 then 1 else 128 * Pow128(n - 1)
  }

  lemma {:induction false} VarintLengthBound(v: nat, n: nat)
    requires n > 0 && v < Pow128(n)
    ensures |VarintBytes(v)| <= n
  {
    if v >= 128 {
      VarintLengthBound(v / 128, n - 1);
    }
  }

  /// Varints of 64-bit values take at most 10 bytes.
  lemma VarintLength(v: u64)
    ensures |VarintBytes(v)| <= 10
  {
    assert Pow128(10) >= TWO64 by {
      assert Pow128(5) == 0x8_0000_0000;
      assert Pow128(10) == 128 * 128 * 128 * 128 * 128 * Pow128(5);
    }
    VarintLengthBound(v, 10);
  }

  lemma SplitProduct(v: nat, p: nat)
    ensures (v % 128) * p + (v / 128) * (128 * p) == v * p
    ensures (v % 128) * p <= v * p && (v / 128) * (128 * p) <= v * p
    ensures v >= 128 ==> 128 * p <= v * p
  {
    var q, r := v / 128, v % 128;
    assert v == 128 * q + r;
    assert v * p == 128 * q * p + r * p;
    assert q * (128 * p) == 128 * q * p;
  }

  lemma Pow2Shift(shift: nat)
    ensures Pow2(shift + 7) == 128 * Pow2(shift)
  {
    assert Pow2(shift + 2) == 4 * Pow2(shift);
    assert Pow2(shift + 4) == 4 * Pow2(shift + 2);
    assert Pow2(shift + 6) == 4 * Pow2(shift + 4);
  }

  /// The shifts that occur are those below 64.
  lemma ShiftFits(shift: nat)
    requires shift % 7 == 0 && shift <= 63 && 128 * Pow2(shift) < TWO64
    ensures shift + 7 <= 63
  {
    if shift == 63 {
      Pow2Shift(0);
      Pow2Shift(7);
      Pow2Shift(14);
      Pow2Shift(21);
      Pow2Shift(28);
      Pow2Shift(35);
      Pow2Shift(42);
      Pow2Shift(49);
      Pow2Shift(56);
    }
  }

  /// A varint decodes to the value it encodes and leaves the rest alone.
  lemma {:induction false} VarintRoundTripAt(v: nat, rest: bytes, acc: nat, shift: nat)
    requires shift <= 63 && shift % 7 == 0 && v * Pow2(shift) < TWO64
    ensures ParseVarint(VarintBytes(v) + rest, acc, shift) == Got(acc + v * Pow2(shift), |VarintBytes(v)|)
    decreases v
  {
    var p := Pow2(shift);
    SplitProduct(v, p);
    if v < 128 {
      VarintLast(v, rest, acc, shift);
    } else {
      Pow2Shift(shift);
      ShiftFits(shift);
      VarintRoundTripAt(v / 128, rest, acc + (v % 128) * p, shift + 7);
      VarintNext(v, rest, acc, shift);
    }
  }

  lemma VarintLast(v: nat, rest: bytes, acc: nat, shift: nat)
    requires shift <= 63 && v < 128 && v * Pow2(shift) < TWO64
    ensures ParseVarint(VarintBytes(v) + rest, acc, shift) == Got(acc + v * Pow2(shift), 1)
  {
    hide Pow2;
    var s := VarintBytes(v) + rest;
    var p := Pow2(shift);
    assert VarintBytes(v) == [v as byte];
    assert s[0] == v as byte;
    assert v % 128 == v && v * p % TWO64 == v * p;
  }

  lemma VarintNext(v: nat, rest: bytes, acc: nat, shift: nat)
    requires shift + 7 <= 63 && v >= 128 && (v % 128) * Pow2(shift) < TWO64
    ensures ParseVarint(VarintBytes(v) + rest, acc, shift)
         == match ParseVarint(VarintBytes(v / 128) + rest, acc + (v % 128) * Pow2(shift), shift + 7)
            case Got(w, used) => Got(w, used + 1)
            case Failed(e) => Failed(e)
  {
    hide Pow2;
    var s := VarintBytes(v) + rest;
    assert s[0] as nat % 128 == v % 128;
    assert s[1..] == VarintBytes(v / 128) + rest;
  }

  lemma VarintRoundTrip(v: u64, rest: bytes)
    ensures ParseVarint(VarintBytes(v) + rest, 0, 0) == Got(v, |VarintBytes(v)|)
  {
    assert v * Pow2(0) == v;
    VarintRoundTripAt(v, rest, 0, 0);
  }

  /// Every byte of s before k has its continuation bit set.
  predicate AllContinue(s: bytes, k: nat)
    requires k <= |s|
  {
    forall i :: 0 <= i < k ==> s[i] >= 128
  }

  /// Exactly when varint parsing fails: the input ends inside the varint, or a tenth byte still has
  /// its continuation bit set and the shift counter traps.  `Overflow` is never returned.
  lemma {:induction false} VarintOutcome(s: bytes, acc: nat, k: nat)
    requires 1 <= k <= 10
    ensures var r := ParseVarint(s, acc, 7 * (10 - k));
      && (r == Failed(Panic) <==> |s| >= k && AllContinue(s, k))
      && (r == Failed(Truncated) <==> |s| < k && AllContinue(s, |s|))
      && (r.Failed? ==> r.error == Panic || r.error == Truncated)
      && (r.Got? ==> 1 <= r.used <= |s| && r.used <= k)
    decreases k
  {
    if s != [] && s[0] >= 128 && k > 1 {
      var acc' := acc + (s[0] as nat % 128) * Pow2(7 * (10 - k)) % TWO64;
      VarintOutcome(s[1..], acc', k - 1);
      assert forall n: nat :: n < |s| ==> (AllContinue(s, n + 1) <==> AllContinue(s[1..], n)) by {
        forall n: nat | n < |s| ensures AllContinue(s, n + 1) <==> AllContinue(s[1..], n) {
          assert forall i :: 0 <= i < n ==> s[1..][i] == s[i + 1];
          if AllContinue(s[1..], n) {
            forall i | 0 <= i < n + 1 ensures s[i] >= 128 {
              if i > 0 {
                assert s[1..][i - 1] >= 128;
              }
            }
          }
        }
      }
    }
  }

  // ---------------------------------------------------------------- fields

  datatype Field =
    | Varint(number: nat, varint: nat)
    | Fixed64(number: nat, fixed: nat)
    | Len(number: nat, data: bytes)
    | Fixed32(number: nat, fixed32: nat)

  /// nextField at pos < |buf|: the field and the number of bytes it takes.  Wire types 3, 4, 6
  /// and 7 are no values of the source's enum, and pos + length can leave 64 bits: both trap.
  function ParseField(buf: bytes, pos: nat): Parsed<Field>
    requires pos < |buf|
  {
    match ParseVarint(buf[pos..], 0, 0)
    case Failed(e) => Failed(e)
    case Got(tag, n) =>
      var number := tag / 8 % TWO32;
      VarintOutcome(buf[pos..], 0, 10);
      var rest := buf[pos + n..];
      if number == 0 then Failed(InvalidTag)
      else if tag % 8 == 0 then
        (match ParseVarint(rest, 0, 0)
         case Failed(e) => Failed(e)
         case Got(v, m) => Got(Varint(number, v), n + m))
      else if tag % 8 == 1 then
        if |rest| < 8 then Failed(Truncated) else Got(Fixed64(number, FromLittleEndian(rest[..8])), n + 8)
      else if tag % 8 == 2 then
        (match ParseVarint(rest, 0, 0)
         case Failed(e) => Failed(e)
         case Got(len, m) =>
           VarintOutcome(rest, 0, 10);
           if pos + n + m + len >= TWO64 then Failed(Panic)
           else if len > |rest| - m then Failed(Truncated)
           else Got(Len(number, rest[m..m + len]), n + m + len))
      else if tag % 8 == 5 then
        if |rest| < 4 then Failed(Truncated) else Got(Fixed32(number, FromLittleEndian(rest[..4])), n + 4)
      else Failed(Panic)
  }

  lemma FieldProgress(buf: bytes, pos: nat)
    requires pos < |buf|
    ensures var r := ParseField(buf, pos); r.Got? ==> 1 <= r.used <= |buf| - pos
  {
    hide ParseVarint, FromLittleEndian;
    VarintOutcome(buf[pos..], 0, 10);
    match ParseVarint(buf[pos..], 0, 0)
    case Failed(_) =>
    case Got(_, n) => VarintOutcome(buf[pos + n..], 0, 10);
  }

  method NextField(buf: bytes, pos: nat) returns (r: Parsed<Field>)
    requires pos < |buf|
    ensures r == ParseField(buf, pos)
  {
    hide ParseVarint, FromLittleEndian;
    var tag := DecodeVarint(buf, pos);
    VarintOutcome(buf[pos..], 0, 10);
    if tag.Failed? {
      return Failed(tag.error);
    }
    var p := pos + tag.used;
    var number := tag.value / 8 % TWO32;
    if number == 0 {
      return Failed(InvalidTag);
    }
    match tag.value % 8
    case 0 =>
      var v := DecodeVarint(buf, p);
      r := if v.Failed? then Failed(v.error) else Got(Varint(number, v.value), tag.used + v.used);
    case 1 =>
      if p + 8 > |buf| {
        return Failed(Truncated);
      }
      assert buf[p..][..8] == buf[p..p + 8];
      r := Got(Fixed64(number, FromLittleEndian(buf[p..p + 8])), tag.used + 8);
    case 2 =>
      var len := DecodeVarint(buf, p);
      VarintOutcome(buf[p..], 0, 10);
      if len.Failed? {
        return Failed(len.error);
      }
      p := p + len.used;
      if p + len.value >= TWO64 {
        return Failed(Panic);
      }
      if p + len.value > |buf| {
        return Failed(Truncated);
      }
      assert buf[pos + tag.used..][len.used..len.used + len.value] == buf[p..p + len.value];
      r := Got(Len(number, buf[p..p + len.value]), tag.used + len.used + len.value);
    case 5 =>
      if p + 4 > |buf| {
        return Failed(Truncated);
      }
      assert buf[p..][..4] == buf[p..p + 4];
      r := Got(Fixed32(number, FromLittleEndian(buf[p..p + 4])), tag.used + 4);
    case _ =>
      r := Failed(Panic);
  }

  // ---------------------------------------------------------------- whole messages

  /// The fields read by a loop over nextField, up to the end of the input or the first error.
  datatype Fields = Fields(list: seq<Field>, error: Option<Error>)

  function ParseFields(buf: bytes, pos: nat): Fields
    requires pos <= |buf|
    decreases |buf| - pos
  {
    if pos == |buf| then Fields([], None)
    else
      FieldProgress(buf, pos);
      match ParseField(buf, pos)
      case Failed(e) => Fields([], Some(e))
      case Got(f, n) =>
        var rest := ParseFields(buf, pos + n);
        Fields([f] + rest.list, rest.error)
  }

  /// The body of a parsing loop folded over a list of fields, up to the first failing step.
  function Fold<A>(step: (A, Field) -> Result<A>, acc: A, fs: seq<Field>): Result<A> {
    if fs == [] then Ok(acc)
    else
      match step(acc, fs[0])
      case Err(e) => Err(e)
      case Ok(a) => Fold(step, a, fs[1..])
  }

  /// What the loop `while (try nextField(...))` leaves in its locals.
  function Scan<A>(step: (A, Field) -> Result<A>, acc: A, buf: bytes): Result<A> {
    var p := ParseFields(buf, 0);
    var r := Fold(step, acc, p.list);
    if r.Ok? && p.error.Some? then Err(p.error.value) else r
  }

  /// The parsing loop of every deserializer, with the switch as a parameter.
  method ScanLoop<A>(step: (A, Field) -> Result<A>, init: A, buf: bytes) returns (r: Result<A>)
    ensures r == Scan(step, init, buf)
  {
    hide ParseField;
    var acc, pos := init, 0;
    while pos < |buf|
      invariant pos <= |buf|
      invariant Scan(step, init, buf) ==
        var p := ParseFields(buf, pos);
        var r := Fold(step, acc, p.list);
        if r.Ok? && p.error.Some? then Err(p.error.value) else r
      decreases |buf| - pos
    {
      var f := NextField(buf, pos);
      FieldProgress(buf, pos);
      if f.Failed? {
        return Err(f.error);
      }
      var rest := ParseFields(buf, pos + f.used);
      assert ([f.value] + rest.list)[1..] == rest.list;
      var next := step(acc, f.value);
      if next.Err? {
        return next;
      }
      acc := next.value;
      pos := pos + f.used;
    }
    r := Ok(acc);
  }

  lemma {:induction false} FoldConcat<A>(step: (A, Field) -> Result<A>, acc: A, fs: seq<Field>, gs: seq<Field>)
    ensures Fold(step, acc, fs + gs)
         == var r := Fold(step, acc, fs); if r.Err? then r else Fold(step, r.value, gs)
  {
    if fs == [] {
      assert fs + gs == gs;
    } else {
      assert (fs + gs)[0] == fs[0] && (fs + gs)[1..] == fs[1..] + gs;
      var next := step(acc, fs[0]);
      if next.Ok? {
        FoldConcat(step, next.value, fs[1..], gs);
      }
    }
  }

  // ---------------------------------------------------------------- encoding

  /// The fields the Encoder can write.
  predicate Encodable(f: Field) {
    && 0 < f.number < TWO32
    && match f
       case Varint(_, v) => v < TWO64
       case Fixed64(_, v) => v < TWO64
       case Len(_, data) => |data| < TWO64
       case Fixed32(_, _) => false
  }

  predicate AllEncodable(fs: seq<Field>) {
    forall i :: 0 <= i < |fs| ==> Encodable(fs[i])
  }

  function FieldBytes(f: Field): bytes {
    match f
    case Varint(k, v) => VarintBytes(8 * k) + VarintBytes(v)
    case Fixed64(k, v) => VarintBytes(8 * k + 1) + LittleEndian(v, 8)
    case Len(k, data) => VarintBytes(8 * k + 2) + VarintBytes(|data|) + data
    case Fixed32(k, v) => VarintBytes(8 * k + 5) + LittleEndian(v, 4)
  }

  function FieldsBytes(fs: seq<Field>): bytes {
    if fs == [] then [] else FieldBytes(fs[0]) + FieldsBytes(fs[1..])
  }

  lemma {:induction false} FieldsBytesConcat(fs: seq<Field>, gs: seq<Field>)
    ensures FieldsBytes(fs + gs) == FieldsBytes(fs) + FieldsBytes(gs)
  {
    if fs == [] {
      assert fs + gs == gs;
    } else {
      assert (fs + gs)[0] == fs[0] && (fs + gs)[1..] == fs[1..] + gs;
      FieldsBytesConcat(fs[1..], gs);
    }
  }

  /// The Encoder: an output buffer that grows by one field a call.
  class Encoder {
    var buf: bytes
    ghost var fields: seq<Field>

    ghost predicate Valid()
      reads this
    {
      buf == FieldsBytes(fields) && AllEncodable(fields)
    }

    constructor ()
      ensures Valid() && fields == []
    {
      buf, fields := [], [];
    }

    method AppendVarint(value: u64)
      modifies this`buf
      ensures buf == old(buf) + VarintBytes(value)
    {
      var scratch := new byte[10];
      var n := EncodeVarint(value, scratch);
      buf := buf + scratch[..n];
    }

    method WriteVarintField(number: u32, value: u64)
      requires Valid() && number > 0
      modifies this
      ensures Valid() && fields == old(fields) + [Varint(number, value)]
    {
      hide VarintBytes, FieldsBytes;
      AppendVarint(8 * number);
      AppendVarint(value);
      Written(fields, Varint(number, value), buf);
      fields := fields + [Varint(number, value)];
    }

    method WriteBytesField(number: u32, data: bytes)
      requires Valid() && number > 0 && |data| < TWO64
      modifies this
      ensures Valid() && fields == old(fields) + [Len(number, data)]
    {
      hide VarintBytes, FieldsBytes;
      AppendVarint(8 * number + 2);
      AppendVarint(|data|);
      buf := buf + data;
      Written(fields, Len(number, data), buf);
      fields := fields + [Len(number, data)];
    }

    method WriteOptVarint(number: u32, value: Option<u32>)
      requires Valid() && number > 0
      modifies this
      ensures Valid() && fields == old(fields) + OptVarint(number, value)
    {
      if value.Some? {
        WriteVarintField(number, value.value);
      }
    }

    method WriteOptBytes(number: u32, data: Option<bytes>)
      requires Valid() && number > 0 && (data.Some? ==> |data.value| < TWO64)
      modifies this
      ensures Valid() && fields == old(fields) + OptLen(number, data)
    {
      if data.Some? {
        WriteBytesField(number, data.value);
      }
    }

    method WriteFixed64Field(number: u32, value: u64)
      requires Valid() && number > 0
      modifies this
      ensures Valid() && fields == old(fields) + [Fixed64(number, value)]
    {
      hide VarintBytes, FieldsBytes, LittleEndian;
      AppendVarint(8 * number + 1);
      buf := buf + LittleEndian(value, 8);
      Written(fields, Fixed64(number, value), buf);
      fields := fields + [Fixed64(number, value)];
    }
  }

  /// An optional field: written only when there is a value.
  function OptVarint(number: nat, v: Option<u32>): seq<Field> {
    if v.Some? then [Varint(number, v.value)] else []
  }

  function OptLen(number: nat, data: Option<bytes>): seq<Field> {
    if data.Some? then [Len(number, data.value)] else []
  }

  lemma Written(fields: seq<Field>, f: Field, buf: bytes)
    requires buf == FieldsBytes(fields) + FieldBytes(f)
    ensures buf == FieldsBytes(fields + [f])
  {
    FieldsBytesConcat(fields, [f]);
    assert FieldsBytes([f]) == FieldBytes(f) + [];
  }

  lemma TagFits(k: u32, wire: nat)
    requires wire < 8
    ensures 8 * k + wire < TWO64 && (8 * k + wire) % 8 == wire && (8 * k + wire) / 8 % TWO32 == k
  {
  }

  lemma VarintFieldRoundTrip(buf: bytes, pos: nat, k: u32, v: u64, rest: bytes)
    requires pos <= |buf| && k > 0
    requires buf[pos..] == FieldBytes(Varint(k, v)) + rest
    ensures pos < |buf| && ParseField(buf, pos) == Got(Varint(k, v), |FieldBytes(Varint(k, v))|)
  {
    hide ParseVarint, VarintBytes;
    TagFits(k, 0);
    var tag, body := VarintBytes(8 * k), VarintBytes(v);
    assert buf[pos..] == tag + (body + rest);
    VarintRoundTrip(8 * k, body + rest);
    assert buf[pos + |tag|..] == body + rest;
    VarintRoundTrip(v, rest);
  }

  lemma Fixed64FieldRoundTrip(buf: bytes, pos: nat, k: u32, v: u64, rest: bytes)
    requires pos <= |buf| && k > 0
    requires buf[pos..] == FieldBytes(Fixed64(k, v)) + rest
    ensures pos < |buf| && ParseField(buf, pos) == Got(Fixed64(k, v), |FieldBytes(Fixed64(k, v))|)
  {
    hide ParseVarint, VarintBytes, LittleEndian, FromLittleEndian;
    TagFits(k, 1);
    var tag, body := VarintBytes(8 * k + 1), LittleEndian(v, 8);
    assert buf[pos..] == tag + (body + rest);
    VarintRoundTrip(8 * k + 1, body + rest);
    assert buf[pos + |tag|..] == body + rest;
    assert (body + rest)[..8] == body;
    Fixed64RoundTrip(v);
  }

  lemma LenFieldRoundTrip(buf: bytes, pos: nat, k: u32, data: bytes, rest: bytes)
    requires pos <= |buf| < TWO64 && k > 0
    requires buf[pos..] == FieldBytes(Len(k, data)) + rest
    ensures pos < |buf| && ParseField(buf, pos) == Got(Len(k, data), |FieldBytes(Len(k, data))|)
  {
    hide ParseVarint, VarintBytes;
    TagFits(k, 2);
    var tag, len := VarintBytes(8 * k + 2), VarintBytes(|data|);
    assert buf[pos..] == tag + (len + (data + rest));
    VarintRoundTrip(8 * k + 2, len + (data + rest));
    assert buf[pos + |tag|..] == len + (data + rest);
    VarintRoundTrip(|data|, data + rest);
    assert (len + (data + rest))[|len|..|len| + |data|] == data;
  }

  /// A written field is read back, whatever follows it.
  lemma FieldRoundTrip(buf: bytes, pos: nat, f: Field, rest: bytes)
    requires pos <= |buf| < TWO64 && Encodable(f)
    requires buf[pos..] == FieldBytes(f) + rest
    ensures pos < |buf| && ParseField(buf, pos) == Got(f, |FieldBytes(f)|)
  {
    hide ParseField, FieldBytes;
    match f
    case Varint(k, v) => VarintFieldRoundTrip(buf, pos, k, v, rest);
    case Fixed64(k, v) => Fixed64FieldRoundTrip(buf, pos, k, v, rest);
    case Len(k, data) => LenFieldRoundTrip(buf, pos, k, data, rest);
  }

  lemma Fixed64RoundTrip(v: u64)
    ensures FromLittleEndian(LittleEndian(v, 8)) == v
  {
    assert Pow256(4) == TWO32;
    assert Pow256(8) == TWO64;
    LittleEndianRoundTrip(v, 8);
  }

  /// Reading back everything an Encoder wrote yields exactly the fields, and no error.
  lemma {:induction false} FieldsRoundTripAt(buf: bytes, pos: nat, fs: seq<Field>)
    requires pos <= |buf| < TWO64 && AllEncodable(fs)
    requires buf[pos..] == FieldsBytes(fs)
    ensures ParseFields(buf, pos) == Fields(fs, None)
    decreases |fs|
  {
    hide ParseField, FieldBytes;
    if fs != [] {
      var rest := FieldsBytes(fs[1..]);
      FieldRoundTrip(buf, pos, fs[0], rest);
      var n := |FieldBytes(fs[0])|;
      FieldProgress(buf, pos);
      assert buf[pos + n..] == rest;
      FieldsRoundTripAt(buf, pos + n, fs[1..]);
    }
  }

  lemma FieldsRoundTrip(fs: seq<Field>)
    requires AllEncodable(fs) && |FieldsBytes(fs)| < TWO64
    ensures ParseFields(FieldsBytes(fs), 0) == Fields(fs, None)
  {
    FieldsRoundTripAt(FieldsBytes(fs), 0, fs);
  }

  /// The bytes carried by a list of fields.
  function DataSize(fs: seq<Field>): nat {
    if fs == [] then 0 else (if fs[0].Len? then |fs[0].data| else 0) + DataSize(fs[1..])
  }

  lemma {:induction false} FieldsSize(fs: seq<Field>)
    requires AllEncodable(fs)
    ensures |FieldsBytes(fs)| <= 20 * |fs| + DataSize(fs)
  {
    hide VarintBytes, LittleEndian;
    if fs != [] {
      var f := fs[0];
      assert Encodable(f);
      match f {
        case Varint(k, v) => VarintLength(8 * k); VarintLength(v);
        case Fixed64(k, v) => VarintLength(8 * k + 1);
        case Len(k, data) => VarintLength(8 * k + 2); VarintLength(|data|);
      }
      FieldsSize(fs[1..]);
    }
  }

  /// Scanning what an Encoder wrote is folding over the fields.
  lemma ScanEncoded<A>(step: (A, Field) -> Result<A>, acc: A, fs: seq<Field>)
    requires AllEncodable(fs) && 20 * |fs| + DataSize(fs) < TWO64
    ensures Scan(step, acc, FieldsBytes(fs)) == Fold(step, acc, fs)
  {
    FieldsSize(fs);
    FieldsRoundTrip(fs);
  }

  /// Numbers and values in range, whatever the length of the data.
  predicate InRange(f: Field) {
    && 0 < f.number < TWO32
    && match f
       case Varint(_, v) => v < TWO64
       case Fixed64(_, v) => v < TWO64
       case Len(_, _) => true
       case Fixed32(_, _) => false
  }

  ghost predicate AllInRange(fs: seq<Field>) {
    forall i :: 0 <= i < |fs| ==> InRange(fs[i])
  }

  lemma InRangeConcat(fs: seq<Field>, gs: seq<Field>)
    requires AllInRange(fs) && AllInRange(gs)
    ensures AllInRange(fs + gs)
  {
  }

  lemma {:induction false} DataFits(fs: seq<Field>)
    requires AllInRange(fs)
    requires |FieldsBytes(fs)| < TWO64
    ensures AllEncodable(fs)
  {
    if fs != [] {
      assert |FieldBytes(fs[0])| < TWO64;
      assert Encodable(fs[0]);
      DataFits(fs[1..]);
      assert forall i :: 1 <= i < |fs| ==> fs[i] == fs[1..][i - 1];
    }
  }

  /// Whenever what was written fits the address space.
  lemma ScanWritten<A>(step: (A, Field) -> Result<A>, acc: A, fs: seq<Field>)
    requires AllInRange(fs)
    requires |FieldsBytes(fs)| < TWO64
    ensures Scan(step, acc, FieldsBytes(fs)) == Fold(step, acc, fs)
  {
    DataFits(fs);
    FieldsRoundTrip(fs);
  }
}
