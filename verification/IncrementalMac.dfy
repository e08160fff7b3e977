/// Streaming attachment MACs (src/incremental_mac.zig) and their FFI objects (src/ffi/crypto.zig).
module IncrementalMac {
  import opened Bytes
  import opened Crypto

  const MAC_LEN: nat := 32

  /// A chunk size the callers may use: with 0 the source loops for ever.
  type ChunkSize = n: nat | n > 0 witness 1

  function ChunkCount(total: nat, size: ChunkSize): nat {
    if total == 0 then 0 else (total + size - 1) / size
  }

  function MacBytesForSize(total: nat, size: ChunkSize): nat {
    ChunkCount(total, size) * MAC_LEN
  }

  // ---------------------------------------------------------------- the batch MAC list

  /// The MAC list of a whole text: one MAC a chunk, the last chunk padded with zeros.
  function Batch(s: Suite, key: Key, size: ChunkSize, data: bytes): bytes
    decreases |data|
  {
    if data == [] then []
    else if |data| < size then s.hmac(key, data + Zeros(size - |data|))
    else s.hmac(key, data[..size]) + Batch(s, key, size, data[size..])
  }

  /// The MACs of the full chunks of a text.
  function Complete(s: Suite, key: Key, size: ChunkSize, data: bytes): bytes
    decreases |data|
  {
    if |data| < size then [] else s.hmac(key, data[..size]) + Complete(s, key, size, data[size..])
  }

  /// What follows the full chunks.
  function Tail(size: ChunkSize, data: bytes): (t: bytes)
    ensures |t| < size
    decreases |data|
  {
    if |data| < size then data else Tail(size, data[size..])
  }

  /// The MAC of a last chunk, padded; no MAC for no bytes.
  function Last(s: Suite, key: Key, size: ChunkSize, tail: bytes): bytes
    requires |tail| < size
  {
    if tail == [] then [] else s.hmac(key, tail + Zeros(size - |tail|))
  }

  lemma {:induction false} BatchIs(s: Suite, key: Key, size: ChunkSize, data: bytes)
    ensures Batch(s, key, size, data) == Complete(s, key, size, data) + Last(s, key, size, Tail(size, data))
    decreases |data|
  {
    if |data| >= size {
      BatchIs(s, key, size, data[size..]);
    }
  }

  lemma CountStep(n: nat, size: ChunkSize)
    requires n >= size
    ensures ChunkCount(n, size) == ChunkCount(n - size, size) + 1
    ensures n / size == (n - size) / size + 1
  {
    AddOne(n - size, size);
    if n > size {
      AddOne(n - 1, size);
    } else {
      AddOne(size - 1, size);
    }
  }

  lemma AddOne(n: nat, size: ChunkSize)
    ensures (n + size) / size == n / size + 1
  {
    assert n + size == size * (n / size + 1) + n % size;
    DivisionUnique(n + size, size, n / size + 1, n % size);
  }

  lemma SmallQuotient(n: nat, size: ChunkSize)
    requires n < size
    ensures n / size == 0 && (n > 0 ==> ChunkCount(n, size) == 1)
  {
    if n > 0 {
      AddOne(n - 1, size);
    }
  }

  /// The list has the promised length.
  lemma {:induction false} BatchLength(s: Suite, key: Key, size: ChunkSize, data: bytes)
    ensures |Batch(s, key, size, data)| == MacBytesForSize(|data|, size)
    ensures |Complete(s, key, size, data)| == MAC_LEN * (|data| / size)
    decreases |data|
  {
    hide ChunkCount;
    if |data| < size {
      SmallQuotient(|data|, size);
      assert ChunkCount(0, size) == 0 by { ZeroCount(size); }
    } else {
      CountStep(|data|, size);
      BatchLength(s, key, size, data[size..]);
    }
  }

  lemma ZeroCount(size: ChunkSize)
    ensures ChunkCount(0, size) == 0
  {
  }

  /// Feeding at most the room left in the chunk.
  lemma {:induction false} Feed(s: Suite, key: Key, size: ChunkSize, data: bytes, more: bytes)
    requires |Tail(size, data)| + |more| <= size
    ensures var chunk := Tail(size, data) + more;
      if |chunk| < size then
        && Complete(s, key, size, data + more) == Complete(s, key, size, data)
        && Tail(size, data + more) == chunk
      else
        && Complete(s, key, size, data + more) == Complete(s, key, size, data) + s.hmac(key, chunk)
        && Tail(size, data + more) == []
    decreases |data|
  {
    var all := data + more;
    if |data| >= size {
      assert all[..size] == data[..size] && all[size..] == data[size..] + more;
      Feed(s, key, size, data[size..], more);
    } else if |all| == size {
      assert all[..size] == all && all[size..] == [];
    }
  }

  /// More data only appends MACs.
  lemma {:induction false} CompletePrefix(s: Suite, key: Key, size: ChunkSize, data: bytes, more: bytes)
    ensures Complete(s, key, size, data) <= Complete(s, key, size, data + more)
    decreases |data|
  {
    var all := data + more;
    if |data| >= size {
      assert all[..size] == data[..size] && all[size..] == data[size..] + more;
      CompletePrefix(s, key, size, data[size..], more);
    }
  }

  // ---------------------------------------------------------------- sender

  /// Incremental: `fed` is everything passed to Update since the start or the last Finalize.
  class Incremental {
    const suite: Suite
    const key: Key
    const chunkSize: ChunkSize
    const buf: array<byte>
    var bufLen: nat
    var macs: bytes
    ghost var fed: bytes

    ghost predicate Valid()
      reads this, buf
    {
      && buf.Length == chunkSize && bufLen < chunkSize
      && macs == Complete(suite, key, chunkSize, fed)
      && buf[..bufLen] == Tail(chunkSize, fed)
    }

    constructor (s: Suite, k: Key, size: ChunkSize)
      ensures Valid() && fresh(buf) && fed == [] && suite == s && key == k && chunkSize == size
    {
      suite, key, chunkSize := s, k, size;
      buf := new byte[size];
      bufLen, macs, fed := 0, [], [];
    }

    method Update(data: bytes)
      requires Valid()
      modifies this, buf
      ensures Valid() && fed == old(fed) + data
    {
      hide Complete, Tail;
      var i := 0;
      while i < |data|
        invariant 0 <= i <= |data| && Valid() && fed == old(fed) + data[..i]
      {
        var space := chunkSize - bufLen;
        var take := if space < |data| - i then space else |data| - i;
        ghost var held := buf[..bufLen];
        Copy(buf, bufLen, data[i..i + take]);
        Feed(suite, key, chunkSize, fed, data[i..i + take]);
        bufLen := bufLen + take;
        ghost var chunk := buf[..bufLen];
        assert chunk == held + data[i..i + take];
        assert old(fed) + data[..i + take] == fed + data[i..i + take];
        i := i + take;
        fed := old(fed) + data[..i];
        if bufLen == chunkSize {
          FlushChunk(false);
        }
      }
      assert data[..i] == data;
    }

    /// All MACs; the object is then as new.
    method Finalize() returns (all: bytes)
      requires Valid()
      modifies this, buf
      ensures Valid() && fed == [] && macs == []
      ensures all == Batch(suite, key, chunkSize, old(fed))
      ensures |all| == MacBytesForSize(|old(fed)|, chunkSize)
    {
      BatchIs(suite, key, chunkSize, fed);
      BatchLength(suite, key, chunkSize, fed);
      if bufLen > 0 {
        FlushChunk(true);
      }
      all := macs;
      macs, fed := [], [];
    }

    method FlushChunk(last: bool)
      requires buf.Length == chunkSize && 0 < bufLen <= chunkSize
      requires !last ==> bufLen == chunkSize
      modifies this`bufLen, this`macs, buf
      ensures bufLen == 0
      ensures macs == old(macs) + suite.hmac(key, old(buf[..bufLen]) + Zeros(chunkSize - old(bufLen)))
      ensures old(bufLen) == chunkSize ==> macs == old(macs) + suite.hmac(key, old(buf[..bufLen]))
    {
      ghost var chunk := buf[..bufLen];
      if last && bufLen < chunkSize {
        Copy(buf, bufLen, Zeros(chunkSize - bufLen));
      }
      assert buf[..] == chunk + Zeros(chunkSize - bufLen);
      assert bufLen == chunkSize ==> buf[..] == chunk;
      macs := macs + suite.hmac(key, buf[..]);
      bufLen := 0;
    }
  }

  /// The MACs completed since the last call follow those returned before.
  lemma NewMacs(before: bytes, after: bytes, emitted: nat, count: nat)
    requires before <= after && |before| == emitted * MAC_LEN && |after| == MAC_LEN * count
    ensures before + after[emitted * MAC_LEN..] == after
    ensures |after| / MAC_LEN * MAC_LEN == |after|
  {
  }

  /// SignalIncrementalMac: every call returns the MACs completed since the last one.  `returned` is
  /// what the calls so far returned; the object is not used after Finalize.
  class FfiIncremental {
    const inner: Incremental
    var emitted: nat
    ghost var returned: bytes

    ghost predicate Valid()
      reads this, inner, inner.buf
    {
      inner.Valid() && emitted * MAC_LEN == |inner.macs| && returned == inner.macs
    }

    constructor (s: Suite, key: Key, size: ChunkSize)
      ensures Valid() && fresh(inner) && fresh(inner.buf) && returned == [] && inner.fed == []
      ensures inner.suite == s && inner.key == key && inner.chunkSize == size
    {
      inner := new Incremental(s, key, size);
      emitted, returned := 0, [];
    }

    /// None is the invalid-argument error.
    method Update(src: bytes, offset: u32, length: u32) returns (out: Option<bytes>)
      requires Valid()
      modifies this, inner, inner.buf
      ensures Valid()
      ensures out.None? <==> offset + length > |src|
      ensures out.None? ==> inner.fed == old(inner.fed) && returned == old(returned)
      ensures out.Some? ==> inner.fed == old(inner.fed) + src[offset..offset + length]
      ensures out.Some? ==> returned == old(returned) + out.value
    {
      hide Complete, Tail;
      if offset + length > |src| {
        return None;
      }
      var data := src[offset..offset + length];
      CompletePrefix(inner.suite, inner.key, inner.chunkSize, inner.fed, data);
      BatchLength(inner.suite, inner.key, inner.chunkSize, inner.fed + data);
      inner.Update(data);
      NewMacs(returned, inner.macs, emitted, |inner.fed| / inner.chunkSize);
      out := Some(inner.macs[emitted * MAC_LEN..]);
      emitted := |inner.macs| / MAC_LEN;
      returned := inner.macs;
    }

    /// With what the updates returned, exactly the batch list of everything fed.
    method Finalize() returns (out: bytes)
      requires Valid()
      modifies this, inner, inner.buf
      ensures returned == old(returned) + out
      ensures returned == Batch(inner.suite, inner.key, inner.chunkSize, old(inner.fed))
    {
      hide Complete, Tail, Batch;
      if inner.bufLen > 0 {
        inner.Update([]);
        assert inner.fed == old(inner.fed) + [] == old(inner.fed);
      }
      BatchIs(inner.suite, inner.key, inner.chunkSize, inner.fed);
      var all := inner.Finalize();
      var already := emitted * MAC_LEN;
      out := if already < |all| then all[already..] else [];
      returned := returned + out;
    }
  }

  // ---------------------------------------------------------------- receiver

  /// A Validating object: fed with data whose full chunks all matched, or stuck on a full chunk
  /// that did not.
  datatype State = Fed(data: bytes) | Stuck

  datatype Config = Config(suite: Suite, key: Key, size: ChunkSize, expected: bytes)

  function Matched(c: Config, data: bytes): bool {
    Complete(c.suite, c.key, c.size, data) <= c.expected
  }

  /// Whether Update succeeds, and the state it leaves.
  function Feeding(c: Config, st: State, data: bytes): (bool, State) {
    match st
    case Stuck => (data == [], Stuck)
    case Fed(was) => if Matched(c, was + data) then (true, Fed(was + data)) else (false, Stuck)
  }

  predicate FinalizeSucceeds(c: Config, st: State) {
    st.Fed? && Batch(c.suite, c.key, c.size, st.data) <= c.expected
  }

  /// Whether every update of a stream and the finalize after them succeed.
  predicate Accepts(c: Config, st: State, pieces: seq<bytes>)
    decreases |pieces|
  {
    if pieces == [] then FinalizeSucceeds(c, st)
    else
      var (ok, next) := Feeding(c, st, pieces[0]);
      ok && Accepts(c, next, pieces[1..])
  }

  /// A stream, cut in any way, is accepted iff the MAC list of the whole is a prefix of the
  /// expected one.
  lemma {:induction false} AcceptsIff(c: Config, data: bytes, pieces: seq<bytes>)
    ensures Accepts(c, Fed(data), pieces)
       <==> Batch(c.suite, c.key, c.size, data + Concat(pieces)) <= c.expected
    decreases |pieces|
  {
    if pieces == [] {
      assert data + Concat(pieces) == data;
    } else {
      var more := data + pieces[0];
      assert data + Concat(pieces) == more + Concat(pieces[1..]);
      AcceptsIff(c, more, pieces[1..]);
      CompletePrefix(c.suite, c.key, c.size, more, Concat(pieces[1..]));
      BatchIs(c.suite, c.key, c.size, more + Concat(pieces[1..]));
    }
  }

  /// After a full chunk has failed, no non-empty update and no finalize succeeds.
  lemma {:induction false} StuckForEver(c: Config, pieces: seq<bytes>)
    ensures !Accepts(c, Stuck, pieces)
    ensures forall data :: data != [] ==> Feeding(c, Stuck, data) == (false, Stuck)
    decreases |pieces|
  {
    if pieces != [] {
      StuckForEver(c, pieces[1..]);
    }
  }

  /// What the sender computes is what the receiver accepts, however the stream is cut.
  lemma SenderAccepted(s: Suite, key: Key, size: ChunkSize, pieces: seq<bytes>)
    ensures Accepts(Config(s, key, size, Batch(s, key, size, Concat(pieces))), Fed([]), pieces)
  {
    var c := Config(s, key, size, Batch(s, key, size, Concat(pieces)));
    AcceptsIff(c, [], pieces);
    assert [] + Concat(pieces) == Concat(pieces);
  }

  /// The MAC at chunk index idx of the expected list is that of the chunk.
  predicate ChunkMatches(c: Config, idx: nat, chunk: bytes) {
    && MAC_LEN * idx + MAC_LEN <= |c.expected|
    && c.expected[MAC_LEN * idx..MAC_LEN * idx + MAC_LEN] == c.suite.hmac(c.key, chunk)
  }

  lemma PrefixExtends(c: Config, idx: nat, done: bytes, chunk: bytes)
    requires done <= c.expected && |done| == MAC_LEN * idx
    ensures ChunkMatches(c, idx, chunk) <==> done + c.suite.hmac(c.key, chunk) <= c.expected
  {
    var mac: Key := c.suite.hmac(c.key, chunk);
    if |done| + 32 <= |c.expected| {
      var there := c.expected[|done|..|done| + 32];
      assert done + there == c.expected[..|done| + 32];
      if done + mac <= c.expected {
        assert done + mac == c.expected[..|done| + 32];
        assert (done + mac)[|done|..] == mac;
      }
    }
  }

  /// The text with its partial chunk, if any, filled with zeros.
  function Completed(size: ChunkSize, data: bytes): bytes {
    var tail := Tail(size, data);
    if tail == [] then data else data + Zeros(size - |tail|)
  }

  /// What Update does with data[i..j], at most the room left.
  lemma Extend(c: Config, was: bytes, data: bytes, i: nat, j: nat)
    requires i <= j <= |data| && Matched(c, was + data[..i])
    requires |Tail(c.size, was + data[..i])| + (j - i) <= c.size
    ensures var fed := was + data[..i];
      var next := was + data[..j];
      var chunk := Tail(c.size, fed) + data[i..j];
      if |chunk| < c.size then
        Matched(c, next) && Tail(c.size, next) == chunk && |next| / c.size == |fed| / c.size
      else
        && (Matched(c, next) <==> ChunkMatches(c, |fed| / c.size, chunk))
        && (Matched(c, was + data) ==> Matched(c, next))
        && Tail(c.size, next) == [] && |next| / c.size == |fed| / c.size + 1
  {
    hide Complete, Tail, ChunkMatches;
    var fed, piece := was + data[..i], data[i..j];
    var next := was + data[..j];
    assert next == fed + piece && was + data == next + data[j..];
    Feed(c.suite, c.key, c.size, fed, piece);
    BatchLength(c.suite, c.key, c.size, fed);
    BatchLength(c.suite, c.key, c.size, next);
    PrefixExtends(c, |fed| / c.size, Complete(c.suite, c.key, c.size, fed), Tail(c.size, fed) + piece);
    CompletePrefix(c.suite, c.key, c.size, next, data[j..]);
  }

  /// What Finalize does.
  lemma Close(c: Config, fed: bytes)
    requires Matched(c, fed)
    ensures var tail := Tail(c.size, fed);
      var chunk := tail + Zeros(c.size - |tail|);
      if tail == [] then
        FinalizeSucceeds(c, Fed(fed)) && Completed(c.size, fed) == fed
      else
        && var next := Completed(c.size, fed);
        && (FinalizeSucceeds(c, Fed(fed)) <==> ChunkMatches(c, |fed| / c.size, chunk))
        && (FinalizeSucceeds(c, Fed(fed)) <==> Matched(c, next))
        && Tail(c.size, next) == [] && |next| / c.size == |fed| / c.size + 1
  {
    hide Complete, Tail, ChunkMatches, Batch;
    var tail := Tail(c.size, fed);
    BatchIs(c.suite, c.key, c.size, fed);
    if tail != [] {
      var fill := Zeros(c.size - |tail|);
      Feed(c.suite, c.key, c.size, fed, fill);
      BatchLength(c.suite, c.key, c.size, fed);
      BatchLength(c.suite, c.key, c.size, fed + fill);
      PrefixExtends(c, |fed| / c.size, Complete(c.suite, c.key, c.size, fed), tail + fill);
    }
  }

  class Validating {
    const config: Config
    const buf: array<byte>
    var bufLen: nat
    var chunkIdx: nat
    ghost var state: State

    ghost predicate Valid()
      reads this, buf
    {
      && buf.Length == config.size
      && match state
         case Fed(data) =>
           && bufLen < config.size
           && chunkIdx == |data| / config.size
           && Matched(config, data)
           && buf[..bufLen] == Tail(config.size, data)
         case Stuck => bufLen == config.size && !ChunkMatches(config, chunkIdx, buf[..])
    }

    constructor (c: Config)
      ensures Valid() && fresh(buf) && config == c && state == Fed([])
    {
      config := c;
      buf := new byte[c.size];
      bufLen, chunkIdx, state := 0, 0, Fed([]);
      SmallQuotient(0, c.size);
    }

    /// False is the invalid-message error.
    method Update(data: bytes) returns (ok: bool)
      requires Valid()
      modifies this, buf
      ensures Valid() && (ok, state) == Feeding(config, old(state), data)
      ensures chunkIdx >= old(chunkIdx)
    {
      hide Complete, Tail, ChunkMatches;
      ghost var start := state;
      var i := 0;
      while i < |data|
        invariant 0 <= i <= |data| && Valid()
        invariant state == if start.Stuck? then Stuck else Fed(start.data + data[..i])
        invariant start.Stuck? ==> i == 0
        invariant chunkIdx >= old(chunkIdx)
      {
        var space := config.size - bufLen;
        var take := if space < |data| - i then space else |data| - i;
        var piece := data[i..i + take];
        ghost var held := buf[..bufLen];
        ghost var whole := buf[..];
        Copy(buf, bufLen, piece);
        bufLen := bufLen + take;
        assert buf[..bufLen] == held + piece;
        i := i + take;
        if start.Fed? {
          Extend(config, start.data, data, i - take, i);
        } else {
          assert piece == [] && buf[..] == whole;
        }
        if bufLen == config.size {
          assert buf[..] == buf[..bufLen];
          var matches := VerifyChunk(false);
          if !matches {
            state := Stuck;
            return false;
          }
        }
        state := Fed(start.data + data[..i]);
      }
      assert data[..i] == data;
      ok := true;
    }

    /// A failure in the last, partial chunk leaves the state as it was; a success completes the
    /// chunk with zeros.
    method Finalize() returns (ok: bool)
      requires Valid()
      modifies this, buf
      ensures Valid() && ok == FinalizeSucceeds(config, old(state))
      ensures !ok ==> state == old(state)
      ensures ok ==> state == Fed(Completed(config.size, old(state.data)))
      ensures chunkIdx >= old(chunkIdx)
    {
      hide Complete, Tail, ChunkMatches, Batch;
      if state.Fed? {
        Close(config, state.data);
      } else {
        assert buf[..bufLen] == buf[..];
      }
      if bufLen > 0 {
        ok := VerifyChunk(true);
        if ok {
          state := Fed(Completed(config.size, state.data));
        }
        return;
      }
      ok := true;
    }

    method VerifyChunk(last: bool) returns (ok: bool)
      requires buf.Length == config.size && 0 < bufLen <= config.size
      requires !last ==> bufLen == config.size
      modifies this`bufLen, this`chunkIdx, buf
      ensures ok == ChunkMatches(config, old(chunkIdx), old(buf[..bufLen]) + Zeros(config.size - old(bufLen)))
      ensures old(bufLen) == config.size ==> ok == ChunkMatches(config, old(chunkIdx), old(buf[..])) && buf[..] == old(buf[..])
      ensures ok ==> bufLen == 0 && chunkIdx == old(chunkIdx) + 1
      ensures !ok ==> bufLen == old(bufLen) && chunkIdx == old(chunkIdx) && buf[..bufLen] == old(buf[..bufLen])
    {
      ghost var chunk := buf[..bufLen];
      ghost var whole := chunk + Zeros(config.size - bufLen);
      assert bufLen == config.size ==> whole == chunk == buf[..];
      var at := chunkIdx * MAC_LEN;
      if at + MAC_LEN > |config.expected| {
        return false;
      }
      var expected := config.expected[at..at + MAC_LEN];
      if last && bufLen < config.size {
        Copy(buf, bufLen, Zeros(config.size - bufLen));
      }
      assert buf[..] == whole;
      var actual := config.suite.hmac(config.key, buf[..]);
      if actual != expected {
        assert buf[..bufLen] == chunk;
        return false;
      }
      bufLen := 0;
      chunkIdx := chunkIdx + 1;
      ok := true;
    }
  }

  /// What the FFI calls of a validating MAC return.
  datatype Counted = BadRange | Mismatch | TooMany | Chunks(n: nat)

  /// A count that does not fit a signed 32-bit integer traps.
  const MAX_COUNT: nat := 0x8000_0000

  /// SignalValidatingMac: every call returns how many chunks it validated.  `counted` is their sum
  /// since the start; the object is not used after a mismatch in a full chunk or after Finalize.
  class FfiValidating {
    const inner: Validating
    ghost var counted: nat

    ghost predicate Valid()
      reads this, inner, inner.buf
    {
      inner.Valid() && (inner.state.Fed? ==> counted == inner.chunkIdx)
    }

    constructor (c: Config)
      ensures Valid() && fresh(inner) && fresh(inner.buf) && inner.config == c && inner.state == Fed([]) && counted == 0
    {
      inner := new Validating(c);
      counted := 0;
    }

    method Update(src: bytes, offset: u32, length: u32) returns (r: Counted)
      requires Valid()
      modifies this, inner, inner.buf
      ensures Valid()
      ensures r.BadRange? <==> offset + length > |src|
      ensures r.BadRange? ==> inner.state == old(inner.state)
      ensures !r.BadRange? ==> inner.state == Feeding(inner.config, old(inner.state), src[offset..offset + length]).1
      ensures !r.BadRange? ==> (r.Mismatch? <==> !Feeding(inner.config, old(inner.state), src[offset..offset + length]).0)
      ensures r.Chunks? && inner.state.Fed? ==> counted == old(counted) + r.n == |inner.state.data| / inner.config.size
    {
      hide Complete, Tail, ChunkMatches;
      if offset + length > |src| {
        return BadRange;
      }
      var before := inner.chunkIdx;
      var ok := inner.Update(src[offset..offset + length]);
      if !ok {
        return Mismatch;
      }
      var n := inner.chunkIdx - before;
      counted := inner.chunkIdx;
      r := if n >= MAX_COUNT then TooMany else Chunks(n);
    }

    /// On success the counts of all calls add up to the number of chunks of the whole stream.
    method Finalize() returns (r: Counted)
      requires Valid()
      modifies this, inner, inner.buf
      ensures r.Chunks? <==> FinalizeSucceeds(inner.config, old(inner.state))
      ensures r.Chunks? ==> old(counted) + r.n == ChunkCount(|old(inner.state).data|, inner.config.size)
      ensures !r.Chunks? ==> r.Mismatch?
    {
      hide Complete, Tail, ChunkMatches, Batch, ChunkCount;
      var before := inner.chunkIdx;
      ghost var st := inner.state;
      var ok := inner.Finalize();
      if !ok {
        return Mismatch;
      }
      CompletedCount(inner.config.size, st.data);
      var n := inner.chunkIdx - before;
      r := Chunks(n);
    }
  }

  /// Filling the last chunk completes the count.
  lemma {:induction false} CompletedCount(size: ChunkSize, data: bytes)
    ensures |Completed(size, data)| / size == ChunkCount(|data|, size)
    decreases |data|
  {
    hide ChunkCount;
    if |data| < size {
      SmallQuotient(|data|, size);
      ZeroCount(size);
      if data != [] {
        CountStep(size, size);
        SmallQuotient(0, size);
      }
    } else {
      CompletedCount(size, data[size..]);
      CountStep(|data|, size);
      CountStep(|Completed(size, data)|, size);
    }
  }
}
