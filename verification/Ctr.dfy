/// Counter mode (src/aes.zig) and the resumable CTR32 object (src/ffi/crypto.zig): section 6.5 of
/// NIST SP 800-38A.
module Ctr {
  import opened Bytes
  import opened Crypto

  // ---------------------------------------------------------------- big-endian counters

  function FromBigEndian(s: bytes): nat {
    if s == [] then 0 else 256 * FromBigEndian(s[..|s| - 1]) + s[|s| - 1] as nat
  }

  /// The n low bytes of v, most significant first.
  function BigEndian(v: nat, n: nat): (s: bytes)
    ensures |s| == n
    decreases n, v
  {
    if n == 0 then [] else BigEndian(v / 256, n - 1) + [(v % 256) as byte]
  }

  lemma {:induction false} BigEndianRoundTrip(s: bytes)
    ensures FromBigEndian(s) < Pow256(|s|)
    ensures BigEndian(FromBigEndian(s), |s|) == s
  {
    if s != [] {
      BigEndianRoundTrip(s[..|s| - 1]);
    }
  }

  lemma {:induction false} FromBigEndianOf(v: nat, n: nat)
    requires v < Pow256(n)
    ensures FromBigEndian(BigEndian(v, n)) == v
    decreases n, v
  {
    if n > 0 {
      FromBigEndianOf(v / 256, n - 1);
    }
  }

  /// Only the value modulo 256^n matters.
  lemma {:induction false} BigEndianModulo(v: nat, n: nat)
    ensures BigEndian(v % Pow256(n), n) == BigEndian(v, n)
    decreases n, v
  {
    if n > 0 {
      var p := Pow256(n - 1);
      DigitModulo(v, p);
      BigEndianModulo(v / 256, n - 1);
    }
  }

  lemma DigitModulo(v: nat, p: nat)
    requires p > 0
    ensures v % (256 * p) % 256 == v % 256
    ensures v % (256 * p) / 256 == v / 256 % p
  {
    var q, d := v / 256, v % 256;
    var a, b := q / p, q % p;
    assert v == 256 * (a * p + b) + d == (256 * p) * a + (256 * b + d);
    assert 0 <= 256 * b + d < 256 * p;
    DivisionUnique(v, 256 * p, a, 256 * b + d);
  }

  lemma Pow256Four()
    ensures Pow256(4) == TWO32
  {
  }

  lemma ReadBack(v: nat, n: nat)
    ensures FromBigEndian(BigEndian(v, n)) == v % Pow256(n)
  {
    BigEndianModulo(v, n);
    FromBigEndianOf(v % Pow256(n), n);
  }

  /// Adding one with a carry from the last byte; all ones becomes all zeros.
  function Incremented(s: bytes): (t: bytes)
    ensures |t| == |s|
  {
    if s == [] then []
    else
      var n := |s| - 1;
      if s[n] == 255 then Incremented(s[..n]) + [0] else s[..n] + [s[n] + 1]
  }

  lemma LastDigit(s: bytes)
    requires s != []
    ensures FromBigEndian(s) / 256 == FromBigEndian(s[..|s| - 1])
    ensures FromBigEndian(s) % 256 == s[|s| - 1] as nat
  {
  }

  lemma AddOne(v: nat)
    ensures v % 256 == 255 ==> (v + 1) / 256 == v / 256 + 1 && (v + 1) % 256 == 0
    ensures v % 256 != 255 ==> (v + 1) / 256 == v / 256 && (v + 1) % 256 == v % 256 + 1
  {
  }

  lemma {:induction false} IncrementedBytes(s: bytes)
    ensures Incremented(s) == BigEndian(FromBigEndian(s) + 1, |s|)
  {
    hide FromBigEndian;
    if s != [] {
      var n := |s| - 1;
      LastDigit(s);
      AddOne(FromBigEndian(s));
      if s[n] == 255 {
        IncrementedBytes(s[..n]);
      } else {
        BigEndianRoundTrip(s[..n]);
      }
    }
  }

  /// The carry is addition of 1 modulo 256^|s|.
  lemma IncrementedIsSuccessor(s: bytes)
    ensures FromBigEndian(Incremented(s)) == (FromBigEndian(s) + 1) % Pow256(|s|)
    ensures Incremented(s) == BigEndian(FromBigEndian(s) + 1, |s|)
  {
    hide FromBigEndian, BigEndian, Incremented, Pow256;
    IncrementedBytes(s);
    ReadBack(FromBigEndian(s) + 1, |s|);
  }

  /// The largest value of n bytes.
  function Ones(n: nat): (s: bytes)
    ensures |s| == n && forall i :: 0 <= i < n ==> s[i] == 255
  {
    seq(n, i => 255 as byte)
  }

  lemma {:induction false} IncrementedCarry(head: bytes, zeros: nat)
    ensures Incremented(head + Ones(zeros)) == Incremented(head) + Zeros(zeros)
    decreases zeros
  {
    var s := head + Ones(zeros);
    if zeros > 0 {
      assert s[..|s| - 1] == head + Ones(zeros - 1);
      IncrementedCarry(head, zeros - 1);
      assert Zeros(zeros) == Zeros(zeros - 1) + [0];
    } else {
      assert s == head;
    }
  }

  lemma IncrementedLast(head: bytes)
    requires head != [] && (head[|head| - 1] != 255 || |head| == 1)
    ensures var j := |head| - 1;
      Incremented(head) == head[..j] + [if head[j] == 255 then 0 else head[j] + 1]
  {
    if |head| == 1 {
      assert head[..0] == [];
    }
  }

  /// Trailing 255s became zeros and the byte before them, at j, was incremented.
  lemma CarryResult(was: bytes, now: bytes, j: nat)
    requires j < |was| == |now|
    requires forall i :: 0 <= i < j ==> now[i] == was[i]
    requires forall i :: j < i < |was| ==> now[i] == 0 && was[i] == 255
    requires now[j] == if was[j] == 255 then 0 else was[j] + 1
    requires now[j] != 0 || j == 0
    ensures now == Incremented(was)
  {
    hide Incremented, Ones;
    var k := |was| - j - 1;
    var head := was[..j + 1];
    assert was[j + 1..] == Ones(k) && now[j + 1..] == Zeros(k);
    assert was == head + Ones(k);
    IncrementedCarry(head, k);
    IncrementedLast(head);
    assert head[..j] == now[..j];
    assert now == now[..j] + [now[j]] + now[j + 1..];
  }

  /// The carry loop of ctr_encrypt.
  method Increment(counter: array<byte>)
    requires counter.Length > 0
    modifies counter
    ensures counter[..] == Incremented(old(counter[..]))
  {
    hide Incremented;
    ghost var was := counter[..];
    var n := counter.Length;
    var j := n - 1;
    while true
      invariant 0 <= j < n
      invariant forall i :: 0 <= i <= j ==> counter[i] == was[i]
      invariant forall i :: j < i < n ==> counter[i] == 0 && was[i] == 255
      decreases j
    {
      counter[j] := if counter[j] == 255 then 0 else counter[j] + 1;
      if counter[j] != 0 || j == 0 {
        break;
      }
      j := j - 1;
    }
    CarryResult(was, counter[..], j);
  }

  // ---------------------------------------------------------------- counter mode

  /// Counter block i: the initial value plus i, modulo 2^128.
  function CounterAt(iv: Block, i: nat): Block {
    BigEndian(FromBigEndian(iv) + i, 16)
  }

  function StreamByte(s: Suite, key: Key, iv: Block, i: nat): byte {
    s.encrypt(key, CounterAt(iv, i / 16))[i % 16]
  }

  /// CTR encryption: byte i is masked with byte i % 16 of E(iv + i / 16).
  function Encrypt(s: Suite, key: Key, iv: Block, input: bytes): (output: bytes)
    ensures |output| == |input|
  {
    seq(|input|, i requires 0 <= i < |input| => Xor(input[i], StreamByte(s, key, iv, i)))
  }

  lemma CounterNext(iv: Block, i: nat)
    ensures CounterAt(iv, 0) == iv
    ensures Incremented(CounterAt(iv, i)) == CounterAt(iv, i + 1)
  {
    hide BigEndian, FromBigEndian, Incremented, Pow256;
    var v := FromBigEndian(iv);
    var p := Pow256(16);
    BigEndianRoundTrip(iv);
    BigEndianModulo(v + i, 16);
    FromBigEndianOf((v + i) % p, 16);
    var c := CounterAt(iv, i);
    assert FromBigEndian(c) == (v + i) % p;
    IncrementedIsSuccessor(c);
    SuccessorModulo(v + i, p);
    BigEndianModulo((v + i) % p + 1, 16);
    BigEndianModulo(v + i + 1, 16);
  }

  lemma SuccessorModulo(v: nat, p: nat)
    requires p > 0
    ensures (v % p + 1) % p == (v + 1) % p
  {
    var q, r := v / p, v % p;
    assert v + 1 == p * q + (r + 1);
    if r + 1 == p {
      assert v + 1 == p * (q + 1) + 0;
      DivisionUnique(v + 1, p, q + 1, 0);
      DivisionUnique(p, p, 1, 0);
    } else {
      DivisionUnique(v + 1, p, q, r + 1);
      DivisionUnique(r + 1, p, 0, r + 1);
    }
  }

  function BlocksFor(n: nat): nat {
    (n + 15) / 16
  }

  /// The loop's chunks: whole blocks, and what is left at the end.
  function Upto(blocks: nat, length: nat): nat {
    if 16 * blocks <= length then 16 * blocks else length
  }

  lemma NextChunk(blocks: nat, length: nat)
    requires Upto(blocks, length) < length
    ensures var i := Upto(blocks, length);
      var chunk := if 16 < length - i then 16 else length - i;
      && i == 16 * blocks && 0 < chunk <= 16 && i + chunk == Upto(blocks + 1, length)
      && (i + chunk == length ==> blocks + 1 == BlocksFor(length))
  {
  }

  lemma NoBlocks(length: nat)
    ensures Upto(0, length) == 0 && (length == 0 ==> BlocksFor(length) == 0)
  {
  }

  /// One block of the keystream.
  lemma StreamBlock(s: Suite, key: Key, iv: Block, blocks: nat, k: nat)
    requires k < 16
    ensures StreamByte(s, key, iv, 16 * blocks + k) == s.encrypt(key, CounterAt(iv, blocks))[k]
  {
    hide CounterAt;
    assert (16 * blocks + k) / 16 == blocks && (16 * blocks + k) % 16 == k;
  }

  /// ctr_encrypt: the counter array is incremented after every block.
  method CtrEncrypt(s: Suite, key: Key, iv: Block, input: bytes, output: array<byte>)
    requires output.Length >= |input|
    modifies output
    ensures output[..] == Encrypt(s, key, iv, input) + old(output[|input|..])
  {
    hide BigEndian, FromBigEndian, Incremented, Xor, CounterAt, StreamByte, Upto, BlocksFor;
    var counter := new byte[16];
    Copy(counter, 0, iv);
    assert counter[..] == iv;
    CounterNext(iv, 0);
    var i := 0;
    ghost var blocks: nat := 0;
    NoBlocks(|input|);
    while i < |input|
      invariant i == Upto(blocks, |input|) <= |input|
      invariant counter[..] == CounterAt(iv, blocks)
      invariant forall k :: 0 <= k < i ==> output[k] == Xor(input[k], StreamByte(s, key, iv, k))
      invariant forall k :: i <= k < output.Length ==> output[k] == old(output[k])
    {
      var keystream: Block := s.encrypt(key, counter[..]);
      CounterNext(iv, blocks);
      Increment(counter);
      var chunk := if 16 < |input| - i then 16 else |input| - i;
      NextChunk(blocks, |input|);
      forall k | 0 <= k < chunk {
        output[i + k] := Xor(input[i + k], keystream[k]);
      }
      forall k | i <= k < i + chunk ensures output[k] == Xor(input[k], StreamByte(s, key, iv, k)) {
        assert output[i + (k - i)] == Xor(input[i + (k - i)], keystream[k - i]);
        StreamBlock(s, key, iv, blocks, k - i);
      }
      blocks := blocks + 1;
      i := i + chunk;
    }
  }

  /// Counter mode is its own inverse.
  lemma SelfInverse(s: Suite, key: Key, iv: Block, input: bytes)
    ensures Encrypt(s, key, iv, Encrypt(s, key, iv, input)) == input
  {
    hide StreamByte, Xor;
    forall i | 0 <= i < |input| ensures Encrypt(s, key, iv, Encrypt(s, key, iv, input))[i] == input[i] {
      XorInvolution(input[i], StreamByte(s, key, iv, i));
    }
  }

  // ---------------------------------------------------------------- CTR32

  type Nonce = s: bytes | |s| == 12 witness Zeros(12)

  /// Counter block: nonce, then the 32-bit counter big-endian.
  function Block32(nonce: Nonce, counter: nat): Block {
    nonce + BigEndian(counter, 4)
  }

  function StreamByte32(s: Suite, key: Key, nonce: Nonce, counter: nat, i: nat): byte {
    s.encrypt(key, Block32(nonce, (counter + i / 16) % TWO32))[i % 16]
  }

  function Encrypt32(s: Suite, key: Key, nonce: Nonce, counter: nat, data: bytes): (output: bytes)
    ensures |output| == |data|
  {
    seq(|data|, i requires 0 <= i < |data| => Xor(data[i], StreamByte32(s, key, nonce, counter, i)))
  }

  /// The four bytes the source shifts out of the counter.
  lemma ShiftedBytes(c: u32)
    ensures BigEndian(c, 4) == [(c / 0x1000000 % 256) as byte, (c / 0x10000 % 256) as byte, (c / 0x100 % 256) as byte, (c % 256) as byte]
  {
    assert c / 0x100 / 256 == c / 0x10000 && c / 0x10000 / 256 == c / 0x1000000;
    assert BigEndian(c / 0x1000000, 1) == [(c / 0x1000000 % 256) as byte];
    assert BigEndian(c / 0x10000, 2) == BigEndian(c / 0x1000000, 1) + [(c / 0x10000 % 256) as byte];
    assert BigEndian(c / 0x100, 3) == BigEndian(c / 0x10000, 2) + [(c / 0x100 % 256) as byte];
    assert BigEndian(c, 4) == BigEndian(c / 0x100, 3) + [(c % 256) as byte];
  }

  /// The bytes from offset to end are masked and the others are as they were.
  ghost predicate Masked(s: Suite, key: Key, nonce: Nonce, counter: nat, was: bytes, now: bytes, offset: nat, end: nat)
    requires offset <= end <= |was|
  {
    && |now| == |was|
    && (forall k :: offset <= k < end ==> now[k] == Xor(was[k], StreamByte32(s, key, nonce, counter, k - offset)))
    && (forall k :: 0 <= k < |was| && !(offset <= k < end) ==> now[k] == was[k])
  }

  lemma StartMask(s: Suite, key: Key, nonce: Nonce, counter: nat, was: bytes, offset: nat)
    requires offset <= |was|
    ensures Masked(s, key, nonce, counter, was, was, offset, offset)
  {
  }

  /// One more block.
  lemma MaskMore(s: Suite, key: Key, nonce: Nonce, start: u32, was: bytes, now: bytes, next: bytes, offset: nat,
                 blocks: nat, n: nat)
    requires n <= 16 && offset + 16 * blocks + n <= |was| && |next| == |was|
    requires Masked(s, key, nonce, start, was, now, offset, offset + 16 * blocks)
    requires var at := offset + 16 * blocks;
      var mask := s.encrypt(key, Block32(nonce, (start + blocks) % TWO32));
      && (forall k :: at <= k < at + n ==> next[k] == Xor(now[k], mask[k - at]))
      && (forall k :: 0 <= k < |now| && !(at <= k < at + n) ==> next[k] == now[k])
    ensures Masked(s, key, nonce, start, was, next, offset, offset + 16 * blocks + n)
  {
    hide Block32, Xor;
    var at := offset + 16 * blocks;
    forall k | at <= k < at + n
      ensures next[k] == Xor(was[k], StreamByte32(s, key, nonce, start, k - offset))
    {
      assert (k - offset) / 16 == blocks && (k - offset) % 16 == k - at;
    }
  }

  lemma Assembled(s: Suite, key: Key, nonce: Nonce, counter: nat, was: bytes, now: bytes, offset: nat, end: nat)
    requires offset <= end <= |was|
    requires Masked(s, key, nonce, counter, was, now, offset, end)
    ensures now == was[..offset] + Encrypt32(s, key, nonce, counter, was[offset..end]) + was[end..]
  {
    hide StreamByte32, Xor;
    var middle := Encrypt32(s, key, nonce, counter, was[offset..end]);
    assert now[offset..end] == middle;
    assert now[..offset] == was[..offset] && now[end..] == was[end..];
    assert now == now[..offset] + now[offset..end] + now[end..];
  }

  method Mask(buf: array<byte>, at: nat, n: nat, mask: Block)
    requires at + n <= buf.Length && n <= 16
    modifies buf
    ensures forall k :: at <= k < at + n ==> buf[k] == Xor(old(buf[k]), mask[k - at])
    ensures forall k :: 0 <= k < buf.Length && !(at <= k < at + n) ==> buf[k] == old(buf[k])
  {
    hide Xor;
    for j := 0 to n
      invariant forall k :: at <= k < at + j ==> buf[k] == Xor(old(buf[k]), mask[k - at])
      invariant forall k :: 0 <= k < buf.Length && !(at <= k < at + j) ==> buf[k] == old(buf[k])
    {
      buf[at + j] := Xor(buf[at + j], mask[j]);
    }
  }

  /// SignalAes256Ctr32: successive calls to Process continue at the next counter block.
  class Ctr32 {
    const suite: Suite
    const key: Key
    const nonce: Nonce
    var counter: u32

    constructor (s: Suite, k: Key, n: Nonce, initial: u32)
      ensures suite == s && key == k && nonce == n && counter == initial
    {
      suite, key, nonce, counter := s, k, n, initial;
    }

    /// Masks buf[offset..offset + length] in place and nothing else; false for a range outside buf.
    method Process(buf: array<byte>, offset: u32, length: u32) returns (ok: bool)
      modifies this, buf
      ensures ok <==> offset + length <= buf.Length
      ensures !ok ==> buf[..] == old(buf[..]) && counter == old(counter)
      ensures ok ==> buf[..] == old(buf[..offset])
                              + Encrypt32(suite, key, nonce, old(counter), old(buf[offset..offset + length]))
                              + old(buf[offset + length..])
      ensures ok ==> counter == (old(counter) + BlocksFor(length)) % TWO32
    {
      hide Masked, StreamByte32, Block32, Xor, Encrypt32, BlocksFor, Upto;
      var end := offset + length;
      if end > buf.Length {
        return false;
      }
      ghost var was := buf[..];
      var i, ctr: u32 := offset as int, counter;
      ghost var blocks: nat := 0;
      StartMask(suite, key, nonce, counter, was, offset);
      NoBlocks(length);
      while i < end
        invariant i == offset + Upto(blocks, length) <= end
        invariant i == end ==> blocks == BlocksFor(length)
        invariant ctr == (counter + blocks) % TWO32 && counter == old(counter)
        invariant Masked(suite, key, nonce, counter, was, buf[..], offset, i)
      {
        ghost var now := buf[..];
        var keystream := KeystreamBlock(ctr);
        var chunk := if 16 < end - i then 16 else end - i;
        NextChunk(blocks, length);
        Mask(buf, i, chunk, keystream);
        MaskMore(suite, key, nonce, counter, was, now, buf[..], offset, blocks, chunk);
        i := i + chunk;
        SuccessorModulo(counter + blocks, TWO32);
        ctr := (ctr + 1) % TWO32;
        blocks := blocks + 1;
      }
      counter := ctr;
      Assembled(suite, key, nonce, old(counter), was, buf[..], offset, end);
      ok := true;
    }

    method KeystreamBlock(ctr: u32) returns (keystream: Block)
      ensures keystream == suite.encrypt(key, Block32(nonce, ctr))
    {
      var b := new byte[16];
      Copy(b, 0, nonce);
      b[12] := (ctr / 0x1000000 % 256) as byte;
      b[13] := (ctr / 0x10000 % 256) as byte;
      b[14] := (ctr / 0x100 % 256) as byte;
      b[15] := (ctr % 256) as byte;
      ShiftedBytes(ctr);
      assert b[..12] == nonce;
      assert b[..] == b[..12] + [b[12], b[13], b[14], b[15]];
      keystream := suite.encrypt(key, b[..]);
    }
  }

  // ---------------------------------------------------------------- splits

  /// What successive Process calls make of the pieces, and the counter they leave.
  function Pieces32(s: Suite, key: Key, nonce: Nonce, counter: u32, pieces: seq<bytes>): bytes
    decreases |pieces|
  {
    if pieces == [] then []
    else Encrypt32(s, key, nonce, counter, pieces[0])
         + Pieces32(s, key, nonce, (counter + BlocksFor(|pieces[0]|)) % TWO32, pieces[1..])
  }

  predicate Aligned(pieces: seq<bytes>) {
    forall i :: 0 <= i < |pieces| - 1 ==> |pieces[i]| % 16 == 0
  }

  /// A process call ends at a block boundary: after a piece and whatever fills its last block,
  /// the next piece is encrypted as if the two were one text.
  lemma Resume32(s: Suite, key: Key, nonce: Nonce, counter: u32, a: bytes, fill: bytes, b: bytes)
    requires (|a| + |fill|) % 16 == 0 && |fill| < 16
    ensures var whole := Encrypt32(s, key, nonce, counter, a + fill + b);
      && whole[..|a|] == Encrypt32(s, key, nonce, counter, a)
      && whole[|a| + |fill|..] == Encrypt32(s, key, nonce, (counter + BlocksFor(|a|)) % TWO32, b)
  {
    hide StreamByte32, Xor, BlocksFor;
    var n, blocks := |a| + |fill|, BlocksFor(|a|);
    WholeBlocks(|a|, |fill|);
    var whole := Encrypt32(s, key, nonce, counter, a + fill + b);
    var later := Encrypt32(s, key, nonce, (counter + blocks) % TWO32, b);
    assert whole[..|a|] == Encrypt32(s, key, nonce, counter, a);
    forall i | 0 <= i < |b| ensures whole[n..][i] == later[i] {
      StreamNext(s, key, nonce, counter, blocks, i);
      assert (a + fill + b)[n + i] == b[i];
    }
  }

  lemma WholeBlocks(n: nat, fill: nat)
    requires (n + fill) % 16 == 0 && fill < 16
    ensures n + fill == 16 * BlocksFor(n)
  {
  }

  /// The keystream after some blocks is that of the counter moved on.
  lemma StreamNext(s: Suite, key: Key, nonce: Nonce, counter: u32, blocks: nat, i: nat)
    ensures StreamByte32(s, key, nonce, counter, 16 * blocks + i)
         == StreamByte32(s, key, nonce, (counter + blocks) % TWO32, i)
  {
    hide Block32;
    assert (16 * blocks + i) / 16 == blocks + i / 16 && (16 * blocks + i) % 16 == i % 16;
    ModuloAdd(counter + blocks, i / 16, TWO32);
  }

  lemma ModuloAdd(a: nat, b: nat, p: nat)
    requires p > 0
    ensures (a % p + b) % p == (a + b) % p
  {
    var q, r := (a % p + b) / p, (a % p + b) % p;
    assert a + b == p * (a / p) + (p * q + r);
    assert p * (a / p) + p * q == p * (a / p + q);
    DivisionUnique(a + b, p, a / p + q, r);
  }

  /// Any split whose pieces but the last are whole blocks gives the bytes of one call, the
  /// 32-bit counter wrapping included.
  lemma {:induction false} SplitIndependent(s: Suite, key: Key, nonce: Nonce, counter: u32, pieces: seq<bytes>)
    requires Aligned(pieces)
    ensures Pieces32(s, key, nonce, counter, pieces) == Encrypt32(s, key, nonce, counter, Concat(pieces))
    decreases |pieces|
  {
    hide Encrypt32;
    if pieces != [] {
      var a, b := pieces[0], Concat(pieces[1..]);
      var next := (counter + BlocksFor(|a|)) % TWO32;
      SplitIndependent(s, key, nonce, next, pieces[1..]);
      if |pieces| == 1 {
        assert Concat(pieces) == a;
        assert Pieces32(s, key, nonce, counter, pieces) == Encrypt32(s, key, nonce, counter, a);
      } else {
        assert |a| % 16 == 0;
        Resume32(s, key, nonce, counter, a, [], b);
        assert a + [] + b == a + b;
        var whole := Encrypt32(s, key, nonce, counter, a + b);
        assert whole == whole[..|a|] + whole[|a|..];
      }
    }
  }

  lemma SelfInverse32(s: Suite, key: Key, nonce: Nonce, counter: u32, data: bytes)
    ensures Encrypt32(s, key, nonce, counter, Encrypt32(s, key, nonce, counter, data)) == data
  {
    hide StreamByte32, Xor;
    forall i | 0 <= i < |data|
      ensures Encrypt32(s, key, nonce, counter, Encrypt32(s, key, nonce, counter, data))[i] == data[i]
    {
      XorInvolution(data[i], StreamByte32(s, key, nonce, counter, i));
    }
  }

  lemma Scaled(a: nat, p: nat)
    ensures 256 * (a * p) == a * (256 * p)
  {
  }

  lemma {:induction false} BigEndianConcat(head: bytes, v: nat, n: nat)
    requires v < Pow256(n)
    ensures FromBigEndian(head + BigEndian(v, n)) == FromBigEndian(head) * Pow256(n) + v
    decreases n, v
  {
    var t := head + BigEndian(v, n);
    if n == 0 {
      assert t == head;
    } else {
      assert t[..|t| - 1] == head + BigEndian(v / 256, n - 1);
      assert t[|t| - 1] as nat == v % 256;
      BigEndianConcat(head, v / 256, n - 1);
      Scaled(FromBigEndian(head), Pow256(n - 1));
    }
  }

  /// Below the 32-bit wrap CTR32 is counter mode.
  lemma Ctr32IsCtr(s: Suite, key: Key, nonce: Nonce, counter: u32, data: bytes)
    requires counter + BlocksFor(|data|) <= TWO32
    ensures Encrypt32(s, key, nonce, counter, data) == Encrypt(s, key, Block32(nonce, counter), data)
  {
    hide BigEndian, FromBigEndian, Xor, Block32;
    var iv := Block32(nonce, counter);
    forall i | 0 <= i < |data| ensures StreamByte32(s, key, nonce, counter, i) == StreamByte(s, key, iv, i) {
      SameBlock(nonce, counter, i / 16);
    }
  }

  lemma SameBlock(nonce: Nonce, counter: u32, k: nat)
    requires counter + k < TWO32
    ensures CounterAt(Block32(nonce, counter), k) == Block32(nonce, counter + k)
  {
    hide BigEndian, FromBigEndian;
    Pow256Four();
    BigEndianConcat(nonce, counter, 4);
    BigEndianConcat(nonce, counter + k, 4);
    BigEndianRoundTrip(Block32(nonce, counter + k));
  }
}
