/// AES-256-CBC with PKCS#7 padding (src/aes.zig, src/session_builder.zig): section 6.2 of NIST
/// SP 800-38A and section 6.3 of RFC 5652.  For every block permutation it is a bijection
/// between messages and the ciphertexts that decrypt.
module Cbc {
  import opened Bytes
  import opened Crypto

  // ---------------------------------------------------------------- padding

  function Padding(n: nat): (p: bytes)
    requires n <= 255
    ensures |p| == n && forall i :: 0 <= i < n ==> p[i] == n as byte
  {
    seq(n, i => n as byte)
  }

  function PadLength(n: nat): (k: nat)
    ensures 1 <= k <= 16 && (n + k) % 16 == 0
  {
    16 - n % 16
  }

  function Pad(m: bytes): (p: bytes)
    ensures |p| % 16 == 0 && |p| >= 16
  {
    m + Padding(PadLength(|m|))
  }

  predicate WellPadded(p: bytes) {
    && p != []
    && var k := p[|p| - 1] as nat;
       1 <= k <= 16 && k <= |p| && p[|p| - k..] == Padding(k)
  }

  /// Removing the padding; every malformed padding is an error.
  function Unpad(p: bytes): Result<bytes>
    requires |p| >= 16
  {
    if WellPadded(p) then Ok(p[..|p| - p[|p| - 1] as nat]) else Err(PaddingError)
  }

  lemma PadIs(m: bytes)
    ensures Pad(m) == m + Padding(16 - |m| % 16)
  {
  }

  lemma PadUnpad(m: bytes)
    ensures Unpad(Pad(m)) == Ok(m)
  {
    var k := PadLength(|m|);
    var p := Pad(m);
    assert p[|p| - 1] == Padding(k)[k - 1];
    assert p[|p| - k..] == Padding(k);
  }

  lemma UnpadPad(p: bytes)
    requires |p| % 16 == 0 && |p| >= 16
    requires Unpad(p).Ok?
    ensures Pad(Unpad(p).value) == p
  {
    var k := p[|p| - 1] as nat;
    var m := Unpad(p).value;
    assert (|p| - k) % 16 == if k == 16 then 0 else 16 - k;
    assert PadLength(|m|) == k;
    assert p == p[..|p| - k] + p[|p| - k..];
  }

  // ---------------------------------------------------------------- chaining

  /// c_j = E(p_j xor c_{j-1}).
  function Chain(s: Suite, key: Key, prev: Block, p: bytes): (c: bytes)
    requires |p| % 16 == 0
    ensures |c| == |p|
    decreases |p|
  {
    if p == [] then []
    else
      var c := s.encrypt(key, XorBytes(p[..16], prev));
      c + Chain(s, key, c, p[16..])
  }

  /// p_j = D(c_j) xor c_{j-1}.
  function Unchain(s: Suite, key: Key, prev: Block, c: bytes): (p: bytes)
    requires |c| % 16 == 0
    ensures |p| == |c|
    decreases |c|
  {
    if c == [] then []
    else XorBytes(s.decrypt(key, c[..16]), prev) + Unchain(s, key, c[..16], c[16..])
  }

  /// Every block is the encryption of its plaintext block xored with the ciphertext block before it,
  /// the first with the initial one.
  lemma {:induction false} ChainBlocks(s: Suite, key: Key, prev: Block, p: bytes, j: nat)
    requires |p| % 16 == 0 && 16 * j + 16 <= |p|
    ensures var c := Chain(s, key, prev, p);
      c[16 * j..16 * j + 16]
        == s.encrypt(key, XorBytes(p[16 * j..16 * j + 16], if j == 0 then prev else c[16 * (j - 1)..16 * (j - 1) + 16]))
    decreases j
  {
    hide XorBytes;
    var c := Chain(s, key, prev, p);
    var first := s.encrypt(key, XorBytes(p[..16], prev));
    var rest := Chain(s, key, first, p[16..]);
    assert c == first + rest && c[..16] == first;
    if j > 0 {
      ChainBlocks(s, key, first, p[16..], j - 1);
      assert p[16..][16 * (j - 1)..16 * (j - 1) + 16] == p[16 * j..16 * j + 16];
      assert rest[16 * (j - 1)..16 * (j - 1) + 16] == c[16 * j..16 * j + 16];
      if j > 1 {
        assert rest[16 * (j - 2)..16 * (j - 2) + 16] == c[16 * (j - 1)..16 * (j - 1) + 16];
      }
    }
  }

  lemma {:induction false} ChainUnchain(s: Suite, key: Key, prev: Block, p: bytes)
    requires BlockLaw(s) && |p| % 16 == 0
    ensures Unchain(s, key, prev, Chain(s, key, prev, p)) == p
    decreases |p|
  {
    if p != [] {
      var b: Block := XorBytes(p[..16], prev);
      var c := s.encrypt(key, b);
      var out := Chain(s, key, prev, p);
      assert out[..16] == c && out[16..] == Chain(s, key, c, p[16..]);
      ChainUnchain(s, key, c, p[16..]);
      assert s.decrypt(key, c) == b;
      XorTwice(p[..16], prev);
      assert p == p[..16] + p[16..];
    }
  }

  lemma {:induction false} UnchainChain(s: Suite, key: Key, prev: Block, c: bytes)
    requires BlockLaw(s) && |c| % 16 == 0
    ensures Chain(s, key, prev, Unchain(s, key, prev, c)) == c
    decreases |c|
  {
    if c != [] {
      var head: Block := c[..16];
      var d: Block := s.decrypt(key, head);
      var out := Unchain(s, key, prev, c);
      assert out[..16] == XorBytes(d, prev) && out[16..] == Unchain(s, key, head, c[16..]);
      UnchainChain(s, key, head, c[16..]);
      XorTwice(d, prev);
      assert s.encrypt(key, d) == head;
      assert c == c[..16] + c[16..];
    }
  }

  // ---------------------------------------------------------------- encryption and decryption

  function Encrypt(s: Suite, key: Key, iv: Block, plaintext: bytes): bytes {
    Chain(s, key, iv, Pad(plaintext))
  }

  function Decrypt(s: Suite, key: Key, iv: Block, ciphertext: bytes): Result<bytes> {
    if |ciphertext| == 0 || |ciphertext| % 16 != 0 then Err(InvalidMessage)
    else Unpad(Unchain(s, key, iv, ciphertext))
  }

  /// Block i of a text of whole blocks.
  lemma BlockFits(n: nat, i: nat)
    requires n % 16 == 0 && i % 16 == 0 && i < n
    ensures i + 16 <= n && (n - i) % 16 == 0 && (i + 16) % 16 == 0 && (n - i - 16) % 16 == 0
  {
  }

  /// One block of the loops below, inside a longer text.
  lemma ChainStep(s: Suite, key: Key, prev: Block, p: bytes, i: nat, out: bytes)
    requires i + 16 <= |p| && (|p| - i) % 16 == 0 && (|p| - i - 16) % 16 == 0
    ensures var c := s.encrypt(key, XorBytes(p[i..i + 16], prev));
      out + Chain(s, key, prev, p[i..]) == (out + c) + Chain(s, key, c, p[i + 16..])
  {
    hide XorBytes;
    var rest := p[i..];
    assert rest[..16] == p[i..i + 16] && rest[16..] == p[i + 16..];
  }

  lemma UnchainStep(s: Suite, key: Key, prev: Block, c: bytes, i: nat, out: bytes)
    requires i + 16 <= |c| && (|c| - i) % 16 == 0 && (|c| - i - 16) % 16 == 0
    ensures var block := c[i..i + 16];
      out + Unchain(s, key, prev, c[i..])
        == (out + XorBytes(s.decrypt(key, block), prev)) + Unchain(s, key, block, c[i + 16..])
  {
    hide XorBytes;
    var rest := c[i..];
    assert rest[..16] == c[i..i + 16] && rest[16..] == c[i + 16..];
  }

  lemma ChainEmpty(s: Suite, key: Key, prev: Block)
    ensures Chain(s, key, prev, []) == []
  {
  }

  lemma UnchainEmpty(s: Suite, key: Key, prev: Block)
    ensures Unchain(s, key, prev, []) == []
  {
  }

  /// cbc_encrypt: one pass over the padded plaintext, `prev` being the last ciphertext block.
  method EncryptLoop(s: Suite, key: Key, iv: Block, plaintext: bytes) returns (out: array<byte>)
    ensures fresh(out) && out[..] == Encrypt(s, key, iv, plaintext)
  {
    hide *;
    ghost var whole := Chain(s, key, iv, Pad(plaintext));
    ghost var done: bytes := [];
    var padLen := 16 - |plaintext| % 16;
    var padded := plaintext + Padding(padLen);
    PadIs(plaintext);
    assert padded == Pad(plaintext);
    out := new byte[|padded|];
    var prev: Block := iv;
    var i := 0;
    assert padded[0..] == padded;
    while i < |padded|
      invariant 0 <= i <= |padded| && i % 16 == 0 && (|padded| - i) % 16 == 0
      invariant out[..i] == done
      invariant done + Chain(s, key, prev, padded[i..]) == whole
    {
      BlockFits(|padded|, i);
      var block: Block := XorBytes(padded[i..i + 16], prev);
      ChainStep(s, key, prev, padded, i, done);
      prev := s.encrypt(key, block);
      ghost var before := out[..];
      Copy(out, i, prev);
      Extended(before, out[..], i, prev);
      done := done + prev;
      i := i + 16;
    }
    assert padded[i..] == [];
    ChainEmpty(s, key, prev);
    assert done + [] == done;
    assert out[..] == out[..i];
    assert Encrypt(s, key, iv, plaintext) == whole by {
      EncryptIs(s, key, iv, plaintext);
    }
  }

  /// The written part grows by one block.
  lemma Extended(before: bytes, after: bytes, i: nat, block: bytes)
    requires i + |block| <= |before|
    requires after == before[..i] + block + before[i + |block|..]
    ensures after[..i + |block|] == before[..i] + block
  {
  }

  lemma EncryptIs(s: Suite, key: Key, iv: Block, plaintext: bytes)
    ensures Encrypt(s, key, iv, plaintext) == Chain(s, key, iv, Pad(plaintext))
  {
  }

  /// cbc_decrypt: one pass over the ciphertext, then the padding.
  method DecryptLoop(s: Suite, key: Key, iv: Block, ciphertext: bytes) returns (r: Result<bytes>)
    ensures r == Decrypt(s, key, iv, ciphertext)
  {
    hide Unchain, XorBytes, Unpad;
    ghost var done: bytes := [];
    if |ciphertext| == 0 || |ciphertext| % 16 != 0 {
      return Err(InvalidMessage);
    }
    var buf := new byte[|ciphertext|];
    var prev: Block := iv;
    var i := 0;
    assert ciphertext[0..] == ciphertext;
    while i < |ciphertext|
      invariant 0 <= i <= |ciphertext| && i % 16 == 0 && (|ciphertext| - i) % 16 == 0
      invariant buf[..i] == done
      invariant done + Unchain(s, key, prev, ciphertext[i..]) == Unchain(s, key, iv, ciphertext)
    {
      BlockFits(|ciphertext|, i);
      var block: Block := ciphertext[i..i + 16];
      ghost var before := buf[..];
      UnchainStep(s, key, prev, ciphertext, i, done);
      var plain := XorBytes(s.decrypt(key, block), prev);
      Copy(buf, i, plain);
      Extended(before, buf[..], i, plain);
      done := done + plain;
      prev := block;
      i := i + 16;
    }
    assert ciphertext[i..] == [];
    UnchainEmpty(s, key, prev);
    assert done + [] == done;
    assert buf[..] == buf[..i] == Unchain(s, key, iv, ciphertext);
    r := UnpadLoop(buf);
  }

  /// The padding check: the last byte, then every byte of the padding.
  method UnpadLoop(buf: array<byte>) returns (r: Result<bytes>)
    requires buf.Length >= 16
    ensures r == Unpad(buf[..])
  {
    var n := buf.Length;
    var pad := buf[n - 1];
    if pad == 0 || pad > 16 {
      return Err(PaddingError);
    }
    var k := pad as nat;
    for i := n - k to n
      invariant forall j :: n - k <= j < i ==> buf[j] == pad
    {
      if buf[i] != pad {
        assert buf[..][n - k..][i - (n - k)] != Padding(k)[i - (n - k)];
        return Err(PaddingError);
      }
    }
    assert buf[..][n - k..] == Padding(k);
    r := Ok(buf[..n - k]);
    assert buf[..][..n - k] == buf[..n - k];
  }

  lemma EncryptLength(s: Suite, key: Key, iv: Block, plaintext: bytes)
    ensures |plaintext| < |Encrypt(s, key, iv, plaintext)| <= |plaintext| + 16
  {
  }

  /// Decryption undoes encryption on every plaintext ...
  lemma RoundTrip(s: Suite, key: Key, iv: Block, plaintext: bytes)
    requires BlockLaw(s)
    ensures Decrypt(s, key, iv, Encrypt(s, key, iv, plaintext)) == Ok(plaintext)
  {
    ChainUnchain(s, key, iv, Pad(plaintext));
    PadUnpad(plaintext);
  }

  /// ... and encryption undoes decryption whenever decryption succeeds.
  lemma Bijection(s: Suite, key: Key, iv: Block, ciphertext: bytes, plaintext: bytes)
    requires BlockLaw(s)
    ensures Decrypt(s, key, iv, ciphertext) == Ok(plaintext) <==> ciphertext == Encrypt(s, key, iv, plaintext)
  {
    hide Unchain, Chain, Pad, Unpad, XorBytes;
    RoundTrip(s, key, iv, plaintext);
    if Decrypt(s, key, iv, ciphertext) == Ok(plaintext) {
      UnpadPad(Unchain(s, key, iv, ciphertext));
      UnchainChain(s, key, iv, ciphertext);
    }
  }
}
