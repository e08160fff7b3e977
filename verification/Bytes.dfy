/// Bytes, fixed-size byte strings, and the results every operation returns.
module Bytes {
  newtype byte = x: int | 0 <= x < 256

  type bytes = seq<byte>

  /// A 32-byte key, MAC, scalar or raw X25519 public key.
  type Key = s: bytes | |s| == 32 witness Zeros(32)

  /// A 16-byte AES block, IV, UUID or truncated tag.
  type Block = s: bytes | |s| == 16 witness Zeros(16)

  function Zeros(n: nat): (s: bytes)
    ensures |s| == n
  {
    seq(n, i => 0)
  }

  const TWO32: nat := 0x1_0000_0000
  const TWO64: nat := 0x1_0000_0000_0000_0000

  type u32 = x: nat | x < TWO32
  type u64 = x: nat | x < TWO64

  /// The address of a device.
  datatype Address = Address(name: string, device: u32)

  datatype Option<+T> = None | Some(value: T)

  /// The errors the modelled code returns; `Panic` is a checked-arithmetic trap.
  datatype Error =
    | Truncated | InvalidTag | Overflow | Panic
    | InvalidMessage | InvalidArgument | InvalidSignature | InvalidKey | InvalidType
    | InvalidKeyIdentifier | LegacyCiphertextVersion | UnknownCiphertextVersion
    | DuplicateMessage | SessionNotFound | InvalidSession | UntrustedIdentity | PaddingError | IdentityElement | AuthenticationFailed

  datatype Result<+T> = Ok(value: T) | Err(error: Error)
  {
    predicate IsFailure() {
      Err?
    }

    function PropagateFailure<U>(): Result<U>
      requires Err?
    {
      Err(error)
    }

    function Extract(): T
      requires Ok?
    {
      value
    }
  }

  /// The pieces of a stream put together.
  function Concat(pieces: seq<bytes>): bytes {
    if pieces == [] then [] else pieces[0] + Concat(pieces[1..])
  }

  // ---------------------------------------------------------------- exclusive or

  /// Bitwise exclusive or of the n low bits.
  function XorBits(a: nat, b: nat, n: nat): (c: nat)
    ensures c < Pow2(n)
    decreases n
  {
    if n == 0 then 0 else (a % 2 + b % 2) % 2 + 2 * XorBits(a / 2, b / 2, n - 1)
  }

  function Pow2(n: nat): (p: nat)
    ensures p > 0
  {
    if n == 0 then 1 else 2 * Pow2(n - 1)
  }

  function Xor(a: byte, b: byte): byte {
    assert Pow2(8) == 256;
    XorBits(a as nat, b as nat, 8) as byte
  }

  lemma XorUnfold(a: nat, b: nat, n: nat)
    ensures XorBits(a, b, n) == if n == 0 then 0 else (a % 2 + b % 2) % 2 + 2 * XorBits(a / 2, b / 2, n - 1)
  {
  }

  lemma XorPrepend(bit: nat, h: nat, b: nat, n: nat)
    requires bit < 2 && n > 0
    ensures XorBits(bit + 2 * h, b, n) == (bit + b % 2) % 2 + 2 * XorBits(h, b / 2, n - 1)
  {
    HalfAndBit(bit, h);
  }

  lemma {:induction false} XorBitsTwice(a: nat, b: nat, n: nat)
    requires a < Pow2(n)
    ensures XorBits(XorBits(a, b, n), b, n) == a
    decreases n
  {
    hide XorBits;
    XorUnfold(a, b, n);
    if n > 0 {
      XorBitsTwice(a / 2, b / 2, n - 1);
      XorPrepend((a % 2 + b % 2) % 2, XorBits(a / 2, b / 2, n - 1), b, n);
      BitTwice(a % 2, b % 2);
    } else {
      XorUnfold(XorBits(a, b, 0), b, 0);
    }
  }

  lemma {:induction false} XorBitsCommute(a: nat, b: nat, n: nat)
    ensures XorBits(a, b, n) == XorBits(b, a, n)
    decreases n
  {
    if n > 0 {
      XorBitsCommute(a / 2, b / 2, n - 1);
    }
  }

  lemma HalfAndBit(bit: nat, h: nat)
    requires bit < 2
    ensures (bit + 2 * h) % 2 == bit && (bit + 2 * h) / 2 == h
  {
  }

  lemma BitTwice(a: nat, b: nat)
    requires a < 2 && b < 2
    ensures ((a + b) % 2 + b) % 2 == a
  {
  }

  lemma XorInvolution(a: byte, b: byte)
    ensures Xor(Xor(a, b), b) == a
    ensures Xor(a, b) == Xor(b, a)
  {
    assert Pow2(8) == 256;
    XorBitsTwice(a as nat, b as nat, 8);
    XorBitsCommute(a as nat, b as nat, 8);
  }

  function XorBytes(a: bytes, b: bytes): (c: bytes)
    requires |a| <= |b|
    ensures |c| == |a|
    ensures forall i :: 0 <= i < |a| ==> c[i] == Xor(a[i], b[i])
  {
    seq(|a|, i requires 0 <= i < |a| => Xor(a[i], b[i]))
  }

  /// The same mask applied twice cancels.
  lemma XorTwice(a: bytes, b: bytes)
    requires |a| <= |b|
    ensures XorBytes(XorBytes(a, b), b) == a
  {
    forall i | 0 <= i < |a| ensures XorBytes(XorBytes(a, b), b)[i] == a[i] {
      XorInvolution(a[i], b[i]);
    }
  }

  // ---------------------------------------------------------------- fixed-width integers

  /// The n low bytes of v, least significant first.
  function LittleEndian(v: nat, n: nat): (s: bytes)
    ensures |s| == n
    decreases n
  {
    if n == 0 then [] else [(v % 256) as byte] + LittleEndian(v / 256, n - 1)
  }

  function FromLittleEndian(s: bytes): (v: nat)
    ensures v < Pow256(|s|)
  {
    if s == [] then 0 else s[0] as nat + 256 * FromLittleEndian(s[1..])
  }

  function Pow256(n: nat): (p: nat)
    ensures p > 0
  {
    if n == 0 then 1 else 256 * Pow256(n - 1)
  }

  lemma {:induction false} LittleEndianRoundTrip(v: nat, n: nat)
    requires v < Pow256(n)
    ensures FromLittleEndian(LittleEndian(v, n)) == v
  {
    if n > 0 {
      LittleEndianRoundTrip(v / 256, n - 1);
      assert LittleEndian(v, n)[1..] == LittleEndian(v / 256, n - 1);
    }
  }

  // ---------------------------------------------------------------- division

  lemma DivisionUnique(v: nat, m: nat, q: nat, r: nat)
    requires v == m * q + r && r < m
    ensures v / m == q && v % m == r
  {
    var q', r' := v / m, v % m;
    assert m * q' + r' == v && 0 <= r' < m;
    if q > q' {
      Larger(m, q, q');
    } else if q < q' {
      Larger(m, q', q);
    }
  }

  lemma Larger(m: nat, q: int, q': int)
    requires q > q'
    ensures m * q >= m * q' + m
  {
    var d := q - q' - 1;
    assert m * d >= 0;
    assert m * q == m * (d + 1 + q') == m * d + m + m * q';
  }

  // ---------------------------------------------------------------- buffers

  /// Copy src into dst at offset `at`.
  method Copy(dst: array<byte>, at: nat, src: bytes)
    requires at + |src| <= dst.Length
    modifies dst
    ensures dst[..] == old(dst[..at]) + src + old(dst[at + |src|..])
  {
    forall i | 0 <= i < |src| {
      dst[at + i] := src[i];
    }
  }
}
