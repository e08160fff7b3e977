/// The chunk encoder and decoder of src/spqr/poly_codec.zig: an erasure code.
///
/// A message of big-endian 16-bit symbols is dealt out over 16 streams; chunk k carries the k-th element
/// of every stream.  Beyond a stream's length the elements are interpolated, so any large
/// enough set of distinct chunks gives the message back.
module PolyCodec {
  import opened Interpolation
  import opened Bytes

  const NUM_POLYS: nat := 16
  const MAX_PTS: nat := 80

  /// A 16-bit chunk index.
  type Index = x: nat | x < 0x1_0000

  const CHUNK_SIZE: nat := 2 * NUM_POLYS

  /// A chunk: its 32 bytes are 16 big-endian symbols, one for every stream.
  datatype Chunk = Chunk(index: Index, data: ChunkData)

  type ChunkData = b: bytes | |b| == CHUNK_SIZE witness Zeros(CHUNK_SIZE)

  // ---------------------------------------------------------------- big-endian symbols

  function Joined(hi: byte, lo: byte): bv16 {
    (hi as nat * 256 + lo as nat) as bv16
  }

  function High(v: bv16): byte { (v as nat / 256) as byte }

  function Low(v: bv16): byte { (v as nat % 256) as byte }

  lemma BackToSymbol(v: bv16)
    ensures v as nat as bv16 == v
  {
  }

  lemma Digits(n: nat)
    ensures n / 256 * 256 + n % 256 == n
  {
  }

  lemma JoinedIs(v: bv16)
    ensures Joined(High(v), Low(v)) == v
  {
    BackToSymbol(v);
    Digits(v as nat);
  }

  lemma SplitIs(hi: byte, lo: byte)
    ensures High(Joined(hi, lo)) == hi && Low(Joined(hi, lo)) == lo
  {
    BackAndForth(hi as nat * 256 + lo as nat);
  }

  function SymbolsOf(b: bytes): (s: seq<bv16>)
    ensures |s| == |b| / 2
  {
    seq(|b| / 2, i requires 0 <= i < |b| / 2 => Joined(b[2 * i], b[2 * i + 1]))
  }

  function BytesOf(s: seq<bv16>): (b: bytes)
    ensures |b| == 2 * |s|
  {
    if s == [] then [] else BytesOf(s[..|s| - 1]) + [High(s[|s| - 1]), Low(s[|s| - 1])]
  }

  lemma {:induction false} BytesAt(s: seq<bv16>, i: nat)
    requires i < |s|
    ensures BytesOf(s)[2 * i] == High(s[i]) && BytesOf(s)[2 * i + 1] == Low(s[i])
  {
    var n := |s| - 1;
    if i < n {
      BytesAt(s[..n], i);
    }
  }

  lemma NoBytes()
    ensures BytesOf([]) == []
  {
  }

  lemma BytesNext(s: seq<bv16>, v: bv16)
    ensures BytesOf(s + [v]) == BytesOf(s) + [High(v), Low(v)]
  {
    assert (s + [v])[..|s|] == s;
  }

  /// Symbols come back from their bytes, and whole symbols' bytes from the symbols.
  lemma SymbolsBytes(s: seq<bv16>)
    ensures SymbolsOf(BytesOf(s)) == s
  {
    hide BytesOf, Joined;
    forall i | 0 <= i < |s| ensures SymbolsOf(BytesOf(s))[i] == s[i] {
      BytesAt(s, i);
      JoinedIs(s[i]);
    }
  }

  lemma {:induction false} BytesSymbols(b: bytes)
    requires |b| % 2 == 0
    ensures BytesOf(SymbolsOf(b)) == b
  {
    hide Joined, High, Low;
    if b != [] {
      var n := |b| - 2;
      assert SymbolsOf(b)[..|b| / 2 - 1] == SymbolsOf(b[..n]);
      BytesSymbols(b[..n]);
      SplitIs(b[n], b[n + 1]);
      assert b == b[..n] + [b[n], b[n + 1]];
    }
  }

  // ---------------------------------------------------------------- indices

  function Element16(x: Index): bv16 { x as bv16 }

  lemma BackAndForth(x: Index)
    ensures x as bv16 as nat == x
  {
    assert x % 0x1_0000 == x;
  }

  lemma Element16Injective(x: Index, y: Index)
    requires Element16(x) == Element16(y)
    ensures x == y
  {
    BackAndForth(x);
    BackAndForth(y);
  }

  function Elements(xs: seq<Index>): (es: seq<bv16>)
    ensures |es| == |xs|
    ensures forall i :: 0 <= i < |xs| ==> es[i] == Element16(xs[i])
  {
    if xs == [] then [] else [Element16(xs[0])] + Elements(xs[1..])
  }

  predicate NoRepeats(xs: seq<Index>) {
    forall i, j :: 0 <= i < j < |xs| ==> xs[i] != xs[j]
  }

  lemma ElementsDistinct(xs: seq<Index>)
    requires NoRepeats(xs)
    ensures Distinct(Elements(xs))
  {
    hide Element16;
    var es := Elements(xs);
    forall i, j | 0 <= i < j < |es| ensures es[i] != es[j] {
      if es[i] == es[j] {
        Element16Injective(xs[i], xs[j]);
      }
    }
  }

  // ---------------------------------------------------------------- the points of one stream

  datatype Points = Points(xs: seq<Index>, ys: seq<bv16>) {
    predicate Valid() {
      |xs| == |ys| <= MAX_PTS
    }
  }

  function AddPoint(p: Points, x: Index, y: bv16, needed: nat): Points {
    if (x < needed || |p.xs| < needed) && x !in p.xs && |p.xs| < MAX_PTS
    then Points(p.xs + [x], p.ys + [y])
    else p
  }

  /// PolyPts.add: a linear search for the index, then an append.
  method Add(p: Points, x: Index, y: bv16, needed: nat) returns (r: Points)
    requires p.Valid()
    ensures r == AddPoint(p, x, y, needed) && r.Valid()
  {
    r := p;
    if x < needed || |p.xs| < needed {
      for i := 0 to |p.xs|
        invariant x !in p.xs[..i]
      {
        if p.xs[i] == x {
          return;
        }
      }
      if |p.xs| < MAX_PTS {
        r := Points(p.xs + [x], p.ys + [y]);
      }
    }
  }

  /// The first index holding x.
  function Position(xs: seq<Index>, x: Index): (i: nat)
    requires x in xs
    ensures i < |xs| && xs[i] == x && x !in xs[..i]
  {
    if xs[0] == x then 0 else 1 + Position(xs[1..], x)
  }

  lemma {:induction false} PositionIs(xs: seq<Index>, x: Index, i: nat)
    requires i < |xs| && xs[i] == x && x !in xs[..i]
    ensures Position(xs, x) == i
  {
    if i > 0 {
      assert xs[0] == xs[..i][0];
      assert xs[1..][..i - 1] == xs[..i][1..];
      PositionIs(xs[1..], x, i - 1);
    }
  }

  function ValueAt(p: Points, x: Index, needed: nat): Option<bv16>
    requires p.Valid()
  {
    if x in p.xs then Some(p.ys[Position(p.xs, x)])
    else if |p.xs| >= needed then Some(Interpolate(Element16(x), Elements(p.xs), p.ys, |p.xs|))
    else None
  }

  /// PolyPts.getY: a stored point if there is one, else interpolation once there are enough.
  method GetY(p: Points, x: Index, needed: nat) returns (r: Option<bv16>)
    requires p.Valid()
    ensures r == ValueAt(p, x, needed)
  {
    hide Interpolate;
    for i := 0 to |p.xs|
      invariant x !in p.xs[..i]
    {
      if p.xs[i] == x {
        PositionIs(p.xs, x, i);
        return Some(p.ys[i]);
      }
    }
    if |p.xs| >= needed {
      var y := Lagrange(Element16(x), Elements(p.xs), p.ys);
      return Some(y);
    }
    return None;
  }

  // ---------------------------------------------------------------- the encoder

  /// How many of the message's symbols belong to stream `poly`: those at k * 16 + poly.
  function NecessaryPoints(total: nat, poly: nat): nat {
    total / NUM_POLYS + if poly < total % NUM_POLYS then 1 else 0
  }

  lemma NecessaryPointsMeaning(total: nat, poly: nat, k: nat)
    requires poly < NUM_POLYS
    ensures k * NUM_POLYS + poly < total <==> k < NecessaryPoints(total, poly)
  {
  }

  /// The symbols of one stream.
  function Stream(msg: seq<bv16>, poly: nat, n: nat): (s: seq<bv16>)
    requires poly < NUM_POLYS && n <= NecessaryPoints(|msg|, poly)
    ensures |s| == n
    ensures forall k: nat :: k < n ==> k * NUM_POLYS + poly < |msg| && s[k] == msg[k * NUM_POLYS + poly]
  {
    if n == 0 then []
    else
      NecessaryPointsMeaning(|msg|, poly, n - 1);
      Stream(msg, poly, n - 1) + [msg[(n - 1) * NUM_POLYS + poly]]
  }

  lemma StreamStart(msg: seq<bv16>, poly: nat)
    requires poly < NUM_POLYS
    ensures Stream(msg, poly, 0) == []
  {
  }

  /// 0, 1, ..., n - 1.
  function Positions(n: nat): (xs: seq<Index>)
    requires n <= 0x1_0000
    ensures |xs| == n && forall k :: 0 <= k < n ==> xs[k] == k
  {
    if n == 0 then [] else Positions(n - 1) + [n - 1]
  }

  /// The stream as a curve: the interpolation through (0, s[0]), (1, s[1]), ...
  function Code(s: seq<bv16>, k: Index): bv16
    requires |s| <= 0x1_0000
  {
    Interpolate(Element16(k), Elements(Positions(|s|)), s, |s|)
  }

  /// Element k of a stream: its own symbol, or the continuation of the curve.
  function Element(s: seq<bv16>, k: Index): bv16 {
    if k < |s| then s[k] else Code(s, k)
  }

  /// Every element lies on the curve.
  lemma ElementOnCurve(s: seq<bv16>, k: Index)
    requires |s| <= 0x1_0000
    ensures Element(s, k) == Code(s, k)
  {
    hide Interpolate, Element16;
    if k < |s| {
      ElementsDistinct(Positions(|s|));
      ThroughPoints(Elements(Positions(|s|)), s, k);
    }
  }

  /// A polynomial with at most as many coefficients as the stream has symbols, which takes them at
  /// the points 0, 1, 2, ... of the field.
  ghost predicate Carries(p: Poly, s: seq<bv16>) {
    && |p| <= |s| <= 0x1_0000
    && forall j: Index :: j < |s| ==> CarriesAt(p, s, j)
  }

  predicate CarriesAt(p: Poly, s: seq<bv16>, j: Index)
    requires j < |s|
  {
    Eval(p, j as bv16) == s[j]
  }

  /// Every element of a stream, its own symbols and the redundant ones, is the value at its index of
  /// the one polynomial that carries the stream.
  lemma ElementIsValue(s: seq<bv16>, k: Index)
    requires |s| <= 0x1_0000
    ensures exists p :: Carries(p, s)
    ensures forall p :: Carries(p, s) ==> Element(s, k) == Eval(p, k as bv16)
  {
    hide Eval, Interpolate, Element, InterpolationPoly, Elements;
    var xs := Elements(Positions(|s|));
    var curve := Curve(xs, s);
    ElementsDistinct(Positions(|s|));
    EvalCurve(xs, s, k as bv16);
    ElementOnCurve(s, k);
    forall j: Index | j < |s| ensures xs[j] == j as bv16 && CarriesAt(curve, s, j) {
      EvalCurve(xs, s, j as bv16);
      ThroughPoints(xs, s, j);
    }
    assert Carries(curve, s);
    forall p | Carries(p, s) ensures Element(s, k) == Eval(p, k as bv16) {
      forall i | 0 <= i < |xs| ensures Eval(p, xs[i]) == Eval(curve, xs[i]) {
        var j: Index := i;
        assert CarriesAt(p, s, j) && CarriesAt(curve, s, j);
      }
      Unique(p, curve, xs, k as bv16);
    }
  }

  function StreamOf(msg: seq<bv16>, poly: nat): (s: seq<bv16>)
    requires poly < NUM_POLYS
    ensures |s| == NecessaryPoints(|msg|, poly)
  {
    Stream(msg, poly, NecessaryPoints(|msg|, poly))
  }

  /// The chunk with index k.
  ghost function ChunkOf(msg: seq<bv16>, k: Index): Chunk {
    Chunk(k, BytesOf(Elements16(msg, k)))
  }

  ghost function Elements16(msg: seq<bv16>, k: Index): (s: seq<bv16>)
    ensures |s| == NUM_POLYS
  {
    seq(NUM_POLYS, poly requires 0 <= poly < NUM_POLYS => Element(StreamOf(msg, poly), k))
  }

  /// Two bytes hold a symbol, the high one first.
  predicate HoldsAt(b: bytes, at: nat, v: bv16) {
    at + 1 < |b| && v as nat == 256 * b[at] as nat + b[at + 1] as nat
  }

  /// A polynomial of a stream of a message, by the message's bytes: symbol j of stream `poly` is at
  /// 2 (16 j + poly).
  ghost predicate CarriesBytes(p: Poly, msg: bytes, poly: nat) {
    var n := NecessaryPoints(|msg| / 2, poly);
    && |p| <= n <= 0x1_0000
    && forall j: Index :: j < n ==> CarriesBytesAt(p, msg, poly, j)
  }

  predicate CarriesBytesAt(p: Poly, msg: bytes, poly: nat, j: Index) {
    HoldsAt(msg, 2 * (NUM_POLYS * j + poly), Eval(p, j as bv16))
  }

  lemma HoldsJoined(b: bytes, at: nat, v: bv16)
    requires at + 1 < |b|
    ensures HoldsAt(b, at, v) <==> v == Joined(b[at], b[at + 1])
  {
    SymbolIs(b[at] as nat * 256 + b[at + 1] as nat, v);
  }

  lemma SymbolIs(n: Index, v: bv16)
    ensures v as nat == n <==> v == n as bv16
  {
    BackAndForth(n);
    BackToSymbol(v);
  }

  lemma HoldsSplit(b: bytes, at: nat, v: bv16)
    requires at + 1 < |b| && b[at] == High(v) && b[at + 1] == Low(v)
    ensures HoldsAt(b, at, v)
  {
    Digits(v as nat);
  }

  /// The polynomials of a stream are those of its bytes.
  lemma CarriesEither(p: Poly, msg: bytes, poly: nat)
    requires poly < NUM_POLYS && |msg| % 2 == 0
    ensures CarriesBytes(p, msg, poly) <==> Carries(p, StreamOf(SymbolsOf(msg), poly))
  {
    hide CarriesAt, CarriesBytesAt, StreamOf, NecessaryPoints;
    var s := StreamOf(SymbolsOf(msg), poly);
    forall j: Index | j < |s| ensures CarriesBytesAt(p, msg, poly, j) <==> CarriesAt(p, s, j) {
      CarriesPoint(p, msg, poly, j);
    }
  }

  lemma CarriesPoint(p: Poly, msg: bytes, poly: nat, j: Index)
    requires poly < NUM_POLYS && |msg| % 2 == 0 && j < NecessaryPoints(|msg| / 2, poly)
    ensures CarriesBytesAt(p, msg, poly, j) <==> CarriesAt(p, StreamOf(SymbolsOf(msg), poly), j)
  {
    hide Eval, Joined, HoldsAt, NecessaryPoints;
    var i := j * NUM_POLYS + poly;
    NecessaryPointsMeaning(|msg| / 2, poly, j);
    assert SymbolsOf(msg)[i] == Joined(msg[2 * i], msg[2 * i + 1]);
    HoldsJoined(msg, 2 * i, Eval(p, j as bv16));
  }

  /// Chunk k of a message holds, for every stream, the value at k of the one polynomial whose values
  /// at 0, 1, 2, ... are the stream's own symbols in the message.
  lemma ChunkHolds(msg: bytes, k: Index, poly: nat)
    requires poly < NUM_POLYS && |msg| % 2 == 0 && NecessaryPoints(|msg| / 2, poly) <= 0x1_0000
    ensures exists p :: CarriesBytes(p, msg, poly)
    ensures forall p :: CarriesBytes(p, msg, poly) ==>
      HoldsAt(ChunkOf(SymbolsOf(msg), k).data, 2 * poly, Eval(p, k as bv16))
  {
    hide Eval, Element, BytesOf, HoldsAt, NecessaryPoints, CarriesBytes, Carries, StreamOf, SymbolsOf;
    var s := StreamOf(SymbolsOf(msg), poly);
    var values := Elements16(SymbolsOf(msg), k);
    ElementIsValue(s, k);
    BytesAt(values, poly);
    HoldsSplit(BytesOf(values), 2 * poly, values[poly]);
    var q :| Carries(q, s);
    CarriesEither(q, msg, poly);
    forall p | CarriesBytes(p, msg, poly)
      ensures HoldsAt(ChunkOf(SymbolsOf(msg), k).data, 2 * poly, Eval(p, k as bv16))
    {
      CarriesEither(p, msg, poly);
    }
  }

  /// The buffers for interpolation hold MAX_PTS points: a chunk needs them for the streams that are
  /// not longer than its index.
  predicate Fits(total: nat, k: nat) {
    forall poly :: 0 <= poly < NUM_POLYS && NecessaryPoints(total, poly) <= k ==> NecessaryPoints(total, poly) <= MAX_PTS
  }

  class PolyEncoder {
    const msg: bytes
    var idx: nat

    constructor (msg: bytes)
      ensures this.msg == msg && idx == 0
    {
      this.msg := msg;
      idx := 0;
    }

    method SymbolAt(poly: nat, k: nat) returns (v: bv16)
      requires poly < NUM_POLYS && |msg| % 2 == 0 && k < NecessaryPoints(|msg| / 2, poly)
      ensures v == StreamOf(SymbolsOf(msg), poly)[k]
      ensures Stream(SymbolsOf(msg), poly, k + 1) == Stream(SymbolsOf(msg), poly, k) + [v]
    {
      hide Joined;
      NecessaryPointsMeaning(|msg| / 2, poly, k);
      var at := (k * NUM_POLYS + poly) * 2;
      assert SymbolsOf(msg)[k * NUM_POLYS + poly] == Joined(msg[at], msg[at + 1]);
      v := Joined(msg[at], msg[at + 1]);
    }

    /// Element k of stream `poly`.
    method GetElement(poly: nat, k: Index) returns (v: bv16)
      requires poly < NUM_POLYS && |msg| % 2 == 0 && Fits(|msg| / 2, k)
      ensures v == Element(StreamOf(SymbolsOf(msg), poly), k)
    {
      hide Interpolate, Element16, Joined, SymbolsOf, Stream, NecessaryPoints;
      StreamStart(SymbolsOf(msg), poly);
      var total := |msg| / 2;
      var needed := NecessaryPoints(total, poly);
      if k < needed {
        v := SymbolAt(poly, k);
        return;
      }
      var xs: seq<Index>, ys: seq<bv16> := [], [];
      for i := 0 to needed
        invariant xs == Positions(i)
        invariant ys == Stream(SymbolsOf(msg), poly, i)
      {
        var y := SymbolAt(poly, i);
        xs := xs + [i];
        ys := ys + [y];
      }
      v := Lagrange(Element16(k), Elements(xs), ys);
    }

    /// nextChunk: chunks come out with indices 0, 1, 2, ...; the index is cast to 16 bits.
    method NextChunk() returns (c: Chunk)
      requires |msg| % 2 == 0 && idx < 0x1_0000 && Fits(|msg| / 2, idx)
      modifies this`idx
      ensures c == ChunkOf(SymbolsOf(msg), old(idx))
      ensures idx == old(idx) + 1
    {
      hide Element, High, Low, Fits, BytesOf, Joined, NecessaryPoints, StreamOf;
      ghost var values: seq<bv16> := [];
      var data: bytes := [];
      var k: Index := idx;
      NoBytes();
      for i := 0 to NUM_POLYS
        invariant |values| == i && idx == k && data == BytesOf(values)
        invariant forall j :: 0 <= j < i ==> values[j] == Element(StreamOf(SymbolsOf(msg), j), k)
      {
        var v := GetElement(i, k);
        data := data + [High(v), Low(v)];
        BytesNext(values, v);
        values := values + [v];
      }
      assert values == Elements16(SymbolsOf(msg), k);
      c := Chunk(k, data);
      idx := idx + 1;
    }
  }

  // ---------------------------------------------------------------- the decoder

  predicate ValidPoints(pts: seq<Points>) {
    |pts| == NUM_POLYS && forall i :: 0 <= i < NUM_POLYS ==> pts[i].Valid()
  }

  ghost function AddChunkTo(pts: seq<Points>, chunk: Chunk, total: nat): seq<Points>
    requires |pts| == NUM_POLYS
  {
    seq(NUM_POLYS, i requires 0 <= i < NUM_POLYS =>
      AddPoint(pts[i], chunk.index, SymbolsOf(chunk.data)[i], NecessaryPoints(total, i)))
  }

  predicate Enough(pts: seq<Points>, total: nat)
    requires |pts| == NUM_POLYS
  {
    forall i :: 0 <= i < NUM_POLYS ==> |pts[i].xs| >= NecessaryPoints(total, i)
  }

  /// The reconstructed message, once every stream has enough points.
  ghost function Decode(pts: seq<Points>, total: nat): Option<bytes>
    requires ValidPoints(pts)
  {
    if Enough(pts, total) then Some(BytesOf(Symbols(pts, total))) else None
  }

  ghost function Symbols(pts: seq<Points>, total: nat): (s: seq<bv16>)
    requires ValidPoints(pts) && Enough(pts, total)
    ensures |s| == total
  {
    seq(total, i requires 0 <= i < total => Symbol(pts, total, i))
  }

  /// Symbol i of the message, of stream i mod 16.
  function Symbol(pts: seq<Points>, total: nat, i: nat): bv16
    requires ValidPoints(pts) && Enough(pts, total) && i < total
  {
    SymbolIndex(pts, total, i);
    EnoughIsSome(pts[i % NUM_POLYS], i / NUM_POLYS, NecessaryPoints(total, i % NUM_POLYS));
    ValueAt(pts[i % NUM_POLYS], i / NUM_POLYS, NecessaryPoints(total, i % NUM_POLYS)).value
  }

  lemma SymbolIndex(pts: seq<Points>, total: nat, i: nat)
    requires ValidPoints(pts) && Enough(pts, total) && i < total
    ensures i / NUM_POLYS < NecessaryPoints(total, i % NUM_POLYS) <= MAX_PTS
  {
    NecessaryPointsMeaning(total, i % NUM_POLYS, i / NUM_POLYS);
    assert |pts[i % NUM_POLYS].xs| >= NecessaryPoints(total, i % NUM_POLYS);
  }

  class PolyDecoder {
    const total: nat  // pts_needed
    var pts: seq<Points>
    var isComplete: bool

    predicate Valid()
      reads this
    {
      ValidPoints(pts)
    }

    constructor (total: nat)
      ensures Valid() && this.total == total && !isComplete
      ensures pts == seq(NUM_POLYS, i => Points([], []))
    {
      this.total := total;
      pts := seq(NUM_POLYS, i => Points([], []));
      isComplete := false;
    }

    method AddChunk(chunk: Chunk)
      requires Valid()
      modifies this`pts
      ensures Valid()
      ensures pts == AddChunkTo(old(pts), chunk, total)
    {
      hide Joined;
      for i := 0 to NUM_POLYS
        invariant Valid()
        invariant forall j :: i <= j < NUM_POLYS ==> pts[j] == old(pts)[j]
        invariant forall j :: 0 <= j < i ==> pts[j] == AddChunkTo(old(pts), chunk, total)[j]
      {
        var totalIdx := chunk.index * NUM_POLYS + i;
        var poly := totalIdx % NUM_POLYS;
        var y := Joined(chunk.data[i * 2], chunk.data[i * 2 + 1]);
        var p := Add(pts[poly], totalIdx / NUM_POLYS, y, NecessaryPoints(total, poly));
        pts := pts[poly := p];
      }
    }

    method HasEnough() returns (b: bool)
      requires Valid()
      ensures b == Enough(pts, total)
    {
      for i := 0 to NUM_POLYS
        invariant forall j :: 0 <= j < i ==> |pts[j].xs| >= NecessaryPoints(total, j)
      {
        if |pts[i].xs| < NecessaryPoints(total, i) {
          return false;
        }
      }
      return true;
    }

    method Reconstruct() returns (out: bytes)
      requires Valid() && Enough(pts, total)
      ensures Decode(pts, total) == Some(out)
    {
      hide ValueAt, High, Low, BytesOf;
      NoBytes();
      out := [];
      ghost var values: seq<bv16> := [];
      for i := 0 to total
        invariant |values| == i && out == BytesOf(values)
        invariant forall j :: 0 <= j < i ==> values[j] == Symbol(pts, total, j)
      {
        SymbolIndex(pts, total, i);
        var v := GetY(pts[i % NUM_POLYS], i / NUM_POLYS, NecessaryPoints(total, i % NUM_POLYS));
        EnoughIsSome(pts[i % NUM_POLYS], i / NUM_POLYS, NecessaryPoints(total, i % NUM_POLYS));
        out := out + [High(v.value), Low(v.value)];
        BytesNext(values, v.value);
        values := values + [v.value];
      }
      assert values == Symbols(pts, total);
    }

    /// The message, once; None before there are enough points and after it has been given out.
    method DecodedMessage() returns (r: Option<bytes>)
      requires Valid()
      modifies this`isComplete
      ensures r == if old(isComplete) then None else Decode(pts, total)
      ensures isComplete == (old(isComplete) || r.Some?)
    {
      if isComplete {
        return None;
      }
      var enough := HasEnough();
      if !enough {
        return None;
      }
      var out := Reconstruct();
      isComplete := true;
      r := Some(out);
    }
  }

  /// PolyDecoder.init: an odd length is an error.
  method DecoderFor(length: nat) returns (d: Option<PolyDecoder>)
    ensures d.None? <==> length % 2 != 0
    ensures d.Some? ==> fresh(d.value) && d.value.Valid() && d.value.total == length / 2 && !d.value.isComplete
    ensures d.Some? ==> d.value.pts == seq(NUM_POLYS, i => Points([], []))
  {
    if length % 2 != 0 {
      return None;
    }
    var decoder := new PolyDecoder(length / 2);
    d := Some(decoder);
  }

  lemma EnoughIsSome(p: Points, x: Index, needed: nat)
    requires p.Valid() && |p.xs| >= needed
    ensures ValueAt(p, x, needed).Some?
  {
  }

  // ---------------------------------------------------------------- delivering chunks

  function IndexSet(ks: seq<Index>): set<Index> {
    set k | k in ks
  }

  /// The points of a stream after the chunks ks have been added, in that order.
  function PointsAfter(s: seq<bv16>, ks: seq<Index>, needed: nat): Points {
    if ks == [] then Points([], [])
    else
      var k := ks[|ks| - 1];
      AddPoint(PointsAfter(s, ks[..|ks| - 1], needed), k, Element(s, k), needed)
  }

  /// Every stored point is genuine, and no index is dropped before there are enough.
  ghost predicate Genuine(p: Points, s: seq<bv16>, ks: seq<Index>, needed: nat) {
    && p.Valid() && NoRepeats(p.xs)
    && (forall i :: 0 <= i < |p.xs| ==> p.ys[i] == Element(s, p.xs[i]))
    && IndexSet(p.xs) <= IndexSet(ks)
    && (|p.xs| < needed && |p.xs| < MAX_PTS ==> IndexSet(p.xs) == IndexSet(ks))
  }

  lemma {:induction false} PointsGenuine(s: seq<bv16>, ks: seq<Index>, needed: nat)
    ensures Genuine(PointsAfter(s, ks, needed), s, ks, needed)
  {
    hide Element;
    if ks != [] {
      var init, k := ks[..|ks| - 1], ks[|ks| - 1];
      PointsGenuine(s, init, needed);
      var p, q := PointsAfter(s, init, needed), PointsAfter(s, ks, needed);
      assert ks == init + [k];
      assert IndexSet(ks) == IndexSet(init) + {k};
      if q != p {
        assert IndexSet(q.xs) == IndexSet(p.xs) + {k};
      }
    }
  }

  lemma {:induction false} CountDistinct(xs: seq<Index>)
    requires NoRepeats(xs)
    ensures |IndexSet(xs)| == |xs|
  {
    if xs != [] {
      CountDistinct(xs[1..]);
      assert IndexSet(xs) == {xs[0]} + IndexSet(xs[1..]);
    }
  }

  lemma SubsetSize(a: set<Index>, b: set<Index>)
    requires a <= b
    ensures |a| <= |b|
  {
    assert b == a + (b - a);
  }

  /// A stream has enough points exactly when enough different chunks arrived -- if it can hold them.
  lemma EnoughPoints(s: seq<bv16>, ks: seq<Index>, needed: nat)
    ensures |PointsAfter(s, ks, needed).xs| >= needed <==> needed <= MAX_PTS && |IndexSet(ks)| >= needed
  {
    var p := PointsAfter(s, ks, needed);
    PointsGenuine(s, ks, needed);
    CountDistinct(p.xs);
    SubsetSize(IndexSet(p.xs), IndexSet(ks));
  }

  /// Any enough points give every symbol of the stream back.
  lemma ValueRecovered(p: Points, s: seq<bv16>, ks: seq<Index>, x: Index)
    requires Genuine(p, s, ks, |s|) && |p.xs| >= |s| && x < |s|
    ensures ValueAt(p, x, |s|) == Some(s[x])
  {
    hide Interpolate, Element16;
    if x !in p.xs {
      ElementsDistinct(p.xs);
      forall i | 0 <= i < |p.xs| ensures p.ys[i] == Code(s, p.xs[i]) {
        ElementOnCurve(s, p.xs[i]);
      }
      Exact(Elements(Positions(|s|)), s, Elements(p.xs), p.ys, Element16(x));
      ElementOnCurve(s, x);
    }
  }

  /// All 16 streams after the chunks ks of a message.
  ghost function DecoderAfter(msg: seq<bv16>, ks: seq<Index>): seq<Points> {
    if ks == [] then seq(NUM_POLYS, i => Points([], []))
    else
      var rest := DecoderAfter(msg, ks[..|ks| - 1]);
      if |rest| == NUM_POLYS then AddChunkTo(rest, ChunkOf(msg, ks[|ks| - 1]), |msg|) else []
  }

  lemma {:induction false} DecoderStreams(msg: seq<bv16>, ks: seq<Index>)
    ensures |DecoderAfter(msg, ks)| == NUM_POLYS
    ensures forall i :: 0 <= i < NUM_POLYS ==>
      DecoderAfter(msg, ks)[i] == PointsAfter(StreamOf(msg, i), ks, NecessaryPoints(|msg|, i))
  {
    hide Element, SymbolsOf, BytesOf;
    if ks != [] {
      DecoderStreams(msg, ks[..|ks| - 1]);
      SymbolsBytes(Elements16(msg, ks[|ks| - 1]));
    }
  }

  lemma DecoderValid(msg: seq<bv16>, ks: seq<Index>)
    ensures ValidPoints(DecoderAfter(msg, ks))
    ensures Enough(DecoderAfter(msg, ks), |msg|)
       <==> NecessaryPoints(|msg|, 0) <= MAX_PTS && |IndexSet(ks)| >= NecessaryPoints(|msg|, 0)
  {
    hide Element, PointsAfter;
    DecoderStreams(msg, ks);
    forall i | 0 <= i < NUM_POLYS
      ensures DecoderAfter(msg, ks)[i].Valid()
      ensures |DecoderAfter(msg, ks)[i].xs| >= NecessaryPoints(|msg|, i)
         <==> NecessaryPoints(|msg|, i) <= MAX_PTS && |IndexSet(ks)| >= NecessaryPoints(|msg|, i)
    {
      PointsGenuine(StreamOf(msg, i), ks, NecessaryPoints(|msg|, i));
      EnoughPoints(StreamOf(msg, i), ks, NecessaryPoints(|msg|, i));
    }
  }

  lemma SymbolRecovered(msg: seq<bv16>, ks: seq<Index>, i: nat)
    requires i < |msg|
    requires ValidPoints(DecoderAfter(msg, ks)) && Enough(DecoderAfter(msg, ks), |msg|)
    ensures Symbol(DecoderAfter(msg, ks), |msg|, i) == msg[i]
  {
    hide Element, ValueAt, PointsAfter, DecoderAfter;
    var pts := DecoderAfter(msg, ks);
    var s := StreamOf(msg, i % NUM_POLYS);
    DecoderStreams(msg, ks);
    SymbolIndex(pts, |msg|, i);
    PointsGenuine(s, ks, |s|);
    ValueRecovered(pts[i % NUM_POLYS], s, ks, i / NUM_POLYS);
  }

  /// The erasure code works: whatever chunks of a message arrive, in whatever order and however
  /// often, the decoder gives back the message exactly when the number of different chunks
  /// reaches the length of the longest stream, which must not exceed MAX_PTS.
  lemma ErasureCode(msg: bytes, ks: seq<Index>)
    requires |msg| % 2 == 0
    ensures ValidPoints(DecoderAfter(SymbolsOf(msg), ks))
    ensures var total := |msg| / 2;
      Decode(DecoderAfter(SymbolsOf(msg), ks), total)
         == if NecessaryPoints(total, 0) <= MAX_PTS && |IndexSet(ks)| >= NecessaryPoints(total, 0)
            then Some(msg) else None
  {
    hide Symbol, DecoderAfter, NecessaryPoints, Enough, SymbolsOf, BytesOf;
    var symbols := SymbolsOf(msg);
    DecoderValid(symbols, ks);
    var pts := DecoderAfter(symbols, ks);
    if Enough(pts, |symbols|) {
      forall i | 0 <= i < |symbols| ensures Symbol(pts, |symbols|, i) == symbols[i] {
        SymbolRecovered(symbols, ks, i);
      }
      assert Symbols(pts, |symbols|) == symbols;
      BytesSymbols(msg);
    }
  }
}
