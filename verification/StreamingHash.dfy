/** The streaming SHA-256 that the store keeps per upload: bytes are buffered into 64-byte blocks,
    each full block is folded into the chaining value, and the padding is added at the end.
    The compression step, the initial value and the hexadecimal rendering are parameters, so the
    results hold for every choice of them. */
module StreamingHash {

  type byte = b: int | 0 <= b < 256
  type Bytes = seq<byte>

  const BLOCK: nat := 64
  const WORD64: nat := 0x1_0000_0000_0000_0000

  datatype Algorithm = Algorithm(iv: int, step: (int, Bytes) -> int, hex: int -> string)

  // ----- The standard's definition (FIPS 180-4, sections 5.1.1, 5.2.1 and 6.2) -----

  function BigEndian(n: nat, width: nat): (r: Bytes)
    ensures |r| == width
  {
    if width == 0 then [] else BigEndian(n / 256, width - 1) + [n % 256]
  }

  function Zeros(n: nat): (r: Bytes)
    ensures |r| == n
  {
    seq(n, _ => 0)
  }

  /** The fewest zeros that leave room for the length field at the end of a block. */
  function ZeroCount(used: nat): nat
    requires used < BLOCK
  {
    if used < BLOCK - 8 then BLOCK - 9 - used else 2 * BLOCK - 9 - used
  }

  function LengthField(length: nat): (r: Bytes)
    ensures |r| == 8
  {
    BigEndian(8 * length % WORD64, 8)
  }

  /** One 1-bit, then zeros, then the bit length in 64 bits, up to a whole number of blocks. */
  function Padding(length: nat): (r: Bytes)
    ensures |r| == 9 + ZeroCount(length % BLOCK)
  {
    [0x80] + Zeros(ZeroCount(length % BLOCK)) + LengthField(length)
  }

  lemma BlockArithmetic(a: nat, b: nat)
    ensures a % BLOCK + b < BLOCK ==> (a + b) % BLOCK == a % BLOCK + b && (a + b) / BLOCK == a / BLOCK
    ensures a % BLOCK + b == BLOCK ==> (a + b) % BLOCK == 0 && (a + b) / BLOCK == a / BLOCK + 1
    ensures a % BLOCK + b == 2 * BLOCK ==> (a + b) % BLOCK == 0
    ensures (a - a % BLOCK) % BLOCK == 0
  {
  }

  /** The chaining value after the whole blocks of `m`. */
  function Fold(alg: Algorithm, chain: int, m: Bytes): int
    requires |m| % BLOCK == 0
    decreases |m|
  {
    if m == [] then chain else Fold(alg, alg.step(chain, m[..BLOCK]), m[BLOCK..])
  }

  function Sha256(alg: Algorithm, m: Bytes): string {
    BlockArithmetic(|m|, |Padding(|m|)|);
    alg.hex(Fold(alg, alg.iv, m + Padding(|m|)))
  }

  // ----- What the definition says, in the standard's own terms -----

  function Pow256(n: nat): (r: nat)
    ensures r >= 1
  {
    if n == 0 then 1 else 256 * Pow256(n - 1)
  }

  /** The number that bytes stand for, the most significant first. */
  function Value(b: Bytes): nat {
    if b == [] then 0 else b[0] * Pow256(|b| - 1) + Value(b[1..])
  }

  lemma {:induction false} ValueSnoc(b: Bytes, last: byte)
    ensures Value(b + [last]) == 256 * Value(b) + last
    decreases |b|
  {
    var more := b + [last];
    if b == [] {
      assert more[1..] == [];
    } else {
      assert more[1..] == b[1..] + [last];
      ValueSnoc(b[1..], last);
      assert Value(more) == b[0] * Pow256(|b|) + Value(more[1..]);
      assert b[0] * Pow256(|b|) == b[0] * (256 * Pow256(|b| - 1)) == 256 * (b[0] * Pow256(|b| - 1));
    }
  }

  lemma Multiples(m: nat, d: int)
    ensures d >= 1 ==> m * d >= m
    ensures d <= -1 ==> m * d <= 0 - m
  {
  }

  lemma Remainder(n: nat, m: nat, q: nat, r: nat)
    requires m >= 1 && n == m * q + r && r < m
    ensures n % m == r
  {
    var d := q - n / m;
    assert m * d == n % m - r by {
      assert n == m * (n / m) + n % m;
    }
    Multiples(m, d);
  }

  lemma DigitSplit(n: nat, m: nat)
    requires m >= 1
    ensures n % (256 * m) == 256 * (n / 256 % m) + n % 256
  {
    var q, r := n / 256, n % 256;
    var qq, qr := q / m, q % m;
    assert n == 256 * (qq * m + qr) + r == (256 * m) * qq + (256 * qr + r);
    Remainder(n, 256 * m, qq, 256 * qr + r);
  }

  /** Big-endian bytes stand for the number itself, up to what their width can hold. */
  lemma {:induction false} BigEndianValue(n: nat, width: nat)
    ensures Value(BigEndian(n, width)) == n % Pow256(width)
    decreases width
  {
    if width > 0 {
      BigEndianValue(n / 256, width - 1);
      ValueSnoc(BigEndian(n / 256, width - 1), n % 256);
      DigitSplit(n, Pow256(width - 1));
    }
  }

  lemma EightBytes()
    ensures Pow256(8) == 0x1_0000_0000_0000_0000
  {
    assert Pow256(4) == 256 * Pow256(3) == 65536 * Pow256(2) == 0x1_0000_0000;
    assert Pow256(8) == 256 * Pow256(7) == 65536 * Pow256(6);
    assert Pow256(6) == 256 * Pow256(5) == 65536 * Pow256(4);
  }

  /** The padding of section 5.1.1: a 1-bit, zeros, and the length in bits as a 64-bit big-endian
      number; the least that fills up a block of 64 bytes. */
  lemma PaddingIsStandard(length: nat)
    ensures var p := Padding(length);
            && 9 <= |p| <= 72 && (length + |p|) % 64 == 0
            && p[0] == 0x80
            && (forall i :: 1 <= i < |p| - 8 ==> p[i] == 0)
            && Value(p[|p| - 8..]) == 8 * length % 0x1_0000_0000_0000_0000
  {
    var p := Padding(length);
    BlockArithmetic(length, |p|);
    assert p[|p| - 8..] == LengthField(length);
    BigEndianValue(8 * length % WORD64, 8);
    EightBytes();
  }

  /** Section 6.2 takes the message 64 bytes at a time. */
  lemma BlocksOf64(alg: Algorithm, chain: int, block: Bytes, rest: Bytes)
    requires |block| == 64 && |rest| % 64 == 0
    ensures |block + rest| % BLOCK == 0 && |rest| % BLOCK == 0
    ensures Fold(alg, chain, []) == chain
    ensures Fold(alg, chain, block + rest) == Fold(alg, alg.step(chain, block), rest)
  {
    assert (block + rest)[..64] == block && (block + rest)[64..] == rest;
  }

  // ----- The incremental hasher -----

  datatype HasherState = HasherState(chain: int, buffer: Bytes, blocks: nat)
  type Hasher = h: HasherState | |h.buffer| < BLOCK witness HasherState(0, [], 0)

  function New(alg: Algorithm): Hasher {
    HasherState(alg.iv, [], 0)
  }

  function Update(alg: Algorithm, h: Hasher, data: Bytes): Hasher
    decreases |data|
  {
    var room := BLOCK - |h.buffer|;
    if |data| < room then
      h.(buffer := h.buffer + data)
    else
      Update(alg, HasherState(alg.step(h.chain, h.buffer + data[..room]), [], h.blocks + 1), data[room..])
  }

  function Finish(alg: Algorithm, h: Hasher): string {
    var used := |h.buffer|;
    var bits := LengthField(used + BLOCK * h.blocks);
    if used < BLOCK - 8 then
      alg.hex(alg.step(h.chain, h.buffer + [0x80] + Zeros(BLOCK - 9 - used) + bits))
    else
      var spilled := alg.step(h.chain, h.buffer + [0x80] + Zeros(BLOCK - 1 - used));
      alg.hex(alg.step(spilled, Zeros(BLOCK - 8) + bits))
  }

  /** The hasher that has absorbed exactly the bytes `m`, in any chunking. */
  function HasherOf(alg: Algorithm, m: Bytes): Hasher {
    var whole := |m| - |m| % BLOCK;
    BlockArithmetic(|m|, 0);
    HasherState(Fold(alg, alg.iv, m[..whole]), m[whole..], |m| / BLOCK)
  }

  // ----- Chunking does not matter -----

  lemma {:induction false} FoldConcat(alg: Algorithm, chain: int, a: Bytes, b: Bytes)
    requires |a| % BLOCK == 0 && |b| % BLOCK == 0
    ensures Fold(alg, chain, a + b) == Fold(alg, Fold(alg, chain, a), b)
    decreases |a|
  {
    if a == [] {
      assert a + b == b;
    } else {
      assert (a + b)[..BLOCK] == a[..BLOCK] && (a + b)[BLOCK..] == a[BLOCK..] + b;
      FoldConcat(alg, alg.step(chain, a[..BLOCK]), a[BLOCK..], b);
    }
  }

  lemma FoldOneMore(alg: Algorithm, chain: int, a: Bytes, block: Bytes)
    requires |a| % BLOCK == 0 && |block| == BLOCK
    ensures Fold(alg, chain, a + block) == alg.step(Fold(alg, chain, a), block)
  {
    FoldConcat(alg, chain, a, block);
    assert block[..BLOCK] == block && block[BLOCK..] == [];
  }

  /** Filling the buffer exactly and compressing it is the same as having absorbed those bytes. */
  lemma FillBlock(alg: Algorithm, m: Bytes, d: Bytes)
    requires |m| % BLOCK + |d| == BLOCK
    ensures var h := HasherOf(alg, m);
            HasherState(alg.step(h.chain, h.buffer + d), [], h.blocks + 1) == HasherOf(alg, m + d)
  {
    var whole := |m| - |m| % BLOCK;
    BlockArithmetic(|m|, |d|);
    assert (m + d)[..|m + d|] == m[..whole] + (m[whole..] + d);
    FoldOneMore(alg, alg.iv, m[..whole], m[whole..] + d);
  }

  lemma BufferMore(alg: Algorithm, m: Bytes, d: Bytes)
    requires |m| % BLOCK + |d| < BLOCK
    ensures var h := HasherOf(alg, m);
            h.(buffer := h.buffer + d) == HasherOf(alg, m + d)
  {
    var whole := |m| - |m| % BLOCK;
    BlockArithmetic(|m|, |d|);
    assert (m + d)[..whole] == m[..whole] && (m + d)[whole..] == m[whole..] + d;
  }

  /** Bytes that fill the buffer exactly are compressed at once; the rest goes on from there. */
  lemma UpdateOneBlock(alg: Algorithm, h: Hasher, d: Bytes, rest: Bytes)
    requires |h.buffer| + |d| == BLOCK
    ensures Update(alg, h, d + rest) ==
              Update(alg, HasherState(alg.step(h.chain, h.buffer + d), [], h.blocks + 1), rest)
  {
    assert (d + rest)[..|d|] == d && (d + rest)[|d|..] == rest;
  }

  /** Feeding `data` to a hasher that absorbed `m` gives the hasher that absorbed `m + data`. */
  lemma {:induction false} UpdateAbsorbs(alg: Algorithm, m: Bytes, data: Bytes)
    ensures Update(alg, HasherOf(alg, m), data) == HasherOf(alg, m + data)
    decreases |data|
  {
    var room := BLOCK - |m| % BLOCK;
    if |data| < room {
      BufferMore(alg, m, data);
    } else {
      var d, rest := data[..room], data[room..];
      assert data == d + rest && m + d + rest == m + data;
      UpdateOneBlock(alg, HasherOf(alg, m), d, rest);
      FillBlock(alg, m, d);
      UpdateAbsorbs(alg, m + d, rest);
    }
  }

  /** When the length field does not fit in the last block, the padding spills into another. */
  lemma PaddingSpills(length: nat)
    requires length % BLOCK >= BLOCK - 8
    ensures Padding(length) == ([0x80] + Zeros(BLOCK - 1 - length % BLOCK)) + (Zeros(BLOCK - 8) + LengthField(length))
  {
    var used := length % BLOCK;
    assert Zeros(ZeroCount(used)) == Zeros(BLOCK - 1 - used) + Zeros(BLOCK - 8);
  }

  lemma FoldTwoMore(alg: Algorithm, chain: int, a: Bytes, first: Bytes, second: Bytes)
    requires |a| % BLOCK == 0 && |first| == BLOCK && |second| == BLOCK
    ensures Fold(alg, chain, a + (first + second)) == alg.step(alg.step(Fold(alg, chain, a), first), second)
  {
    assert a + (first + second) == (a + first) + second;
    FoldOneMore(alg, chain, a + first, second);
    FoldOneMore(alg, chain, a, first);
  }

  /** The hasher's answer is the standard's digest of what it absorbed. */
  lemma FinishIsSha256(alg: Algorithm, m: Bytes)
    ensures Finish(alg, HasherOf(alg, m)) == Sha256(alg, m)
  {
    var used := |m| % BLOCK;
    var head, tail := m[..|m| - used], m[|m| - used..];
    BlockArithmetic(|m|, |Padding(|m|)|);
    assert used + BLOCK * (|m| / BLOCK) == |m|;
    assert m + Padding(|m|) == head + (tail + Padding(|m|));
    if used < BLOCK - 8 {
      assert tail + Padding(|m|) == tail + [0x80] + Zeros(BLOCK - 9 - used) + LengthField(|m|);
      FoldOneMore(alg, alg.iv, head, tail + Padding(|m|));
    } else {
      var first, second := tail + [0x80] + Zeros(BLOCK - 1 - used), Zeros(BLOCK - 8) + LengthField(|m|);
      PaddingSpills(|m|);
      assert tail + Padding(|m|) == first + second;
      FoldTwoMore(alg, alg.iv, head, first, second);
    }
  }

  function Concat(chunks: seq<Bytes>): Bytes {
    if chunks == [] then [] else chunks[0] + Concat(chunks[1..])
  }

  lemma {:induction false} ConcatSnoc(chunks: seq<Bytes>, last: Bytes)
    ensures Concat(chunks + [last]) == Concat(chunks) + last
    decreases |chunks|
  {
    if chunks == [] {
      assert Concat([last]) == last + Concat([last][1..]);
    } else {
      assert (chunks + [last])[1..] == chunks[1..] + [last];
      ConcatSnoc(chunks[1..], last);
    }
  }

  // ----- The interface the store uses -----

  /** A streaming digest: a starting state, feeding it bytes, its answer, and (for specifications)
      the state that a byte string leads to. */
  datatype DigestApi = DigestApi(
    start: Hasher, update: (Hasher, Bytes) -> Hasher, finish: Hasher -> string, absorbed: Bytes -> Hasher)

  function Absorbed(h: DigestApi, m: Bytes): Hasher { h.absorbed(m) }

  function Digest(h: DigestApi, m: Bytes): string { h.finish(Absorbed(h, m)) }

  /** Only the bytes fed count, not how they were cut. */
  ghost predicate Streams(h: DigestApi) {
    && h.start == h.absorbed([])
    && forall m: Bytes, d: Bytes :: h.update(h.absorbed(m), d) == h.absorbed(m + d)
  }

  function Sha256Api(alg: Algorithm): DigestApi {
    DigestApi(New(alg),
              (h: Hasher, d: Bytes) => Update(alg, h, d),
              (h: Hasher) => Finish(alg, h),
              (m: Bytes) => HasherOf(alg, m))
  }

  /** Block-buffered SHA-256 streams. */
  lemma Sha256Streams(alg: Algorithm)
    ensures Streams(Sha256Api(alg))
  {
    var h := Sha256Api(alg);
    assert h.start == h.absorbed([]);
    forall m: Bytes, d: Bytes ensures h.update(h.absorbed(m), d) == h.absorbed(m + d) {
      UpdateAbsorbs(alg, m, d);
    }
  }

  /** The digest the store reports with it is the standard's. */
  lemma Sha256Digests(alg: Algorithm, m: Bytes)
    ensures Digest(Sha256Api(alg), m) == Sha256(alg, m)
  {
    FinishIsSha256(alg, m);
  }

  function SomeHashing(): (h: DigestApi)
    ensures Streams(h)
  {
    var alg := Algorithm(0, (c: int, b: Bytes) => c, (c: int) => "");
    Sha256Streams(alg);
    Sha256Api(alg)
  }

  /** Any digest that streams; block-buffered SHA-256 is one. */
  type Hashing = h: DigestApi | Streams(h) witness SomeHashing()

  function UpdateAll(h: Hashing, state: Hasher, chunks: seq<Bytes>): Hasher
    decreases |chunks|
  {
    if chunks == [] then state else UpdateAll(h, h.update(state, chunks[0]), chunks[1..])
  }

  lemma {:induction false} UpdateAllAbsorbs(h: Hashing, m: Bytes, chunks: seq<Bytes>)
    ensures UpdateAll(h, Absorbed(h, m), chunks) == Absorbed(h, m + Concat(chunks))
    decreases |chunks|
  {
    if chunks == [] {
      assert m + [] == m;
    } else {
      UpdateAllAbsorbs(h, m + chunks[0], chunks[1..]);
      assert m + chunks[0] + Concat(chunks[1..]) == m + Concat(chunks);
    }
  }

  /** Every way of cutting a byte string into chunks, empty ones included, gives the same digest. */
  lemma ChunkingIrrelevant(h: Hashing, chunks: seq<Bytes>)
    ensures h.finish(UpdateAll(h, h.start, chunks)) == Digest(h, Concat(chunks))
  {
    UpdateAllAbsorbs(h, [], chunks);
    assert [] + Concat(chunks) == Concat(chunks);
  }
}
