/** The MD5 message digest of RFC 1321, sections 3.1 to 3.5, as one function of the
    whole message. The other MD5 modules are measured against this one. */
module Md5Spec {
  import opened Bytes
  import opened Md5Primitives

  datatype Quad = Quad(a: Word, b: Word, c: Word, d: Word)

  const MAGIC := Quad(0x67452301, 0xefcdab89, 0x98badcfe, 0x10325476)

  // One line of the listing in section 3.4: which word of the block to read, how far to
  // rotate, and which constant to add.
  datatype Line = Line(k: nat, s: nat, t: Word)

  function Listing(i: nat): (line: Line)
    ensures line.k < 16
  {
    match i
    case 0 => Line(0, 7, 0xd76aa478)
    case 1 => Line(1, 12, 0xe8c7b756)
    case 2 => Line(2, 17, 0x242070db)
    case 3 => Line(3, 22, 0xc1bdceee)
    case 4 => Line(4, 7, 0xf57c0faf)
    case 5 => Line(5, 12, 0x4787c62a)
    case 6 => Line(6, 17, 0xa8304613)
    case 7 => Line(7, 22, 0xfd469501)
    case 8 => Line(8, 7, 0x698098d8)
    case 9 => Line(9, 12, 0x8b44f7af)
    case 10 => Line(10, 17, 0xffff5bb1)
    case 11 => Line(11, 22, 0x895cd7be)
    case 12 => Line(12, 7, 0x6b901122)
    case 13 => Line(13, 12, 0xfd987193)
    case 14 => Line(14, 17, 0xa679438e)
    case 15 => Line(15, 22, 0x49b40821)
    case 16 => Line(1, 5, 0xf61e2562)
    case 17 => Line(6, 9, 0xc040b340)
    case 18 => Line(11, 14, 0x265e5a51)
    case 19 => Line(0, 20, 0xe9b6c7aa)
    case 20 => Line(5, 5, 0xd62f105d)
    case 21 => Line(10, 9, 0x02441453)
    case 22 => Line(15, 14, 0xd8a1e681)
    case 23 => Line(4, 20, 0xe7d3fbc8)
    case 24 => Line(9, 5, 0x21e1cde6)
    case 25 => Line(14, 9, 0xc33707d6)
    case 26 => Line(3, 14, 0xf4d50d87)
    case 27 => Line(8, 20, 0x455a14ed)
    case 28 => Line(13, 5, 0xa9e3e905)
    case 29 => Line(2, 9, 0xfcefa3f8)
    case 30 => Line(7, 14, 0x676f02d9)
    case 31 => Line(12, 20, 0x8d2a4c8a)
    case 32 => Line(5, 4, 0xfffa3942)
    case 33 => Line(8, 11, 0x8771f681)
    case 34 => Line(11, 16, 0x6d9d6122)
    case 35 => Line(14, 23, 0xfde5380c)
    case 36 => Line(1, 4, 0xa4beea44)
    case 37 => Line(4, 11, 0x4bdecfa9)
    case 38 => Line(7, 16, 0xf6bb4b60)
    case 39 => Line(10, 23, 0xbebfbc70)
    case 40 => Line(13, 4, 0x289b7ec6)
    case 41 => Line(0, 11, 0xeaa127fa)
    case 42 => Line(3, 16, 0xd4ef3085)
    case 43 => Line(6, 23, 0x04881d05)
    case 44 => Line(9, 4, 0xd9d4d039)
    case 45 => Line(12, 11, 0xe6db99e5)
    case 46 => Line(15, 16, 0x1fa27cf8)
    case 47 => Line(2, 23, 0xc4ac5665)
    case 48 => Line(0, 6, 0xf4292244)
    case 49 => Line(7, 10, 0x432aff97)
    case 50 => Line(14, 15, 0xab9423a7)
    case 51 => Line(5, 21, 0xfc93a039)
    case 52 => Line(12, 6, 0x655b59c3)
    case 53 => Line(3, 10, 0x8f0ccc92)
    case 54 => Line(10, 15, 0xffeff47d)
    case 55 => Line(1, 21, 0x85845dd1)
    case 56 => Line(8, 6, 0x6fa87e4f)
    case 57 => Line(15, 10, 0xfe2ce6e0)
    case 58 => Line(6, 15, 0xa3014314)
    case 59 => Line(13, 21, 0x4e0811a1)
    case 60 => Line(4, 6, 0xf7537e82)
    case 61 => Line(11, 10, 0xbd3af235)
    case 62 => Line(2, 15, 0x2ad7d2bb)
    case 63 => Line(9, 21, 0xeb86d391)
    case _ => Line(0, 0, 0)
  }

  function Mix(p: Primitives, i: nat, x: Word, y: Word, z: Word): Word {
    if i < 16 then p.f(x, y, z) else if i < 32 then p.g(x, y, z) else if i < 48 then p.h(x, y, z) else p.i(x, y, z)
  }

  type Block = x: seq<Word> | |x| == 16 witness seq(16, _ => 0)

  // One of the 64 operations; afterwards the registers have moved round by one.
  function Operation(p: Primitives, i: nat, q: Quad, x: Block): Quad {
    var line := Listing(i);
    var sum := p.add(p.add(p.add(q.a, Mix(p, i, q.b, q.c, q.d)), x[line.k]), line.t);
    Quad(q.d, p.add(p.rotateLeft(sum, line.s), q.b), q.b, q.c)
  }

  // Operations number `from` up to, not including, `to`.
  function Operations(p: Primitives, q: Quad, x: Block, from: nat, to: nat): Quad
    decreases |x|, to
  {
    if to <= from then q else Operation(p, to - 1, Operations(p, q, x, from, to - 1), x)
  }

  function AddQuads(p: Primitives, q: Quad, r: Quad): Quad {
    Quad(p.add(q.a, r.a), p.add(q.b, r.b), p.add(q.c, r.c), p.add(q.d, r.d))
  }

  // Little-endian words.
  function WordOf(b: seq<Byte>): Word
    requires |b| == 4
  {
    b[0] + 0x100 * (b[1] + 0x100 * (b[2] + 0x100 * b[3] as int) as int) as int
  }

  function BytesOf(w: Word): (b: seq<Byte>)
    ensures |b| == 4
  {
    [w % 0x100, w / 0x100 % 0x100, w / 0x100 / 0x100 % 0x100, w / 0x100 / 0x100 / 0x100]
  }

  type Chunk = b: seq<Byte> | |b| == 64 witness seq(64, _ => 0)

  function WordsOf(b: Chunk): Block {
    seq(16, i requires 0 <= i < 16 => WordOf(b[4 * i..4 * i + 4]))
  }

  // Four operations for each of the 16 words.
  function Compress(p: Primitives, q: Quad, b: Chunk): Quad {
    AddQuads(p, q, Operations(p, q, WordsOf(b), 0, 4 * |WordsOf(b)|))
  }

  // What chains the blocks together does not depend on how one block is compressed.
  type Compressor = (Quad, Chunk) -> Quad

  function Compression(p: Primitives): Compressor {
    (q: Quad, b: Chunk) => Compress(p, q, b)
  }

  // All whole blocks of the data, in order.
  function CompressAll(f: Compressor, q: Quad, data: seq<Byte>): Quad
    decreases |data|
  {
    if |data| < 64 then q else CompressAll(f, f(q, data[..64]), data[64..])
  }

  // Section 3.1: one 1 bit, then zeros up to 56 bytes past a multiple of 64.
  function Padding(length: nat): (p: seq<Byte>)
    ensures 1 <= |p| <= 64
    ensures (length + |p|) % 64 == 56
  {
    [0x80] + seq((119 - length % 64) % 64, _ => 0)
  }

  // Section 3.2: the bit length, low-order word first, modulo 2^64.
  function LengthField(length: nat): (b: seq<Byte>)
    ensures |b| == 8
  {
    BytesOf(8 * length % WORD_SIZE) + BytesOf(8 * length / WORD_SIZE % WORD_SIZE)
  }

  function Output(q: Quad): (b: seq<Byte>)
    ensures |b| == 16
  {
    BytesOf(q.a) + BytesOf(q.b) + BytesOf(q.c) + BytesOf(q.d)
  }

  function Digest(f: Compressor, message: seq<Byte>): (b: seq<Byte>)
    ensures |b| == 16
  {
    Output(CompressAll(f, MAGIC, message + Padding(|message|) + LengthField(|message|)))
  }

  function Md5(message: seq<Byte>): (b: seq<Byte>)
    ensures |b| == 16
  {
    Digest(Compression(RFC1321), message)
  }
}
