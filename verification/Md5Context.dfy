/** The streaming context as a value: what absorbing bytes means, and that it does not
    matter how they are split. */
module Md5Context {
  import opened Bytes
  import opened Md5Primitives
  import opened Md5Spec

  const BITS_SIZE := 0x1_0000_0000_0000_0000

  // The chaining value, the bytes not yet compressed, and the bit count modulo 2^64.
  datatype Context = Context(h: Quad, tail: seq<Byte>, bits: nat)

  const FRESH := Context(MAGIC, [], 0)

  ghost predicate WellFormed(c: Context) {
    c.bits < BITS_SIZE && c.bits % 8 == 0 && |c.tail| == c.bits / 8 % 64
  }

  function Whole(n: nat): (m: nat)
    ensures m <= n < m + 64 && m % 64 == 0
  {
    n / 64 * 64
  }

  function Absorb(f: Compressor, c: Context, data: seq<Byte>): Context {
    var all := c.tail + data;
    Context(CompressAll(f, c.h, all), all[Whole(|all|)..], (c.bits + 8 * |data|) % BITS_SIZE)
  }

  function AbsorbEach(f: Compressor, c: Context, chunks: seq<seq<Byte>>): Context
    decreases |chunks|
  {
    if |chunks| == 0 then c else AbsorbEach(f, Absorb(f, c, chunks[0]), chunks[1..])
  }

  function Concat(chunks: seq<seq<Byte>>): seq<Byte> {
    if |chunks| == 0 then [] else chunks[0] + Concat(chunks[1..])
  }

  // What finalization pads with, and the length it then appends.
  function PadLength(c: Context): nat {
    var index := c.bits / 8 % 64;
    if index < 56 then 56 - index else 120 - index
  }

  function PaddingBytes(n: nat): (b: seq<Byte>)
    requires n >= 1
    ensures |b| == n
  {
    [0x80] + seq(n - 1, _ => 0)
  }

  function CountBytes(bits: nat): (b: seq<Byte>)
    ensures |b| == 8
  {
    BytesOf(bits % WORD_SIZE) + BytesOf(bits / WORD_SIZE % WORD_SIZE)
  }

  function Finish(f: Compressor, c: Context): (b: seq<Byte>)
    ensures |b| == 16
  {
    Output(Absorb(f, Absorb(f, c, PaddingBytes(PadLength(c))), CountBytes(c.bits)).h)
  }

  // ---------------------------------------------------------------- compressing in parts

  lemma {:induction false} CompressAllJoins(f: Compressor, q: Quad, x: seq<Byte>, y: seq<Byte>)
    requires |x| % 64 == 0
    ensures CompressAll(f, q, x + y) == CompressAll(f, CompressAll(f, q, x), y)
    decreases |x|
  {
    if |x| == 0 {
      assert x + y == y;
    } else {
      assert (x + y)[..64] == x[..64] && (x + y)[64..] == x[64..] + y;
      CompressAllJoins(f, f(q, x[..64]), x[64..], y);
    }
  }

  lemma CompressAllIgnoresTail(f: Compressor, q: Quad, x: seq<Byte>)
    ensures CompressAll(f, q, x) == CompressAll(f, q, x[..Whole(|x|)])
  {
    var w := Whole(|x|);
    assert x == x[..w] + x[w..];
    CompressAllJoins(f, q, x[..w], x[w..]);
  }

  lemma WholeSplits(m: nat, n: nat)
    ensures Whole(m + n) == Whole(m) + Whole(m - Whole(m) + n)
  {
  }

  lemma TailsJoin(all: seq<Byte>, y: seq<Byte>)
    ensures (all + y)[Whole(|all| + |y|)..] ==
            (all[Whole(|all|)..] + y)[Whole(|all| - Whole(|all|) + |y|)..]
  {
    var w := Whole(|all|);
    WholeSplits(|all|, |y|);
    assert all + y == all[..w] + (all[w..] + y);
  }

  lemma WrapsDropOut(a: nat, q: nat)
    ensures (BITS_SIZE * q + a) % BITS_SIZE == a % BITS_SIZE
  {
  }

  lemma BitsAdd(bits: nat, m: nat, n: nat)
    ensures ((bits + 8 * m) % BITS_SIZE + 8 * n) % BITS_SIZE == (bits + 8 * (m + n)) % BITS_SIZE
  {
    var q, r := (bits + 8 * m) / BITS_SIZE, (bits + 8 * m) % BITS_SIZE;
    assert bits + 8 * (m + n) == BITS_SIZE * q + (r + 8 * n);
    WrapsDropOut(r + 8 * n, q);
  }

  lemma ValuesJoin(f: Compressor, h: Quad, all: seq<Byte>, y: seq<Byte>)
    ensures CompressAll(f, CompressAll(f, h, all), all[Whole(|all|)..] + y) == CompressAll(f, h, all + y)
  {
    var w := Whole(|all|);
    assert all + y == all[..w] + (all[w..] + y);
    CompressAllIgnoresTail(f, h, all);
    CompressAllJoins(f, h, all[..w], all[w..] + y);
  }

  // Splitting a chunk changes nothing.
  lemma AbsorbIsAdditive(f: Compressor, c: Context, x: seq<Byte>, y: seq<Byte>)
    ensures Absorb(f, Absorb(f, c, x), y) == Absorb(f, c, x + y)
  {
    hide CompressAll, Whole;
    var all := c.tail + x;
    var rest := all[Whole(|all|)..];
    ValuesJoin(f, c.h, all, y);
    TailsJoin(all, y);
    BitsAdd(c.bits, |x|, |y|);
    assert c.tail + (x + y) == all + y;
    assert |rest + y| == |all| - Whole(|all|) + |y|;
  }

  lemma AbsorbKeepsWellFormed(f: Compressor, c: Context, x: seq<Byte>)
    requires WellFormed(c)
    ensures WellFormed(Absorb(f, c, x))
  {
    var c' := Absorb(f, c, x);
    var n := |c.tail| + |x|;
    assert |c'.tail| == n % 64;
    BytesFollowBits(c.bits, |x|);
  }

  const BYTES_SIZE := 0x2000_0000_0000_0000

  lemma BytesFollowBits(bits: nat, n: nat)
    requires bits % 8 == 0
    ensures ((bits + 8 * n) % BITS_SIZE) % 8 == 0
    ensures ((bits + 8 * n) % BITS_SIZE) / 8 % 64 == (bits / 8 % 64 + n) % 64
  {
    var total := bits / 8 + n;
    var q, r := total / BYTES_SIZE, total % BYTES_SIZE;
    assert bits + 8 * n == BITS_SIZE * q + 8 * r;
    assert (bits + 8 * n) % BITS_SIZE == 8 * r;
    SameModulo64(total, r, BYTES_SIZE / 64 * q);
    SameModulo64(total, bits / 8 % 64 + n, bits / 8 / 64);
  }

  lemma SameModulo64(a: nat, b: nat, k: nat)
    requires a == b + 64 * k
    ensures a % 64 == b % 64
  {
  }

  lemma {:induction false} AbsorbEachIsAbsorb(f: Compressor, c: Context, chunks: seq<seq<Byte>>)
    requires WellFormed(c)
    decreases |chunks|
    ensures AbsorbEach(f, c, chunks) == Absorb(f, c, Concat(chunks))
  {
    if |chunks| == 0 {
      assert c.tail + [] == c.tail;
      assert CompressAll(f, c.h, c.tail) == c.h;
    } else {
      AbsorbKeepsWellFormed(f, c, chunks[0]);
      AbsorbEachIsAbsorb(f, Absorb(f, c, chunks[0]), chunks[1..]);
      AbsorbIsAdditive(f, c, chunks[0], Concat(chunks[1..]));
    }
  }

  // ---------------------------------------------------------------- the digest

  lemma CountSplits(x: nat)
    ensures x % BITS_SIZE % WORD_SIZE == x % WORD_SIZE
    ensures x % BITS_SIZE / WORD_SIZE % WORD_SIZE == x / WORD_SIZE % WORD_SIZE
  {
    var q, r := x / BITS_SIZE, x % BITS_SIZE;
    assert x == WORD_SIZE * (WORD_SIZE * q) + r;
    assert x / WORD_SIZE == WORD_SIZE * q + r / WORD_SIZE;
  }

  lemma CountBytesAreLengthField(length: nat)
    ensures CountBytes(8 * length % BITS_SIZE) == LengthField(length)
  {
    CountSplits(8 * length);
  }

  lemma PaddingAgrees(c: Context, length: nat)
    requires c.bits == 8 * length % BITS_SIZE
    ensures PaddingBytes(PadLength(c)) == Padding(length)
  {
    BytesFollowBits(0, length);
    assert PadLength(c) == 1 + (119 - length % 64) % 64;
  }

  lemma FinishIsDigest(f: Compressor, message: seq<Byte>)
    ensures Finish(f, Absorb(f, FRESH, message)) == Digest(f, message)
  {
    var c := Absorb(f, FRESH, message);
    var pad, field := Padding(|message|), LengthField(|message|);
    PaddingAgrees(c, |message|);
    CountBytesAreLengthField(|message|);
    AbsorbIsAdditive(f, FRESH, message, pad);
    AbsorbIsAdditive(f, FRESH, message + pad, field);
    assert [] + (message + pad + field) == message + pad + field;
  }

  // However a message is cut into pieces, absorbing them one after the other and then
  // finishing gives the digest of the whole.
  lemma AnySplittingGivesTheDigest(f: Compressor, chunks: seq<seq<Byte>>)
    ensures Finish(f, AbsorbEach(f, FRESH, chunks)) == Digest(f, Concat(chunks))
  {
    AbsorbEachIsAbsorb(f, FRESH, chunks);
    FinishIsDigest(f, Concat(chunks));
  }

  // The count is 8 times the bytes modulo 2^64 and the buffer holds the bytes since the
  // last whole block.
  lemma CountAndBufferFollowBytes(f: Compressor, message: seq<Byte>)
    ensures var c := Absorb(f, FRESH, message);
      && c.bits == 8 * |message| % BITS_SIZE
      && c.tail == message[Whole(|message|)..] && |c.tail| == |message| % 64 == c.bits / 8 % 64
      && 1 <= PadLength(c) <= 64 && (|message| + PadLength(c)) % 64 == 56
  {
    assert [] + message == message;
    BytesFollowBits(0, |message|);
    PadLengthFits(Absorb(f, FRESH, message), |message|);
  }

  lemma PadLengthFits(c: Context, length: nat)
    requires c.bits / 8 % 64 == length % 64
    ensures 1 <= PadLength(c) <= 64 && (length + PadLength(c)) % 64 == 56
  {
  }

  // ---------------------------------------------------------------- words and bytes

  function BytesOfAll(words: seq<Word>): (b: seq<Byte>)
    ensures |b| == 4 * |words|
  {
    if |words| == 0 then [] else BytesOf(words[0]) + BytesOfAll(words[1..])
  }

  function WordsOfAll(bytes: seq<Byte>): (w: seq<Word>)
    ensures |w| == |bytes| / 4
  {
    if |bytes| < 4 then [] else [WordOf(bytes[..4])] + WordsOfAll(bytes[4..])
  }

  lemma WordRoundTrip(w: Word)
    ensures WordOf(BytesOf(w)) == w
  {
  }

  lemma LowByte(b: Byte, rest: nat)
    ensures (b + 0x100 * rest) % 0x100 == b && (b + 0x100 * rest) / 0x100 == rest
  {
  }

  lemma BytesRoundTrip(b: seq<Byte>)
    requires |b| == 4
    ensures BytesOf(WordOf(b)) == b
  {
    LowByte(b[0], b[1] + 0x100 * (b[2] + 0x100 * b[3] as int) as int);
    LowByte(b[1], b[2] + 0x100 * b[3] as int);
    LowByte(b[2], b[3]);
  }

  // decode inverts encode on every array of words.
  lemma {:induction false} DecodeInvertsEncode(words: seq<Word>)
    ensures WordsOfAll(BytesOfAll(words)) == words
  {
    if |words| > 0 {
      WordRoundTrip(words[0]);
      DecodeInvertsEncode(words[1..]);
      assert BytesOfAll(words)[..4] == BytesOf(words[0]);
      assert BytesOfAll(words)[4..] == BytesOfAll(words[1..]);
    }
  }

  lemma {:induction false} EncodeInvertsDecode(bytes: seq<Byte>)
    requires |bytes| % 4 == 0
    ensures BytesOfAll(WordsOfAll(bytes)) == bytes
  {
    if |bytes| > 0 {
      BytesRoundTrip(bytes[..4]);
      EncodeInvertsDecode(bytes[4..]);
    }
  }
}
