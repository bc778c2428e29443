/** The MD5 class: a 64-byte buffer, a bit count in two 32-bit words, the chaining value
    and the digest, all updated in place. */
module Md5Class {
  import opened Bytes
  import opened Md5Primitives
  import opened Md5Spec
  import opened Md5Context
  import opened Md5Rounds

  // ---------------------------------------------------------------- encode and decode

  lemma {:induction false} BytesOfAllGrows(words: seq<Word>, w: Word)
    ensures BytesOfAll(words + [w]) == BytesOfAll(words) + BytesOf(w)
  {
    if |words| > 0 {
      assert (words + [w])[1..] == words[1..] + [w];
      BytesOfAllGrows(words[1..], w);
    } else {
      assert (words + [w])[1..] == [];
    }
  }

  method EncodeWord(output: array<Byte>, j: nat, w: Word)
    requires j + 4 <= output.Length
    modifies output
    ensures output[..j + 4] == old(output[..j]) + BytesOf(w)
    ensures output[j + 4..] == old(output[j + 4..])
  {
    output[j] := w % 0x100;
    output[j + 1] := w / 0x100 % 0x100;
    output[j + 2] := w / 0x100 / 0x100 % 0x100;
    output[j + 3] := w / 0x100 / 0x100 / 0x100;
    FourBytes(output[..j + 4], old(output[..j]), w);
  }

  lemma FourBytes(written: seq<Byte>, before: seq<Byte>, w: Word)
    requires |written| == |before| + 4 && forall k :: 0 <= k < |before| ==> written[k] == before[k]
    requires var j := |before|;
      && written[j] == w % 0x100 && written[j + 1] == w / 0x100 % 0x100
      && written[j + 2] == w / 0x100 / 0x100 % 0x100 && written[j + 3] == w / 0x100 / 0x100 / 0x100
    ensures written == before + BytesOf(w)
  {
    var j, b := |before|, BytesOf(w);
    assert written[j] == b[0] && written[j + 1] == b[1] && written[j + 2] == b[2] && written[j + 3] == b[3];
    forall k | 0 <= k < |written| ensures written[k] == (before + b)[k] {
      assert k >= j ==> k == j || k == j + 1 || k == j + 2 || k == j + 3;
    }
  }

  method Encode(output: array<Byte>, input: array<Word>, len: nat)
    requires len % 4 == 0 && len <= output.Length && len / 4 <= input.Length
    modifies output
    ensures output[..len] == BytesOfAll(input[..len / 4])
    ensures output[len..] == old(output[len..])
  {
    var i, j := 0, 0;
    assert BytesOfAll([]) == [];
    hide BytesOfAll, BytesOf;
    while j < len
      invariant j == 4 * i <= len
      invariant output[..j] == BytesOfAll(input[..i])
      invariant output[j..] == old(output[j..])
    {
      EncodeWord(output, j, input[i]);
      BytesOfAllGrows(input[..i], input[i]);
      assert input[..i + 1] == input[..i] + [input[i]];
      assert old(output[j..])[4..] == old(output[j + 4..]);
      i, j := i + 1, j + 4;
    }
  }

  method Decode(input: Chunk) returns (x: Block)
    ensures x == WordsOf(input)
  {
    var words: seq<Word> := [];
    var i, j := 0, 0;
    while j < 64
      invariant j == 4 * i <= 64 && |words| == i
      invariant forall k :: 0 <= k < i ==> words[k] == WordOf(input[4 * k..4 * k + 4])
    {
      words := words + [WordOf([input[j], input[j + 1], input[j + 2], input[j + 3]])];
      assert input[j..j + 4] == [input[j], input[j + 1], input[j + 2], input[j + 3]];
      i, j := i + 1, j + 4;
    }
    x := words;
  }

  // ---------------------------------------------------------------- arithmetic of update

  const LOW29 := 0x2000_0000

  // length << 3, and +, on 32-bit words.
  function Shifted(length: nat): Word {
    8 * length % WORD_SIZE
  }

  function Plus(x: Word, n: nat): Word {
    (x + n) % WORD_SIZE
  }

  lemma CarryIsOverflow(low: Word, shifted: Word)
    ensures low + shifted == Plus(low, shifted) + WORD_SIZE * if Plus(low, shifted) < shifted then 1 else 0
  {
  }

  lemma HighWordWraps(low: Word, sum: nat)
    ensures (low + WORD_SIZE * sum) % BITS_SIZE == low + WORD_SIZE * (sum % WORD_SIZE)
  {
    var q, r := sum / WORD_SIZE, sum % WORD_SIZE;
    assert low + WORD_SIZE * sum == BITS_SIZE * q + (low + WORD_SIZE * r);
    WrapsDropOut(low + WORD_SIZE * r, q);
    assert low + WORD_SIZE * r < BITS_SIZE;
  }

  lemma PlusPlus(a: Word, m: nat, n: nat)
    ensures Plus(Plus(a, m), n) == (a + m + n) % WORD_SIZE
  {
  }

  // The carry of the low word and the three bits that `length << 3` loses make the pair
  // a 64-bit counter.
  lemma CountPairAdds(low: Word, high: Word, length: nat)
    requires length < WORD_SIZE
    ensures var low' := Plus(low, Shifted(length));
      var carried := if low' < Shifted(length) then Plus(high, 1) else high;
      low' + WORD_SIZE * Plus(carried, length / LOW29) == (low + WORD_SIZE * high + 8 * length) % BITS_SIZE
  {
    var shifted, top := Shifted(length), length / LOW29;
    assert 8 * length == WORD_SIZE * top + shifted;
    var low' := Plus(low, shifted);
    var carry := if low' < shifted then 1 else 0;
    CarryIsOverflow(low, shifted);
    HighWordWraps(low', high + carry + top);
    PlusPlus(high, carry, top);
  }

  lemma LowBytesOfCount(low: Word, high: Word)
    requires (low + WORD_SIZE * high) % 8 == 0
    ensures low % 8 == 0
  {
    var n := (low + WORD_SIZE * high) / 8;
    assert low == 8 * (n - LOW29 * high);
  }

  // The loop test of update, in 32-bit arithmetic.
  predicate Continues(i: nat, length: nat) {
    (i + 64) % WORD_SIZE <= length
  }

  predicate ShortEnough(index: nat, length: nat)
    requires index < 64
  {
    length < WORD_SIZE - 64 + (64 - index) % 64
  }

  // The loop takes exactly the whole blocks, and never reads past the input, if and only
  // if the chunk is short enough for i + blocksize not to wrap.
  lemma LoopIsSafeIff(index: nat, length: nat)
    requires index < 64 && length < WORD_SIZE
    ensures ShortEnough(index, length) <==>
      forall k: nat :: 64 - index + 64 * k <= length ==>
        (Continues(64 - index + 64 * k, length) <==> 64 - index + 64 * k + 64 <= length)
  {
    if !ShortEnough(index, length) {
      var k := (WORD_SIZE - 64 + (64 - index) % 64 - (64 - index)) / 64;
      var i := 64 - index + 64 * k;
      assert i == WORD_SIZE - 64 + (64 - index) % 64;
      assert Continues(i, length);
    } else {
      forall k: nat | 64 - index + 64 * k <= length
        ensures Continues(64 - index + 64 * k, length) <==> 64 - index + 64 * k + 64 <= length
      {
        SafeStep(index, length, k);
      }
    }
  }

  // A chunk of 2^32 - 1 bytes is not: 64 bytes before the end of the address range the
  // test still says go on, with 63 bytes left.
  lemma LongChunkOverruns()
    ensures var length, i := WORD_SIZE - 1, WORD_SIZE - 64;
      !ShortEnough(0, length) && i % 64 == 0 && i <= length && Continues(i, length) && i + 64 > length
  {
  }

  lemma SafeStep(index: nat, length: nat, k: nat)
    requires index < 64 && length < WORD_SIZE && ShortEnough(index, length)
    requires 64 - index + 64 * k <= length
    ensures 64 - index + 64 * k + 64 < WORD_SIZE
  {
    var i := 64 - index + 64 * k;
    assert i % 64 == (64 - index) % 64;
    assert (i - (WORD_SIZE - 64)) % 64 == (64 - index) % 64;
  }

  // ---------------------------------------------------------------- the class

  class MD5 {
    const p: Primitives
    var finalized: bool
    const buffer: array<Byte>
    const count: array<Word>
    const state: array<Word>
    const digest: array<Byte>

    ghost predicate Valid()
      reads this, count
    {
      && buffer.Length == 64 && count.Length == 2 && state.Length == 4 && digest.Length == 16
      && buffer != digest && count != state
      && count[0] % 8 == 0
    }

    ghost function Bits(): nat
      reads this, count
      requires Valid()
    {
      count[0] + WORD_SIZE * count[1]
    }

    ghost function Value(): Quad
      reads state
      requires state.Length == 4
    {
      Quad(state[0], state[1], state[2], state[3])
    }

    ghost function View(): Context
      reads this, buffer, count, state
      requires Valid()
    {
      Context(Value(), buffer[..count[0] / 8 % 64], Bits())
    }

    constructor (p: Primitives)
      ensures Valid() && !finalized && this.p == p && View() == FRESH
      ensures fresh(buffer) && fresh(count) && fresh(state) && fresh(digest)
    {
      this.p := p;
      buffer := new Byte[64];
      digest := new Byte[16];
      count := new Word[2];
      state := new Word[4];
      new;
      Init();
    }

    // The shortcut: the digest of a whole text.
    constructor Of(p: Primitives, text: seq<Byte>)
      requires |text| < WORD_SIZE && ShortEnough(0, |text|)
      ensures Valid() && finalized && digest[..] == Digest(Compression(p), text)
    {
      this.p := p;
      buffer := new Byte[64];
      digest := new Byte[16];
      count := new Word[2];
      state := new Word[4];
      new;
      hide Compression, Digest, Finish, Absorb;
      Init();
      Update(text);
      FinishIsDigest(Compression(p), text);
      Finalize();
    }

    method Init()
      requires buffer.Length == 64 && count.Length == 2 && state.Length == 4 && digest.Length == 16
      requires buffer != digest && count != state
      modifies this`finalized, count, state
      ensures Valid() && !finalized && View() == FRESH
    {
      finalized := false;
      count[0], count[1] := 0, 0;
      state[0], state[1], state[2], state[3] := 0x67452301, 0xefcdab89, 0x98badcfe, 0x10325476;
    }

    method HexDigest() returns (s: string)
      requires Valid()
      ensures s == if finalized then Hex(digest[..]) else ""
    {
      if !finalized {
        return "";
      }
      s := "";
      var i := 0;
      assert digest[0..] == digest[..];
      while i < 16
        invariant i <= 16 && s + Hex(digest[i..]) == Hex(digest[..])
      {
        assert digest[i..][1..] == digest[i + 1..];
        s := s + [HexDigit(digest[i] / 16), HexDigit(digest[i] % 16)];
        i := i + 1;
      }
      assert digest[16..] == [];
    }

    method Transform(block: Chunk)
      requires Valid()
      modifies state
      ensures Value() == Compression(p)(old(Value()), block)
    {
      var q := Quad(state[0], state[1], state[2], state[3]);
      var x := Decode(block);
      var r := Unrolled(p, q, x);
      state[0] := p.add(state[0], r.a);
      state[1] := p.add(state[1], r.b);
      state[2] := p.add(state[2], r.c);
      state[3] := p.add(state[3], r.d);
    }

    // memcpy(&buffer[index], source, |source|)
    method Fill(index: nat, source: seq<Byte>)
      requires Valid() && index + |source| <= 64
      modifies buffer
      ensures buffer[..index + |source|] == old(buffer[..index]) + source
    {
      forall k | 0 <= k < |source| {
        buffer[index + k] := source[k];
      }
      assert forall k :: 0 <= k < index ==> buffer[k] == old(buffer[k]);
    }

    method CountBits(length: nat)
      requires Valid() && length < WORD_SIZE
      modifies count
      ensures Valid()
      ensures Bits() == (old(Bits()) + 8 * length) % BITS_SIZE
    {
      CountPairAdds(count[0], count[1], length);
      LowWordIndex(count[0], count[1]);
      BytesFollowBits(Bits(), length);
      var shifted := Shifted(length);
      count[0] := Plus(count[0], shifted);
      if count[0] < shifted {
        count[1] := Plus(count[1], 1);
      }
      count[1] := Plus(count[1], length / LOW29);
      LowBytesOfCount(count[0], count[1]);
    }

    // The loop of update over the whole blocks from firstpart on; returns where it stops.
    method TransformBlocks(input: seq<Byte>, index: nat) returns (i: nat)
      requires Valid() && index < 64 <= |input| + index && |input| < WORD_SIZE && ShortEnough(index, |input|)
      modifies state
      ensures i <= |input| < i + 64 && (i + index) % 64 == 0
      ensures Value() == CompressAll(Compression(p), old(Value()), input[64 - index..])
    {
      hide Compression;
      ghost var f, goal := Compression(p), CompressAll(Compression(p), Value(), input[64 - index..]);
      i := 64 - index;
      ghost var k := 0;
      SafeStep(index, |input|, k);
      while Continues(i, |input|)
        invariant i == 64 - index + 64 * k <= |input|
        invariant i + 64 < WORD_SIZE
        invariant CompressAll(f, Value(), input[i..]) == goal
        decreases |input| - i
      {
        NextBlock(f, Value(), input, i);
        Transform(input[i..i + 64]);
        i, k := i + 64, k + 1;
        SafeStep(index, |input|, k);
      }
    }

    // The first block is completed in the buffer, the others are taken from the input.
    method ConsumeBlocks(input: seq<Byte>, index: nat) returns (i: nat)
      requires Valid() && index < 64 <= |input| + index && |input| < WORD_SIZE && ShortEnough(index, |input|)
      modifies buffer, state
      ensures i <= |input| < i + 64 && (i + index) % 64 == 0
      ensures Value() == CompressAll(Compression(p), old(Value()), old(buffer[..index]) + input)
    {
      hide Compression, CompressAll, ShortEnough;
      ghost var f, q, tail := Compression(p), Value(), buffer[..index];
      Fill(index, input[..64 - index]);
      FirstBlock(f, q, tail, input);
      assert buffer[..] == buffer[..64];
      Transform(buffer[..]);
      i := TransformBlocks(input, index);
    }

    // update from its second comment on: the bytes go through the buffer, which held the
    // first `index` bytes of a block.
    method Consume(input: seq<Byte>, index: nat)
      requires Valid() && index < 64 && |input| < WORD_SIZE && ShortEnough(index, |input|)
      modifies buffer, state
      ensures var all := old(buffer[..index]) + input;
        && Value() == CompressAll(Compression(p), old(Value()), all)
        && buffer[..|all| - Whole(|all|)] == all[Whole(|all|)..]
    {
      hide Compression, CompressAll, ShortEnough, Whole;
      ghost var tail := buffer[..index];
      var length := |input|;
      var firstpart := 64 - index;
      var start, i := index, 0;
      NoBlock(Compression(p), Value(), tail + input);
      if length >= firstpart {
        i := ConsumeBlocks(input, index);
        start := 0;
      }
      RestOfInput(tail, input, i);
      Fill(start, input[i..]);
    }

    method Update(input: seq<Byte>)
      requires Valid() && |input| < WORD_SIZE && ShortEnough(count[0] / 8 % 64, |input|)
      modifies buffer, count, state
      ensures Valid()
      ensures View() == Absorb(Compression(p), old(View()), input)
    {
      hide Compression, CompressAll, Whole;
      ghost var c := View();
      var index := count[0] / 8 % 64;
      ghost var low, high := count[0], count[1];
      CountBits(|input|);
      CountedIndices(low, high, count[0], count[1], |input|);
      Consume(input, index);
    }

    // Pads to 56 mod 64 and appends the saved count.
    method PadAndAppend(bits: seq<Byte>)
      requires Valid() && bits == CountBytes(Bits())
      modifies buffer, count, state
      ensures Valid()
      ensures Output(Value()) == Finish(Compression(p), old(View()))
    {
      LowWordIndex(count[0], count[1]);
      var index := count[0] / 8 % 64;
      var padLen := if index < 56 then 56 - index else 120 - index;
      assert padLen == PadLength(View());
      Update(PaddingBytes(padLen));
      Update(bits);
    }

    method SaveCount() returns (bits: seq<Byte>)
      requires Valid()
      ensures bits == CountBytes(Bits())
    {
      var encoded := new Byte[8];
      Encode(encoded, count, 8);
      EncodedCount(count[..], Bits(), encoded[..8]);
      bits := encoded[..8];
    }

    method StoreDigest()
      requires Valid()
      modifies digest
      ensures digest[..] == Output(Value())
    {
      Encode(digest, state, 16);
      EncodedState(state[..], digest[..16]);
      assert digest[..] == digest[..16];
    }

    method Zeroize()
      requires Valid()
      modifies buffer, count
      ensures count[..] == [0, 0] && buffer[..] == seq(64, _ => 0)
    {
      forall k | 0 <= k < 64 {
        buffer[k] := 0;
      }
      forall k | 0 <= k < 2 {
        count[k] := 0;
      }
    }

    method Finalize()
      requires Valid()
      modifies this`finalized, buffer, count, state, digest
      ensures Valid() && finalized
      ensures old(finalized) ==> digest[..] == old(digest[..]) && View() == old(View())
      ensures !old(finalized) ==>
        && digest[..] == Finish(Compression(p), old(View()))
        && count[..] == [0, 0] && buffer[..] == seq(64, _ => 0)
    {
      hide Finish;
      if !finalized {
        var bits := SaveCount();
        PadAndAppend(bits);
        StoreDigest();
        Zeroize();
        finalized := true;
      }
    }
  }

  // What a caller gets who hands a message over in pieces.
  method DigestOfPieces(p: Primitives, pieces: seq<seq<Byte>>) returns (digest: seq<Byte>)
    requires forall piece <- pieces :: |piece| < WORD_SIZE - 64
    ensures digest == Digest(Compression(p), Concat(pieces))
  {
    hide Compression, Digest, Finish, Absorb;
    ghost var f := Compression(p);
    var md5 := new MD5(p);
    assert pieces[0..] == pieces;
    var i := 0;
    while i < |pieces|
      invariant i <= |pieces| && md5.Valid() && !md5.finalized && md5.p == p
      invariant fresh(md5) && fresh(md5.buffer) && fresh(md5.count) && fresh(md5.state) && fresh(md5.digest)
      invariant AbsorbEach(f, md5.View(), pieces[i..]) == AbsorbEach(f, FRESH, pieces)
    {
      assert pieces[i..][1..] == pieces[i + 1..];
      md5.Update(pieces[i]);
      i := i + 1;
    }
    AnySplittingGivesTheDigest(f, pieces);
    md5.Finalize();
    digest := md5.digest[..];
  }

  // The tail of md5(): the printed digest of a file's contents.
  method PrintedMd5(text: seq<Byte>) returns (s: string)
    requires |text| < WORD_SIZE && ShortEnough(0, |text|)
    ensures s == Hex(Md5(text))
  {
    hide Compression, Digest;
    var md5 := new MD5.Of(RFC1321, text);
    s := md5.HexDigest();
  }

  lemma MultiplesDropOut(a: nat, k: nat)
    ensures (a + 64 * k) % 64 == a % 64
  {
  }

  // Only the low word decides how full the buffer is.
  lemma LowWordIndex(low: Word, high: Word)
    requires low % 8 == 0
    ensures (low + WORD_SIZE * high) / 8 % 64 == low / 8 % 64
    ensures (low + WORD_SIZE * high) % 8 == 0
  {
    var bytes := low / 8;
    assert low + WORD_SIZE * high == 8 * (bytes + 64 * (LOW29 / 64 * high));
    MultiplesDropOut(bytes, LOW29 / 64 * high);
  }

  lemma IndexFollows(bits: nat, n: nat)
    requires bits < BITS_SIZE && bits % 8 == 0
    ensures var all := bits / 8 % 64 + n;
      (bits + 8 * n) % BITS_SIZE / 8 % 64 == all - Whole(all)
  {
    BytesFollowBits(bits, n);
  }

  // The buffer index before and after counting n bytes.
  lemma CountedIndices(low: Word, high: Word, low': Word, high': Word, n: nat)
    requires low % 8 == 0 && low' % 8 == 0
    requires low' + WORD_SIZE * high' == (low + WORD_SIZE * high + 8 * n) % BITS_SIZE
    ensures var all := low / 8 % 64 + n; low' / 8 % 64 == all - Whole(all)
  {
    LowWordIndex(low, high);
    LowWordIndex(low', high');
    hide Whole;
    IndexFollows(low + WORD_SIZE * high, n);
  }

  lemma NextBlock(f: Compressor, q: Quad, input: seq<Byte>, i: nat)
    requires i + 64 <= |input|
    ensures CompressAll(f, q, input[i..]) == CompressAll(f, f(q, input[i..i + 64]), input[i + 64..])
  {
    assert input[i..][..64] == input[i..i + 64] && input[i..][64..] == input[i + 64..];
  }

  lemma NoBlock(f: Compressor, q: Quad, data: seq<Byte>)
    ensures |data| < 64 ==> CompressAll(f, q, data) == q
  {
  }

  lemma FirstBlock(f: Compressor, q: Quad, tail: seq<Byte>, input: seq<Byte>)
    requires |tail| < 64 <= |tail| + |input|
    ensures var all := tail + input;
      && all[..64] == tail + input[..64 - |tail|]
      && CompressAll(f, q, all) == CompressAll(f, f(q, all[..64]), input[64 - |tail|..])
  {
    assert (tail + input)[64..] == input[64 - |tail|..];
  }

  lemma RestOfInput(tail: seq<Byte>, input: seq<Byte>, i: nat)
    requires |tail| < 64 && i <= |input|
    requires if |tail| + |input| < 64 then i == 0 else |input| < i + 64 && (i + |tail|) % 64 == 0
    ensures var all := tail + input;
      var kept := if |all| < 64 then tail + input[i..] else input[i..];
      all[Whole(|all|)..] == kept && |all| - Whole(|all|) == |kept|
  {
    var all := tail + input;
    assert Whole(|all|) == if |all| < 64 then 0 else i + |tail|;
  }

  lemma CountWords(low: Word, high: Word)
    ensures var bits := low + WORD_SIZE * high;
      bits % WORD_SIZE == low && bits / WORD_SIZE % WORD_SIZE == high
  {
  }

  lemma EncodedCount(count: seq<Word>, bits: nat, encoded: seq<Byte>)
    requires |count| == 2 && bits == count[0] + WORD_SIZE * count[1]
    requires encoded == BytesOfAll(count[..2])
    ensures encoded == CountBytes(bits)
  {
    CountWords(count[0], count[1]);
    assert count[..2][1..] == [count[1]] && [count[1]][1..] == [];
    assert BytesOfAll([count[1]]) == BytesOf(count[1]) + [];
  }

  lemma EncodedState(state: seq<Word>, encoded: seq<Byte>)
    requires |state| == 4 && encoded == BytesOfAll(state[..4])
    ensures encoded == Output(Quad(state[0], state[1], state[2], state[3]))
  {
    var a, b, c, d := BytesOf(state[0]), BytesOf(state[1]), BytesOf(state[2]), BytesOf(state[3]);
    assert state[..4] == state;
    assert state[3..][1..] == [] && BytesOfAll(state[3..]) == d + [];
    assert state[2..][1..] == state[3..] && BytesOfAll(state[2..]) == c + BytesOfAll(state[3..]);
    assert BytesOfAll(state[1..]) == b + BytesOfAll(state[1..][1..]) && state[1..][1..] == state[2..];
    assert encoded == a + (b + (c + (d + [])));
  }
}
