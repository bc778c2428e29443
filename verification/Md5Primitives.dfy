/** The word operations of RFC 1321, section 3.4, on 32-bit words held as integers. */
module Md5Primitives {
  import opened Bytes
  import opened Md5Bits

  const WORD_SIZE := 0x1_0000_0000

  type Word = x: int | 0 <= x < WORD_SIZE

  // Everything the rest of MD5 needs to know of them is that they exist, so the other
  // modules take them as a record.
  datatype Primitives = Primitives(f: (Word, Word, Word) -> Word, g: (Word, Word, Word) -> Word,
                                   h: (Word, Word, Word) -> Word, i: (Word, Word, Word) -> Word,
                                   rotateLeft: (Word, nat) -> Word, add: (Word, Word) -> Word)

  function ToBits(w: Word): bv32 {
    w as bv32
  }

  function ToWord(b: bv32): Word {
    b as int
  }

  function F(x: Word, y: Word, z: Word): Word {
    ToWord(FBits(ToBits(x), ToBits(y), ToBits(z)))
  }

  function G(x: Word, y: Word, z: Word): Word {
    ToWord(GBits(ToBits(x), ToBits(y), ToBits(z)))
  }

  function H(x: Word, y: Word, z: Word): Word {
    ToWord(HBits(ToBits(x), ToBits(y), ToBits(z)))
  }

  function I(x: Word, y: Word, z: Word): Word {
    ToWord(IBits(ToBits(x), ToBits(y), ToBits(z)))
  }

  function RotateLeft(x: Word, n: nat): Word {
    ToWord(RotateBits(ToBits(x), (n % 32) as bv6))
  }

  function Add(x: Word, y: Word): Word {
    (x + y) % WORD_SIZE
  }

  lemma WordsAreBits(b: bv32)
    ensures ToBits(ToWord(b)) == b
  {
  }

  // What section 3.4 says of the four functions and of rotation, bit by bit.
  lemma FChooses(x: Word, y: Word, z: Word)
    ensures ToBits(F(x, y, z)) & ToBits(x) == ToBits(y) & ToBits(x)
    ensures ToBits(F(x, y, z)) & !ToBits(x) == ToBits(z) & !ToBits(x)
  {
    hide FBits, ToBits, ToWord;
    WordsAreBits(FBits(ToBits(x), ToBits(y), ToBits(z)));
    FBitsChoose(ToBits(x), ToBits(y), ToBits(z));
  }

  lemma GChooses(x: Word, y: Word, z: Word)
    ensures ToBits(G(x, y, z)) & ToBits(z) == ToBits(x) & ToBits(z)
    ensures ToBits(G(x, y, z)) & !ToBits(z) == ToBits(y) & !ToBits(z)
  {
    hide GBits, ToBits, ToWord;
    WordsAreBits(GBits(ToBits(x), ToBits(y), ToBits(z)));
    GBitsChoose(ToBits(x), ToBits(y), ToBits(z));
  }

  lemma HIsParity(x: Word, y: Word, z: Word)
    ensures ToBits(H(x, y, z)) ^ ToBits(y) ^ ToBits(z) == ToBits(x)
  {
    hide HBits, ToBits, ToWord;
    WordsAreBits(HBits(ToBits(x), ToBits(y), ToBits(z)));
    HBitsAreParity(ToBits(x), ToBits(y), ToBits(z));
  }

  lemma ICompares(x: Word, y: Word, z: Word)
    ensures ToBits(I(x, y, z)) & ToBits(z) == (ToBits(x) ^ ToBits(y)) & ToBits(z)
    ensures ToBits(I(x, y, z)) & !ToBits(z) == !ToBits(y) & !ToBits(z)
  {
    hide IBits, ToBits, ToWord;
    WordsAreBits(IBits(ToBits(x), ToBits(y), ToBits(z)));
    IBitsCompare(ToBits(x), ToBits(y), ToBits(z));
  }

  lemma ShiftIsSmall(n: bv6)
    requires n < 32
    ensures (n as int % 32) as bv6 == n
  {
    BackAndForth(n);
    assert n as int % 32 == n as int;
  }

  lemma BackAndForth(n: bv6)
    requires n < 32
    ensures n as int < 32 && (n as int) as bv6 == n
  {
  }

  lemma RotateLeftIsOnBits(x: Word, n: bv6)
    requires n < 32
    ensures ToBits(RotateLeft(x, n as int)) == RotateBits(ToBits(x), n)
  {
    hide RotateBits, ToBits, ToWord;
    ShiftIsSmall(n);
    WordsAreBits(RotateBits(ToBits(x), n));
  }

  lemma RotationSwapsEnds(x: Word, n: bv6)
    requires 0 < n < 32
    ensures SwapsEnds(ToBits(RotateLeft(x, n as int)), ToBits(x), n)
  {
    hide RotateLeft, RotateBits, ToBits, SwapsEnds;
    RotateLeftIsOnBits(x, n);
    RotateBitsSwapsEnds(ToBits(x), n);
  }

  const RFC1321 := Primitives(F, G, H, I, RotateLeft, Add)
}
