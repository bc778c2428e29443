/** The unrolled compression function: its 64 register updates, written out, are the
    rotating operations of the specification. */
module Md5Rounds {
  import opened Bytes
  import opened Md5Primitives
  import opened Md5Spec

  function FF(p: Primitives, a: Word, b: Word, c: Word, d: Word, x: Word, s: nat, ac: Word): Word {
    p.add(p.rotateLeft(p.add(p.add(p.add(a, p.f(b, c, d)), x), ac), s), b)
  }

  function GG(p: Primitives, a: Word, b: Word, c: Word, d: Word, x: Word, s: nat, ac: Word): Word {
    p.add(p.rotateLeft(p.add(p.add(p.add(a, p.g(b, c, d)), x), ac), s), b)
  }

  function HH(p: Primitives, a: Word, b: Word, c: Word, d: Word, x: Word, s: nat, ac: Word): Word {
    p.add(p.rotateLeft(p.add(p.add(p.add(a, p.h(b, c, d)), x), ac), s), b)
  }

  function II(p: Primitives, a: Word, b: Word, c: Word, d: Word, x: Word, s: nat, ac: Word): Word {
    p.add(p.rotateLeft(p.add(p.add(p.add(a, p.i(b, c, d)), x), ac), s), b)
  }

  // After four operations every register is back in its place.
  lemma FourOperations(p: Primitives, q: Quad, x: Block, from: nat, to: nat)
    requires from <= to
    ensures Operations(p, q, x, from, to + 4) ==
            Operation(p, to + 3,
              Operation(p, to + 2,
                Operation(p, to + 1, Operation(p, to, Operations(p, q, x, from, to), x), x), x), x)
  {
    assert Operations(p, q, x, from, to + 2) == Operation(p, to + 1, Operations(p, q, x, from, to + 1), x);
    assert Operations(p, q, x, from, to + 3) == Operation(p, to + 2, Operations(p, q, x, from, to + 2), x);
  }

  method Round1(p: Primitives, q: Quad, x: Block) returns (r: Quad)
    ensures r == Operations(p, q, x, 0, 16)
  {
    var a, b, c, d := q.a, q.b, q.c, q.d;
    a := FF(p, a, b, c, d, x[0], 7, 0xd76aa478);
    d := FF(p, d, a, b, c, x[1], 12, 0xe8c7b756);
    c := FF(p, c, d, a, b, x[2], 17, 0x242070db);
    b := FF(p, b, c, d, a, x[3], 22, 0xc1bdceee);
    FourOperations(p, q, x, 0, 0);
    assert Quad(a, b, c, d) == Operations(p, q, x, 0, 4);
    a := FF(p, a, b, c, d, x[4], 7, 0xf57c0faf);
    d := FF(p, d, a, b, c, x[5], 12, 0x4787c62a);
    c := FF(p, c, d, a, b, x[6], 17, 0xa8304613);
    b := FF(p, b, c, d, a, x[7], 22, 0xfd469501);
    FourOperations(p, q, x, 0, 4);
    assert Quad(a, b, c, d) == Operations(p, q, x, 0, 8);
    a := FF(p, a, b, c, d, x[8], 7, 0x698098d8);
    d := FF(p, d, a, b, c, x[9], 12, 0x8b44f7af);
    c := FF(p, c, d, a, b, x[10], 17, 0xffff5bb1);
    b := FF(p, b, c, d, a, x[11], 22, 0x895cd7be);
    FourOperations(p, q, x, 0, 8);
    assert Quad(a, b, c, d) == Operations(p, q, x, 0, 12);
    a := FF(p, a, b, c, d, x[12], 7, 0x6b901122);
    d := FF(p, d, a, b, c, x[13], 12, 0xfd987193);
    c := FF(p, c, d, a, b, x[14], 17, 0xa679438e);
    b := FF(p, b, c, d, a, x[15], 22, 0x49b40821);
    FourOperations(p, q, x, 0, 12);
    assert Quad(a, b, c, d) == Operations(p, q, x, 0, 16);
    r := Quad(a, b, c, d);
  }

  method Round2(p: Primitives, q: Quad, x: Block) returns (r: Quad)
    ensures r == Operations(p, q, x, 16, 32)
  {
    var a, b, c, d := q.a, q.b, q.c, q.d;
    a := GG(p, a, b, c, d, x[1], 5, 0xf61e2562);
    d := GG(p, d, a, b, c, x[6], 9, 0xc040b340);
    c := GG(p, c, d, a, b, x[11], 14, 0x265e5a51);
    b := GG(p, b, c, d, a, x[0], 20, 0xe9b6c7aa);
    FourOperations(p, q, x, 16, 16);
    assert Quad(a, b, c, d) == Operations(p, q, x, 16, 20);
    a := GG(p, a, b, c, d, x[5], 5, 0xd62f105d);
    d := GG(p, d, a, b, c, x[10], 9, 0x2441453);
    c := GG(p, c, d, a, b, x[15], 14, 0xd8a1e681);
    b := GG(p, b, c, d, a, x[4], 20, 0xe7d3fbc8);
    FourOperations(p, q, x, 16, 20);
    assert Quad(a, b, c, d) == Operations(p, q, x, 16, 24);
    a := GG(p, a, b, c, d, x[9], 5, 0x21e1cde6);
    d := GG(p, d, a, b, c, x[14], 9, 0xc33707d6);
    c := GG(p, c, d, a, b, x[3], 14, 0xf4d50d87);
    b := GG(p, b, c, d, a, x[8], 20, 0x455a14ed);
    FourOperations(p, q, x, 16, 24);
    assert Quad(a, b, c, d) == Operations(p, q, x, 16, 28);
    a := GG(p, a, b, c, d, x[13], 5, 0xa9e3e905);
    d := GG(p, d, a, b, c, x[2], 9, 0xfcefa3f8);
    c := GG(p, c, d, a, b, x[7], 14, 0x676f02d9);
    b := GG(p, b, c, d, a, x[12], 20, 0x8d2a4c8a);
    FourOperations(p, q, x, 16, 28);
    assert Quad(a, b, c, d) == Operations(p, q, x, 16, 32);
    r := Quad(a, b, c, d);
  }

  method Round3(p: Primitives, q: Quad, x: Block) returns (r: Quad)
    ensures r == Operations(p, q, x, 32, 48)
  {
    var a, b, c, d := q.a, q.b, q.c, q.d;
    a := HH(p, a, b, c, d, x[5], 4, 0xfffa3942);
    d := HH(p, d, a, b, c, x[8], 11, 0x8771f681);
    c := HH(p, c, d, a, b, x[11], 16, 0x6d9d6122);
    b := HH(p, b, c, d, a, x[14], 23, 0xfde5380c);
    FourOperations(p, q, x, 32, 32);
    assert Quad(a, b, c, d) == Operations(p, q, x, 32, 36);
    a := HH(p, a, b, c, d, x[1], 4, 0xa4beea44);
    d := HH(p, d, a, b, c, x[4], 11, 0x4bdecfa9);
    c := HH(p, c, d, a, b, x[7], 16, 0xf6bb4b60);
    b := HH(p, b, c, d, a, x[10], 23, 0xbebfbc70);
    FourOperations(p, q, x, 32, 36);
    assert Quad(a, b, c, d) == Operations(p, q, x, 32, 40);
    a := HH(p, a, b, c, d, x[13], 4, 0x289b7ec6);
    d := HH(p, d, a, b, c, x[0], 11, 0xeaa127fa);
    c := HH(p, c, d, a, b, x[3], 16, 0xd4ef3085);
    b := HH(p, b, c, d, a, x[6], 23, 0x4881d05);
    FourOperations(p, q, x, 32, 40);
    assert Quad(a, b, c, d) == Operations(p, q, x, 32, 44);
    a := HH(p, a, b, c, d, x[9], 4, 0xd9d4d039);
    d := HH(p, d, a, b, c, x[12], 11, 0xe6db99e5);
    c := HH(p, c, d, a, b, x[15], 16, 0x1fa27cf8);
    b := HH(p, b, c, d, a, x[2], 23, 0xc4ac5665);
    FourOperations(p, q, x, 32, 44);
    assert Quad(a, b, c, d) == Operations(p, q, x, 32, 48);
    r := Quad(a, b, c, d);
  }

  method Round4(p: Primitives, q: Quad, x: Block) returns (r: Quad)
    ensures r == Operations(p, q, x, 48, 64)
  {
    var a, b, c, d := q.a, q.b, q.c, q.d;
    a := II(p, a, b, c, d, x[0], 6, 0xf4292244);
    d := II(p, d, a, b, c, x[7], 10, 0x432aff97);
    c := II(p, c, d, a, b, x[14], 15, 0xab9423a7);
    b := II(p, b, c, d, a, x[5], 21, 0xfc93a039);
    FourOperations(p, q, x, 48, 48);
    assert Quad(a, b, c, d) == Operations(p, q, x, 48, 52);
    a := II(p, a, b, c, d, x[12], 6, 0x655b59c3);
    d := II(p, d, a, b, c, x[3], 10, 0x8f0ccc92);
    c := II(p, c, d, a, b, x[10], 15, 0xffeff47d);
    b := II(p, b, c, d, a, x[1], 21, 0x85845dd1);
    FourOperations(p, q, x, 48, 52);
    assert Quad(a, b, c, d) == Operations(p, q, x, 48, 56);
    a := II(p, a, b, c, d, x[8], 6, 0x6fa87e4f);
    d := II(p, d, a, b, c, x[15], 10, 0xfe2ce6e0);
    c := II(p, c, d, a, b, x[6], 15, 0xa3014314);
    b := II(p, b, c, d, a, x[13], 21, 0x4e0811a1);
    FourOperations(p, q, x, 48, 56);
    assert Quad(a, b, c, d) == Operations(p, q, x, 48, 60);
    a := II(p, a, b, c, d, x[4], 6, 0xf7537e82);
    d := II(p, d, a, b, c, x[11], 10, 0xbd3af235);
    c := II(p, c, d, a, b, x[2], 15, 0x2ad7d2bb);
    b := II(p, b, c, d, a, x[9], 21, 0xeb86d391);
    FourOperations(p, q, x, 48, 60);
    assert Quad(a, b, c, d) == Operations(p, q, x, 48, 64);
    r := Quad(a, b, c, d);
  }

  // All 64 updates of transform.
  method Unrolled(p: Primitives, q: Quad, x: Block) returns (r: Quad)
    ensures r == Operations(p, q, x, 0, 4 * |x|)
  {
    r := Round1(p, q, x);
    r := Round2(p, r, x);
    OperationsJoin(p, q, x, 0, 16, 32);
    r := Round3(p, r, x);
    OperationsJoin(p, q, x, 0, 32, 48);
    r := Round4(p, r, x);
    OperationsJoin(p, q, x, 0, 48, 64);
  }

  lemma {:induction false} OperationsJoin(p: Primitives, q: Quad, x: Block, from: nat, mid: nat, to: nat)
    requires from <= mid <= to
    ensures Operations(p, Operations(p, q, x, from, mid), x, mid, to) == Operations(p, q, x, from, to)
  {
    if mid < to {
      OperationsJoin(p, q, x, from, mid, to - 1);
    }
  }
}
