/** The bit-level functions of RFC 1321, section 3.4, and their meaning bit by bit. */
module Md5Bits {

  function FBits(x: bv32, y: bv32, z: bv32): bv32 {
    (x & y) | (!x & z)
  }

  function GBits(x: bv32, y: bv32, z: bv32): bv32 {
    (x & z) | (y & !z)
  }

  function HBits(x: bv32, y: bv32, z: bv32): bv32 {
    x ^ y ^ z
  }

  function IBits(x: bv32, y: bv32, z: bv32): bv32 {
    y ^ (x | !z)
  }

  function RotateBits(x: bv32, n: bv6): bv32
    requires n <= 32
  {
    (x << n) | (x >> (32 - n))
  }

  // F takes the bits of y where x has ones and the bits of z elsewhere.
  lemma FBitsChoose(x: bv32, y: bv32, z: bv32)
    ensures FBits(x, y, z) & x == y & x
    ensures FBits(x, y, z) & !x == z & !x
  {
  }

  // G does the same with z choosing between x and y.
  lemma GBitsChoose(x: bv32, y: bv32, z: bv32)
    ensures GBits(x, y, z) & z == x & z
    ensures GBits(x, y, z) & !z == y & !z
  {
  }

  // H is the parity of its arguments.
  lemma HBitsAreParity(x: bv32, y: bv32, z: bv32)
    ensures HBits(x, y, z) ^ y ^ z == x
  {
  }

  // I compares y with "x or not z".
  lemma IBitsCompare(x: bv32, y: bv32, z: bv32)
    ensures IBits(x, y, z) & z == (x ^ y) & z
    ensures IBits(x, y, z) & !z == !y & !z
  {
  }

  // The upper bits of r are the lower bits of x, and the other way round.
  predicate SwapsEnds(r: bv32, x: bv32, n: bv6)
    requires n <= 32
  {
    r >> n == (x << n) >> n && r << (32 - n) == (x >> (32 - n)) << (32 - n)
  }

  lemma RotateBitsSwapsEnds(x: bv32, n: bv6)
    requires 0 < n < 32
    ensures SwapsEnds(RotateBits(x, n), x, n)
  {
  }
}
