/** Bytes, and how a digest is printed and scored. */
module Bytes {

  type Byte = x: int | 0 <= x < 256

  function HexDigit(n: nat): char
    requires n < 16
  {
    "0123456789abcdef"[n]
  }

  function Hex(b: seq<Byte>): (s: string)
    ensures |s| == 2 * |b|
  {
    if |b| == 0 then "" else [HexDigit(b[0] / 16), HexDigit(b[0] % 16)] + Hex(b[1..])
  }

  // A reader of such digits.
  function DigitValue(c: char): (n: nat)
    ensures n < 16
  {
    if '0' <= c <= '9' then c as nat - '0' as nat else if 'a' <= c <= 'f' then c as nat - 'a' as nat + 10 else 0
  }

  function Unhex(s: string): seq<Byte> {
    if |s| < 2 then [] else [16 * DigitValue(s[0]) + DigitValue(s[1])] + Unhex(s[2..])
  }

  predicate IsHexDigit(c: char) {
    '0' <= c <= '9' || 'a' <= c <= 'f'
  }

  lemma DigitReadsBack(n: nat)
    requires n < 16
    ensures DigitValue(HexDigit(n)) == n && IsHexDigit(HexDigit(n))
  {
  }

  lemma PairReadsBack(s: string)
    requires |s| >= 2
    ensures Unhex(s) == [16 * DigitValue(s[0]) + DigitValue(s[1])] + Unhex(s[2..])
  {
  }

  // Two lower-case digits a byte, from which it can be read back.
  lemma {:induction false} HexReadsBack(b: seq<Byte>)
    ensures Unhex(Hex(b)) == b
    ensures forall k :: 0 <= k < |Hex(b)| ==> IsHexDigit(Hex(b)[k])
  {
    if |b| > 0 {
      hide DigitValue, HexDigit, IsHexDigit, Unhex;
      DigitReadsBack(b[0] / 16);
      DigitReadsBack(b[0] % 16);
      HexReadsBack(b[1..]);
      PairReadsBack(Hex(b));
      assert Hex(b)[2..] == Hex(b[1..]);
      assert 16 * (b[0] / 16) + b[0] % 16 == b[0];
      assert b == [b[0]] + b[1..];
    }
  }

  // The score of a digest: how many zeros its hexadecimal form starts with.
  function LeadingZeros(s: string): (n: nat)
    ensures n <= |s|
    ensures forall k :: 0 <= k < n ==> s[k] == '0'
    ensures n < |s| ==> s[n] != '0'
  {
    if |s| == 0 || s[0] != '0' then 0 else 1 + LeadingZeros(s[1..])
  }

  lemma LeadingZerosIs(s: string, n: nat)
    requires n <= |s| && (forall k :: 0 <= k < n ==> s[k] == '0') && (n < |s| ==> s[n] != '0')
    ensures LeadingZeros(s) == n
  {
  }
}
