/**
 * Bytes: UTF-8 encoding of strings (`str.encode('utf-8')`), the byte-per-character reading of
 * byte strings and its inverse, and little-endian unsigned integers (`struct.unpack('<I')`, `'<Q'`).
 */
module Bytes {

  newtype byte = x: int | 0 <= x < 256

  // ---------------------------------------------------------------------------------------
  // UTF-8

  function Utf8Char(c: char): (r: seq<byte>)
    ensures 1 <= |r| <= 4
    ensures (c as int < 0x80) <==> |r| == 1
    ensures c as int < 0x80 ==> r == [c as int as byte]
  {
    var n := c as int;
    if n < 0x80 then [n as byte]
    else if n < 0x800 then [(0xC0 + n / 0x40) as byte, (0x80 + n % 0x40) as byte]
    else if n < 0x10000 then
      [(0xE0 + n / 0x1000) as byte, (0x80 + (n / 0x40) % 0x40) as byte, (0x80 + n % 0x40) as byte]
    else
      [(0xF0 + n / 0x40000) as byte, (0x80 + (n / 0x1000) % 0x40) as byte,
       (0x80 + (n / 0x40) % 0x40) as byte, (0x80 + n % 0x40) as byte]
  }

  /** `s.encode('utf-8')`. */
  function Utf8(s: string): (r: seq<byte>)
    ensures |r| >= |s|
  {
    if s == [] then [] else Utf8Char(s[0]) + Utf8(s[1..])
  }

  lemma {:induction false} Utf8Append(a: string, b: string)
    ensures Utf8(a + b) == Utf8(a) + Utf8(b)
  {
    if a != [] {
      assert (a + b)[1..] == a[1..] + b;
      Utf8Append(a[1..], b);
    } else {
      assert a + b == b;
    }
  }

  predicate IsAscii(s: string) {
    forall i :: 0 <= i < |s| ==> s[i] as int < 0x80
  }

  // ---------------------------------------------------------------------------------------
  // One character per byte

  /** Every byte read as the character with the same code. */
  function Latin1(bs: seq<byte>): (s: string)
    ensures |s| == |bs|
    ensures forall i :: 0 <= i < |bs| ==> s[i] as int == bs[i] as int
  {
    seq(|bs|, i requires 0 <= i < |bs| => bs[i] as int as char)
  }

  predicate IsLatin1(s: string) {
    forall i :: 0 <= i < |s| ==> s[i] as int < 256
  }

  /** The inverse of `Latin1` on strings whose characters all fit a byte. */
  function Latin1Bytes(s: string): (bs: seq<byte>)
    requires IsLatin1(s)
    ensures |bs| == |s|
    ensures forall i :: 0 <= i < |s| ==> bs[i] as int == s[i] as int
    ensures Latin1(bs) == s
  {
    seq(|s|, i requires 0 <= i < |s| => s[i] as int as byte)
  }

  /**
   * The bytes a string read one byte per character stands for: each character's code as a byte
   * (taken modulo 256, which only a character no such reading yields can need).
   */
  function ByteString(s: string): (bs: seq<byte>)
    ensures |bs| == |s|
    ensures IsLatin1(s) ==> bs == Latin1Bytes(s)
  {
    seq(|s|, i requires 0 <= i < |s| => (s[i] as int % 256) as byte)
  }

  /** `ByteString` gives back the bytes that `Latin1` read. */
  lemma ByteStringLatin1(bs: seq<byte>)
    ensures ByteString(Latin1(bs)) == bs
  {
    assert IsLatin1(Latin1(bs));
  }

  lemma ByteStringAppend(a: string, b: string)
    ensures ByteString(a + b) == ByteString(a) + ByteString(b)
  {
  }

  /** On ASCII text, UTF-8 is one byte per character. */
  lemma {:induction false} Utf8Ascii(s: string)
    requires IsAscii(s)
    ensures IsLatin1(s) && Utf8(s) == Latin1Bytes(s)
  {
    if s != [] {
      Utf8Ascii(s[1..]);
      assert Latin1Bytes(s) == Latin1Bytes(s[..1]) + Latin1Bytes(s[1..]);
    }
  }

  // ---------------------------------------------------------------------------------------
  // Little-endian unsigned integers

  /** The unsigned value of `bs`, least significant byte first. */
  function LittleEndian(bs: seq<byte>): (n: nat)
    ensures n < Pow256(|bs|)
  {
    if bs == [] then 0 else bs[0] as nat + 256 * LittleEndian(bs[1..])
  }

  function Pow256(k: nat): (p: nat)
    ensures p > 0
  {
    if k == 0 then 1 else 256 * Pow256(k - 1)
  }

  /** The `k` least significant bytes of `n`, least significant first. */
  function LittleEndianBytes(n: nat, k: nat): (bs: seq<byte>)
    ensures |bs| == k
  {
    if k == 0 then [] else [(n % 256) as byte] + LittleEndianBytes(n / 256, k - 1)
  }

  /** Encoding a number that fits in `k` bytes and reading it back gives the number. */
  lemma {:induction false} LittleEndianRoundTrip(n: nat, k: nat)
    requires n < Pow256(k)
    ensures LittleEndian(LittleEndianBytes(n, k)) == n
  {
    if k > 0 {
      LittleEndianRoundTrip(n / 256, k - 1);
      assert LittleEndianBytes(n, k)[1..] == LittleEndianBytes(n / 256, k - 1);
    }
  }

  lemma Pow256Values()
    ensures Pow256(4) == 0x1_0000_0000
    ensures Pow256(8) == 0x1_0000_0000_0000_0000
  {
    assert Pow256(2) == 0x1_0000;
    assert Pow256(4) == 0x1_0000_0000;
    assert Pow256(6) == 0x1_0000_0000_0000;
  }
}
