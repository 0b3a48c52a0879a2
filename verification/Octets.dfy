/** Bytes, and fixed-width unsigned integers in both byte orders. */
module Octets {
  type byte = b: int | 0 <= b < 256

  type u16 = n: int | 0 <= n < 0x1_0000
  type u32 = n: int | 0 <= n < 0x1_0000_0000

  function ToBE16(n: u16): seq<byte> {
    [n / 256, n % 256]
  }

  function FromBE16(s: seq<byte>): (n: u16)
    requires |s| == 2
  {
    var hi: int, lo: int := s[0], s[1];
    hi * 256 + lo
  }

  function FromLE16(s: seq<byte>): (n: u16)
    requires |s| == 2
  {
    var lo: int, hi: int := s[0], s[1];
    hi * 256 + lo
  }

  function To32(little: bool, n: u32): (s: seq<byte>)
    ensures |s| == 4
  {
    var n1 := n / 256;
    var n2 := n1 / 256;
    var b0, b1, b2, b3 := n % 256, n1 % 256, n2 % 256, n2 / 256;
    if little then [b0, b1, b2, b3] else [b3, b2, b1, b0]
  }

  /** The value of four base-256 digits, least significant first. */
  function Value(d0: int, d1: int, d2: int, d3: int): int {
    d0 + 256 * (d1 + 256 * (d2 + 256 * d3))
  }

  function From32(little: bool, s: seq<byte>): (n: u32)
    requires |s| == 4
  {
    var b0: int, b1: int, b2: int, b3: int := s[0], s[1], s[2], s[3];
    if little then Value(b0, b1, b2, b3) else Value(b3, b2, b1, b0)
  }

  lemma Digit(q: int, r: int)
    requires 0 <= r < 256
    ensures (r + 256 * q) / 256 == q && (r + 256 * q) % 256 == r
  {
  }

  /** The four bytes of an integer read back as that integer, in the order they were written. */
  lemma Inverse32(little: bool, n: u32)
    ensures From32(little, To32(little, n)) == n
  {
  }

  /** Four bytes are determined by the integer they encode. */
  lemma Unique32(little: bool, s: seq<byte>)
    requires |s| == 4
    ensures To32(little, From32(little, s)) == s
  {
    var d0: int, d1: int := if little then s[0] else s[3], if little then s[1] else s[2];
    var d2: int, d3: int := if little then s[2] else s[1], if little then s[3] else s[0];
    assert From32(little, s) == Value(d0, d1, d2, d3);
    Digit(d1 + 256 * (d2 + 256 * d3), d0);
    Digit(d2 + 256 * d3, d1);
    Digit(d3, d2);
  }
}
