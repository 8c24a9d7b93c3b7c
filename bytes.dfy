/**
 * Fixed-width unsigned integers and their byte encodings, as the header
 * writer uses them: `htole16`/`htole32` lay a value out least significant
 * byte first, `htobe32` most significant byte first.
 */
module Bytes {

  type byte = b: int | 0 <= b < 0x100
  type u16 = x: int | 0 <= x < 0x1_0000
  type u32 = x: int | 0 <= x < 0x1_0000_0000
  type u64 = x: int | 0 <= x < 0x1_0000_0000_0000_0000

  const U16: int := 0x1_0000
  const U32: int := 0x1_0000_0000
  const U64: int := 0x1_0000_0000_0000_0000

  /** `uint32_t` addition: the sum wraps around past 2^32. */
  function Add32(a: u32, b: u32): u32
  {
    if a + b < U32 then a + b else a + b - U32
  }

  /** The wrapped sum is the sum modulo 2^32. */
  lemma Add32Wraps(a: u32, b: u32)
    ensures Add32(a, b) == (a + b) % U32
  {
  }

  /** Wrapping addition is associative. */
  lemma Add32Assoc(a: u32, b: u32, c: u32)
    ensures Add32(Add32(a, b), c) == Add32(a, Add32(b, c))
  {
  }

  /** The two bytes `htole16(v)` stores. */
  function Le16(v: u16): (r: seq<byte>)
    ensures |r| == 2
  {
    [v % 0x100, v / 0x100]
  }

  /** The four bytes `htole32(v)` stores. */
  function Le32(v: u32): (r: seq<byte>)
    ensures |r| == 4
  {
    [v % 0x100, (v / 0x100) % 0x100, (v / 0x1_0000) % 0x100, v / 0x100_0000]
  }

  /** The four bytes `htobe32(v)` stores. */
  function Be32(v: u32): (r: seq<byte>)
    ensures |r| == 4
  {
    [v / 0x100_0000, (v / 0x1_0000) % 0x100, (v / 0x100) % 0x100, v % 0x100]
  }

  /** The value a reader recovers from two little-endian bytes. */
  function FromLe16(s: seq<byte>): (v: u16)
    requires |s| == 2
  {
    s[0] as int + 0x100 * s[1] as int
  }

  /** The value a reader recovers from four little-endian bytes. */
  function FromLe32(s: seq<byte>): (v: u32)
    requires |s| == 4
  {
    s[0] as int + 0x100 * (s[1] as int + 0x100 * (s[2] as int + 0x100 * s[3] as int))
  }

  lemma Le16RoundTrip(v: u16)
    ensures FromLe16(Le16(v)) == v
  {
  }

  lemma FromLe16RoundTrip(s: seq<byte>)
    requires |s| == 2
    ensures Le16(FromLe16(s)) == s
  {
  }

  lemma Le32RoundTrip(v: u32)
    ensures FromLe32(Le32(v)) == v
  {
  }

  lemma FromLe32RoundTrip(s: seq<byte>)
    requires |s| == 4
    ensures Le32(FromLe32(s)) == s
  {
    var hi := s[2] as int + 0x100 * s[3] as int;
    var mid := s[1] as int + 0x100 * hi;
    DigitSplit(s[2], s[3]);
    DigitSplit(s[1], hi);
    DigitSplit(s[0], mid);
    assert FromLe32(s) / 0x100 == mid;
    assert FromLe32(s) / 0x1_0000 == mid / 0x100;
    assert FromLe32(s) / 0x100_0000 == hi / 0x100;
  }

  /** Splitting off the low base-256 digit of `lo + 256 * rest`. */
  lemma DigitSplit(lo: byte, rest: nat)
    ensures (lo + 0x100 * rest) % 0x100 == lo
    ensures (lo + 0x100 * rest) / 0x100 == rest
  {
  }

  /** Big-endian storage is little-endian storage read backwards. */
  lemma Be32IsReversedLe32(v: u32)
    ensures Be32(v) == [Le32(v)[3], Le32(v)[2], Le32(v)[1], Le32(v)[0]]
  {
  }

  /** Reducing a value below the modulus, or that value plus the modulus, gives the value. */
  lemma WrapSmall(n: nat, m: nat)
    requires n < m
    ensures n % m == n
    ensures (n + m) % m == n
  {
  }

  /** The bytes of an ASCII string. */
  function Ascii(s: string): (r: seq<byte>)
    requires forall i :: 0 <= i < |s| ==> s[i] as int < 0x80
    ensures |r| == |s|
    ensures forall i :: 0 <= i < |s| ==> r[i] == s[i] as int
  {
    seq(|s|, i requires 0 <= i < |s| => s[i] as int)
  }
}
