/** Bytes, and numbers in them in either order. */
module Bytes {
  type Byte = x: int | 0 <= x < 256

  const TWO_16 := 0x1_0000
  const TWO_24 := 0x100_0000
  const TWO_32 := 0x1_0000_0000

  function Le16(s: seq<Byte>, i: nat): nat
    requires i + 2 <= |s|
  {
    s[i] as int + 256 * s[i + 1] as int
  }

  function Le24(s: seq<Byte>, i: nat): nat
    requires i + 3 <= |s|
  {
    s[i] as int + 256 * Le16(s, i + 1)
  }

  function Le32(s: seq<Byte>, i: nat): (n: nat)
    requires i + 4 <= |s|
    ensures n < TWO_32
  {
    s[i] as int + 256 * Le24(s, i + 1)
  }

  function Be32(s: seq<Byte>, i: nat): (n: nat)
    requires i + 4 <= |s|
    ensures n < TWO_32
  {
    Le32([s[i + 3], s[i + 2], s[i + 1], s[i]], 0)
  }

  function PutLe16(n: nat): (s: seq<Byte>)
    requires n < TWO_16
    ensures |s| == 2 && Le16(s, 0) == n
  {
    [n % 256, n / 256]
  }

  function PutLe24(n: nat): (s: seq<Byte>)
    requires n < TWO_24
    ensures |s| == 3 && Le24(s, 0) == n
  {
    [n % 256] + PutLe16(n / 256)
  }

  function PutLe32(n: nat): (s: seq<Byte>)
    requires n < TWO_32
    ensures |s| == 4 && Le32(s, 0) == n
  {
    [n % 256] + PutLe24(n / 256)
  }

  function PutBe32(n: nat): (s: seq<Byte>)
    requires n < TWO_32
    ensures |s| == 4 && Be32(s, 0) == n
  {
    var le := PutLe32(n);
    [le[3], le[2], le[1], le[0]]
  }

  /** Four bytes are the print of the number read from them. */
  lemma PutLe32Read(s: seq<Byte>)
    requires |s| == 4
    ensures PutLe32(Le32(s, 0)) == s
  {
    assert Le32(s, 0) % 256 == s[0] && Le32(s, 0) / 256 == Le24(s, 1);
    assert Le24(s, 1) % 256 == s[1] && Le24(s, 1) / 256 == Le16(s, 2);
  }

  lemma PutBe32Read(s: seq<Byte>)
    requires |s| == 4
    ensures PutBe32(Be32(s, 0)) == s
  {
    PutLe32Read([s[3], s[2], s[1], s[0]]);
  }

  /** Decoding as ASCII drops the highest bit of each byte. */
  function Ascii(s: seq<Byte>): (r: seq<Byte>)
    ensures |r| == |s| && forall i :: 0 <= i < |s| ==> r[i] == s[i] % 128
  {
    seq(|s|, i requires 0 <= i < |s| => s[i] % 128)
  }

  lemma AsciiStays(s: seq<Byte>)
    requires forall i :: 0 <= i < |s| ==> s[i] < 128
    ensures Ascii(s) == s
  {
    forall i | 0 <= i < |s|
      ensures Ascii(s)[i] == s[i]
    {
    }
  }

  /** The codes of the characters of an ASCII text. */
  function Codes(text: string): seq<Byte>
    requires forall i :: 0 <= i < |text| ==> text[i] < 128 as char
  {
    seq(|text|, i requires 0 <= i < |text| => text[i] as int)
  }

  /** The places of the bytes: the first is the lowest in little-endian numbers, the highest in a big-endian one. */
  lemma Places(s: seq<Byte>, i: nat)
    requires i + 4 <= |s|
    ensures Le16(s, i) == s[i] as int + 0x100 * s[i + 1] as int
    ensures Le24(s, i) == s[i] as int + 0x100 * s[i + 1] as int + 0x1_0000 * s[i + 2] as int
    ensures Le32(s, i) == s[i] as int + 0x100 * s[i + 1] as int + 0x1_0000 * s[i + 2] as int + 0x100_0000 * s[i + 3] as int
    ensures Be32(s, i) == 0x100_0000 * s[i] as int + 0x1_0000 * s[i + 1] as int + 0x100 * s[i + 2] as int + s[i + 3] as int
  {
  }

  /** What a raster file says of itself. */
  datatype Header = Header(width: nat, height: nat, alpha: bool)
}
