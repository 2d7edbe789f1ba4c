/** Bytes and the UTF-8 view of a Rust `&str` (`str::as_bytes`). */
module Bytes {

  newtype byte = b: int | 0 <= b < 256

  const ESC: byte := 0x1B

  /** True for every Unicode scalar value below 0x80 (7-bit ASCII). */
  predicate IsAscii(s: string) {
    forall i :: 0 <= i < |s| ==> s[i] as int < 0x80
  }

  /** The UTF-8 encoding of one Unicode scalar value (RFC 3629, section 3). */
  function Utf8Char(c: char): (r: seq<byte>)
    ensures 1 <= |r| <= 4
    ensures |r| == 1 <==> c as int < 0x80
    ensures c as int < 0x80 ==> r == [c as int as byte]
  {
    var v := c as int;
    if v < 0x80 then [v as byte]
    else if v < 0x800 then [(0xC0 + v / 64) as byte, (0x80 + v % 64) as byte]
    else if v < 0x10000 then
      [(0xE0 + v / 4096) as byte, (0x80 + (v / 64) % 64) as byte, (0x80 + v % 64) as byte]
    else
      [(0xF0 + v / 262144) as byte, (0x80 + (v / 4096) % 64) as byte,
       (0x80 + (v / 64) % 64) as byte, (0x80 + v % 64) as byte]
  }

  /** `str::as_bytes`: the UTF-8 encoding of a string. */
  function Utf8(s: string): seq<byte>
  {
    if |s| == 0 then [] else Utf8Char(s[0]) + Utf8(s[1..])
  }

  lemma {:induction false} Utf8Append(a: string, b: string)
    ensures Utf8(a + b) == Utf8(a) + Utf8(b)
  {
    if |a| == 0 {
      assert a + b == b;
    } else {
      assert (a + b)[1..] == a[1..] + b;
      Utf8Append(a[1..], b);
    }
  }

  /** An ASCII string encodes to one byte per character, each equal to its code point. */
  lemma {:induction false} Utf8OfAscii(s: string)
    requires IsAscii(s)
    ensures |Utf8(s)| == |s|
    ensures forall i :: 0 <= i < |s| ==> Utf8(s)[i] as int == s[i] as int
  {
    if |s| > 0 {
      assert IsAscii(s[1..]) by {
        forall i | 0 <= i < |s[1..]| ensures s[1..][i] as int < 0x80 {
          assert s[1..][i] == s[i + 1];
        }
      }
      Utf8OfAscii(s[1..]);
      assert Utf8(s) == [s[0] as int as byte] + Utf8(s[1..]);
    }
  }

  /** The bytes of an ASCII string, one per character. */
  function AsciiBytes(s: string): (r: seq<byte>)
    requires IsAscii(s)
    ensures |r| == |s|
  {
    seq(|s|, i requires 0 <= i < |s| => s[i] as int as byte)
  }

  /** For ASCII text, `str::as_bytes` is the one-byte-per-character view. */
  lemma Utf8IsAsciiBytes(s: string)
    requires IsAscii(s)
    ensures Utf8(s) == AsciiBytes(s)
  {
    Utf8OfAscii(s);
  }
}
