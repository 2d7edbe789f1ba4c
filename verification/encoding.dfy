/** Base64 encoding of a byte payload, as used for kitty graphics payloads
    (section 4 of RFC 4648, with '=' padding). The encoding is described in
    two layers: the input is cut into 6-bit values ("sextets", with 64
    standing for a padding position), and each sextet is then written as one
    byte of the alphabet. */
module Encoding {
  import opened Bytes
  import opened Wrappers

  const PAD: byte := 61  // '='

  /** The sextet value that stands for a padding position. */
  const PAD_SEXTET: nat := 64

  /** `B64_CHARS[v]`: the byte that writes sextet value `v`. The table lists
      `A`-`Z`, `a`-`z`, `0`-`9`, `+`, `/` in that order. */
  function B64Char(v: nat): (c: byte)
    requires v < 64
  {
    if v < 26 then ('A' as int + v) as byte
    else if v < 52 then ('a' as int + (v - 26)) as byte
    else if v < 62 then ('0' as int + (v - 52)) as byte
    else if v == 62 then '+' as int as byte
    else '/' as int as byte
  }

  /** Different sextets are written as different bytes, and none of them is `=`. */
  lemma AlphabetInjective(v: nat, w: nat)
    requires v < 64 && w < 64
    ensures B64Char(v) != PAD
    ensures B64Char(v) == B64Char(w) <==> v == w
  {
  }

  /** The byte written for a sextet or a padding position. */
  function CharOf(x: nat): byte
    requires x <= PAD_SEXTET
  {
    if x == PAD_SEXTET then PAD else B64Char(x)
  }

  predicate ValidSextets(xs: seq<nat>) {
    forall i :: 0 <= i < |xs| ==> xs[i] <= PAD_SEXTET
  }

  /** Writes each sextet as its byte. */
  function Chars(xs: seq<nat>): (r: seq<byte>)
    requires ValidSextets(xs)
    ensures |r| == |xs|
    ensures forall i :: 0 <= i < |xs| ==> r[i] == CharOf(xs[i])
  {
    seq(|xs|, i requires 0 <= i < |xs| => CharOf(xs[i]))
  }

  lemma CharsAppend(xs: seq<nat>, ys: seq<nat>)
    requires ValidSextets(xs) && ValidSextets(ys)
    ensures ValidSextets(xs + ys)
    ensures Chars(xs + ys) == Chars(xs) + Chars(ys)
  {
  }

  /** `(x >> 2)` on an 8-bit value. */
  lemma Shr2(x: bv8)
    ensures (x >> 2) as int == x as int / 4
  {
  }

  lemma Shr4(x: bv8)
    ensures (x >> 4) as int == x as int / 16
  {
  }

  lemma Shr6(x: bv8)
    ensures (x >> 6) as int == x as int / 64
  {
  }

  /** `<<` drops the high bits of an 8-bit value: `x << 6 >> 2` keeps the low two bits. */
  lemma Shl6Shr2(x: bv8)
    ensures (x << 6 >> 2) as int == (x as int % 4) * 16
  {
  }

  lemma Shl4Shr2(x: bv8)
    ensures (x << 4 >> 2) as int == (x as int % 16) * 4
  {
  }

  lemma Shl2Shr2(x: bv8)
    ensures (x << 2 >> 2) as int == x as int % 64
  {
  }

  /** The two halves of the second sextet occupy disjoint bits. */
  lemma Or1(x: bv8, y: bv8)
    ensures ((x << 6 >> 2) | (y >> 4)) as int == (x << 6 >> 2) as int + (y >> 4) as int
  {
    assert ((x << 6 >> 2) | (y >> 4)) == (x << 6 >> 2) + (y >> 4);
  }

  /** The two halves of the third sextet occupy disjoint bits. */
  lemma Or2(x: bv8, y: bv8)
    ensures ((x << 4 >> 2) | (y >> 6)) as int == (x << 4 >> 2) as int + (y >> 6) as int
  {
    assert ((x << 4 >> 2) | (y >> 6)) == (x << 4 >> 2) + (y >> 6);
  }

  lemma ShiftInBit(y: bv8, bit: bv8)
    requires y as int < 128 && bit as int < 2
    ensures ((y << 1) | bit) as int == 2 * (y as int) + bit as int
  {
  }

  /** An unsigned integer below 256 seen as an 8-bit vector, built bit by bit. */
  function Bits(n: nat): (r: bv8)
    requires n < 256
    ensures r as int == n
  {
    if n == 0 then 0
    else
      var y := Bits(n / 2);
      var bit: bv8 := if n % 2 == 1 then 1 else 0;
      ShiftInBit(y, bit);
      (y << 1) | bit
  }

  /** The first sextet of a group: `b0 >> 2`. */
  function Sextet0(b0: bv8): (r: nat)
    ensures r == b0 as int / 4 && r < 64
  {
    Shr2(b0);
    (b0 >> 2) as int
  }

  /** The second sextet: `b0 << 6 >> 2 | b1 >> 4`. */
  function Sextet1(b0: bv8, b1: bv8): (r: nat)
    ensures r == (b0 as int % 4) * 16 + b1 as int / 16 && r < 64
  {
    Or1(b0, b1);
    Shl6Shr2(b0);
    Shr4(b1);
    ((b0 << 6 >> 2) | (b1 >> 4)) as int
  }

  /** The third sextet: `b1 << 4 >> 2 | b2 >> 6`. */
  function Sextet2(b1: bv8, b2: bv8): (r: nat)
    ensures r == (b1 as int % 16) * 4 + b2 as int / 64 && r < 64
  {
    Or2(b1, b2);
    Shl4Shr2(b1);
    Shr6(b2);
    ((b1 << 4 >> 2) | (b2 >> 6)) as int
  }

  /** The fourth sextet: `b2 << 2 >> 2`. */
  function Sextet3(b2: bv8): (r: nat)
    ensures r == b2 as int % 64
  {
    Shl2Shr2(b2);
    (b2 << 2 >> 2) as int
  }

  /** The four sextets of a full group of three bytes, most significant bits first. */
  function GroupSextets(b0: byte, b1: byte, b2: byte): (r: seq<nat>)
    ensures |r| == 4 && ValidSextets(r)
    ensures forall i :: 0 <= i < 4 ==> r[i] < 64
  {
    [b0 as int / 4, (b0 as int % 4) * 16 + b1 as int / 16, (b1 as int % 16) * 4 + b2 as int / 64, b2 as int % 64]
  }

  /** The sextets of a final group of one or two bytes: the missing input
      bits are zero and each missing sextet is a padding position. */
  function PadSextets(t: seq<byte>): (r: seq<nat>)
    requires 1 <= |t| <= 2
    ensures |r| == 4 && ValidSextets(r)
    ensures r[0] < 64 && r[1] < 64 && r[3] == PAD_SEXTET
    ensures r[2] == PAD_SEXTET <==> |t| == 1
  {
    if |t| == 1 then [t[0] as int / 4, (t[0] as int % 4) * 16, PAD_SEXTET, PAD_SEXTET]
    else [t[0] as int / 4, (t[0] as int % 4) * 16 + t[1] as int / 16, (t[1] as int % 16) * 4, PAD_SEXTET]
  }

  /** The 8-bit shift expressions of `convert_full_bytes_to_b64` compute the
      sextets of `GroupSextets`. */
  lemma GroupSextetsShifts(b0: byte, b1: byte, b2: byte)
    ensures GroupSextets(b0, b1, b2) ==
              [Sextet0(Bits(b0 as int)), Sextet1(Bits(b0 as int), Bits(b1 as int)),
               Sextet2(Bits(b1 as int), Bits(b2 as int)), Sextet3(Bits(b2 as int))]
  {
  }

  /** The shift expressions of the one- and two-byte cases of
      `convert_partial_bytes_to_b64` compute the sextets of `PadSextets`. */
  lemma PadSextetsShifts(t: seq<byte>)
    requires 1 <= |t| <= 2
    ensures |t| == 1 ==>
              PadSextets(t) == [Sextet0(Bits(t[0] as int)), Sextet1(Bits(t[0] as int), 0), PAD_SEXTET, PAD_SEXTET]
    ensures |t| == 2 ==>
              PadSextets(t) == [Sextet0(Bits(t[0] as int)), Sextet1(Bits(t[0] as int), Bits(t[1] as int)),
                                Sextet2(Bits(t[1] as int), 0), PAD_SEXTET]
  {
  }

  /** `convert_full_bytes_to_b64`: three bytes become four alphabet bytes. */
  function FullGroup(b0: byte, b1: byte, b2: byte): (r: seq<byte>)
    ensures |r| == 4
  {
    Chars(GroupSextets(b0, b1, b2))
  }

  /** The padded encoding of a final group of one or two bytes. */
  function PadGroup(t: seq<byte>): (r: seq<byte>)
    requires 1 <= |t| <= 2
    ensures |r| == 4
  {
    Chars(PadSextets(t))
  }

  /** `convert_partial_bytes_to_b64`: writes into the four-byte buffer `buf`;
      no bytes leave it unchanged, more than three panic. */
  function ConvertPartial(bytes: seq<byte>, buf: seq<byte>): (r: Result<seq<byte>>)
    requires |buf| == 4
    ensures r.Success? <==> |bytes| <= 3
    ensures r.Success? ==> |r.value| == 4
    ensures |bytes| == 0 ==> r == Success(buf)
  {
    match |bytes|
    case 0 => Success(buf)
    case 1 => Success(PadGroup(bytes))
    case 2 => Success(PadGroup(bytes))
    case 3 => Success(FullGroup(bytes[0], bytes[1], bytes[2]))
    case _ => Failure("Number of bytes cannot exceed 3")
  }

  /** Number of output bytes: four per started group of three. */
  function EncodedLength(n: nat): nat {
    if n % 3 > 0 then (n / 3 + 1) * 4 else (n / 3) * 4
  }

  lemma EncodedLengthStep(n: nat)
    requires n >= 3
    ensures EncodedLength(n) == EncodedLength(n - 3) + 4
  {
    assert (n - 3) / 3 == n / 3 - 1;
    assert (n - 3) % 3 == n % 3;
  }

  /** The sextets of a whole payload: full groups left to right, then the
      padded tail. */
  function Sextets(s: seq<byte>): (r: seq<nat>)
    ensures ValidSextets(r)
    decreases |s|
  {
    if |s| >= 3 then GroupSextets(s[0], s[1], s[2]) + Sextets(s[3..])
    else if |s| == 0 then []
    else PadSextets(s)
  }

  /** Reference encoding of a payload. */
  function Encode(s: seq<byte>): seq<byte> {
    Chars(Sextets(s))
  }

  /** One step of the reference encoding, group by group. */
  lemma EncodeUnfold(s: seq<byte>)
    ensures |s| == 0 ==> Encode(s) == []
    ensures |s| >= 3 ==> Encode(s) == FullGroup(s[0], s[1], s[2]) + Encode(s[3..])
    ensures 1 <= |s| < 3 ==> Encode(s) == PadGroup(s)
  {
    if |s| >= 3 {
      CharsAppend(GroupSextets(s[0], s[1], s[2]), Sextets(s[3..]));
    }
  }

  /** The output has four bytes per started group of three input bytes. */
  lemma {:induction false} SextetsLength(s: seq<byte>)
    ensures |Sextets(s)| == EncodedLength(|s|)
    decreases |s|
  {
    if |s| >= 3 {
      SextetsLength(s[3..]);
      EncodedLengthStep(|s|);
    }
  }

  lemma EncodeLength(s: seq<byte>)
    ensures |Encode(s)| == EncodedLength(|s|)
    ensures |Encode(s)| % 4 == 0
    ensures |Encode(s)| == 0 <==> |s| == 0
  {
    SextetsLength(s);
  }

  lemma {:induction false} SextetsAppend(a: seq<byte>, b: seq<byte>)
    requires |a| % 3 == 0
    ensures Sextets(a + b) == Sextets(a) + Sextets(b)
    decreases |a|
  {
    if |a| == 0 {
      assert a + b == b;
    } else {
      assert (a + b)[3..] == a[3..] + b;
      SextetsAppend(a[3..], b);
    }
  }

  lemma EncodeAppend(a: seq<byte>, b: seq<byte>)
    requires |a| % 3 == 0
    ensures Encode(a + b) == Encode(a) + Encode(b)
  {
    SextetsAppend(a, b);
    CharsAppend(Sextets(a), Sextets(b));
  }

  /** The encoding of a prefix of whole groups grows by one group at a time. */
  lemma EncodeNextGroup(s: seq<byte>, k: nat)
    requires 3 * k + 3 <= |s|
    ensures Encode(s[..3 * k + 3]) == Encode(s[..3 * k]) + FullGroup(s[3 * k], s[3 * k + 1], s[3 * k + 2])
  {
    var g := s[3 * k..3 * k + 3];
    assert s[..3 * k + 3] == s[..3 * k] + g;
    EncodeAppend(s[..3 * k], g);
    EncodeUnfold(g);
    assert g[3..] == [];
    EncodeUnfold(g[3..]);
  }

  /** The encoding splits at any whole number of groups. */
  lemma EncodeSplitAt(s: seq<byte>, k: nat)
    requires k <= |s| && k % 3 == 0
    ensures Encode(s) == Encode(s[..k]) + Encode(s[k..])
  {
    var a, b := s[..k], s[k..];
    assert a + b == s;
    EncodeAppend(a, b);
  }

  lemma EncodedLengthSplit(n: nat)
    ensures EncodedLength(n) == 4 * (n / 3) + (if n % 3 > 0 then 4 else 0)
  {
  }

  /** The loop of `read_bytes_to_b64`: a zero buffer of `EncodedLength`
      bytes whose first `4 * (n / 3)` bytes are filled with the encodings of
      the full groups, left to right. */
  method FillFullGroups(bytes: seq<byte>) returns (buf: seq<byte>)
    ensures |buf| == EncodedLength(|bytes|)
    ensures buf[..4 * (|bytes| / 3)] == Encode(bytes[..3 * (|bytes| / 3)])
  {
    var full := |bytes| / 3;
    buf := seq(EncodedLength(|bytes|), _ => 0);
    var ind := 0;
    EncodeUnfold([]);
    while ind < full
      invariant 0 <= ind <= full
      invariant |buf| == EncodedLength(|bytes|)
      invariant buf[..4 * ind] == Encode(bytes[..3 * ind])
    {
      var g := FullGroup(bytes[3 * ind], bytes[3 * ind + 1], bytes[3 * ind + 2]);
      EncodeNextGroup(bytes, ind);
      var next := buf[..4 * ind] + g + buf[4 * ind + 4..];
      assert next[..4 * ind + 4] == buf[..4 * ind] + g;
      buf := next;
      ind := ind + 1;
    }
  }

  /** `read_bytes_to_b64`: the full groups, then the last one or two bytes
      padded with `=`. It never returns `Err`. */
  method ReadBytesToB64(bytes: seq<byte>) returns (r: Result<seq<byte>>)
    ensures r == Success(Encode(bytes))
  {
    var numRaw := |bytes|;
    var rem := numRaw % 3;
    var buf := FillFullGroups(bytes);
    EncodedLengthSplit(numRaw);
    var rawStart := numRaw - rem;
    var done := 4 * (numRaw / 3);
    assert rawStart == 3 * (numRaw / 3);
    assert buf[..done] == Encode(bytes[..rawStart]);
    EncodeSplitAt(bytes, rawStart);
    EncodeUnfold(bytes[rawStart..]);
    if rem > 0 {
      var b64Start := |buf| - 4;
      assert b64Start == done;
      var tail := ConvertPartial(bytes[rawStart..], buf[b64Start..]);
      assert tail.value == Encode(bytes[rawStart..]);
      buf := buf[..b64Start] + tail.value;
      assert buf == Encode(bytes[..rawStart]) + Encode(bytes[rawStart..]);
    } else {
      assert |buf| == done;
      assert buf[..|buf|] == buf;
      assert Encode(bytes[rawStart..]) == [];
      assert Encode(bytes[..rawStart]) + [] == Encode(bytes[..rawStart]);
    }
    assert buf == Encode(bytes);
    return Success(buf);
  }

  /** Inverse of the alphabet: the sextet value a byte stands for, if any. */
  function SextetOf(c: byte): (r: Option<nat>)
    ensures r.Some? ==> r.value < 64 && B64Char(r.value) == c
  {
    var v := c as int;
    if 'A' as int <= v <= 'Z' as int then Some(v - 'A' as int)
    else if 'a' as int <= v <= 'z' as int then Some(v - 'a' as int + 26)
    else if '0' as int <= v <= '9' as int then Some(v - '0' as int + 52)
    else if v == '+' as int then Some(62)
    else if v == '/' as int then Some(63)
    else None
  }

  /** A byte of the alphabet (not the padding byte). */
  predicate IsB64Char(c: byte) {
    SextetOf(c).Some?
  }

  lemma SextetOfAlphabet(v: nat)
    requires v < 64
    ensures SextetOf(B64Char(v)) == Some(v)
  {
  }

  /** The bytes a run of sextets stands for: each byte takes the bits that
      straddle two neighbouring sextets. */
  function Byte0(s0: nat, s1: nat): nat { s0 * 4 + s1 / 16 }
  function Byte1(s1: nat, s2: nat): nat { (s1 % 16) * 16 + s2 / 4 }
  function Byte2(s2: nat, s3: nat): nat { (s2 % 4) * 64 + s3 }

  /** Reassembling the sextets of a group gives back its three bytes. */
  lemma Reassemble(b0: nat, b1: nat, b2: nat)
    requires b0 < 256 && b1 < 256 && b2 < 256
    ensures Byte0(b0 / 4, (b0 % 4) * 16 + b1 / 16) == b0
    ensures Byte1((b0 % 4) * 16 + b1 / 16, (b1 % 16) * 4 + b2 / 64) == b1
    ensures Byte2((b1 % 16) * 4 + b2 / 64, b2 % 64) == b2
  {
  }

  /** Reassembles up to three bytes from the four bytes of one group. */
  function DecodeGroup(g: seq<byte>): Option<seq<byte>>
    requires |g| == 4
  {
    var s0 :- SextetOf(g[0]);
    var s1 :- SextetOf(g[1]);
    var b0 := Byte0(s0, s1) as byte;
    if g[2] == PAD && g[3] == PAD then Some([b0])
    else
      var s2 :- SextetOf(g[2]);
      var b1 := Byte1(s1, s2) as byte;
      if g[3] == PAD then Some([b0, b1])
      else
        var s3 :- SextetOf(g[3]);
        Some([b0, b1, Byte2(s2, s3) as byte])
  }

  /** Decoding of a padded encoding, four bytes at a time; padding is
      accepted only in the last group. */
  function Decode(e: seq<byte>): Option<seq<byte>>
    decreases |e|
  {
    if |e| == 0 then Some([])
    else if |e| < 4 then None
    else
      var head :- DecodeGroup(e[..4]);
      if |e| > 4 && |head| < 3 then None
      else
        var rest :- Decode(e[4..]);
        Some(head + rest)
  }

  /** The bytes of four sextets none of which is a padding position. */
  lemma DecodeSextets(xs: seq<nat>, s0: nat, s1: nat, s2: nat, s3: nat)
    requires |xs| == 4 && xs == [s0, s1, s2, s3] && s0 < 64 && s1 < 64 && s2 < 64 && s3 < 64
    ensures DecodeGroup(Chars(xs)) == Some([Byte0(s0, s1) as byte, Byte1(s1, s2) as byte, Byte2(s2, s3) as byte])
  {
    var g := Chars(xs);
    SextetOfAlphabet(s0);
    SextetOfAlphabet(s1);
    SextetOfAlphabet(s2);
    SextetOfAlphabet(s3);
    AlphabetInjective(s2, 0);
    AlphabetInjective(s3, 0);
  }

  lemma DecodeFullGroup(b0: byte, b1: byte, b2: byte)
    ensures DecodeGroup(FullGroup(b0, b1, b2)) == Some([b0, b1, b2])
  {
    var xs := GroupSextets(b0, b1, b2);
    DecodeSextets(xs, xs[0], xs[1], xs[2], xs[3]);
    Reassemble(b0 as int, b1 as int, b2 as int);
  }

  /** The byte of two sextets followed by two padding positions. */
  lemma DecodeSextetsPad1(xs: seq<nat>, s0: nat, s1: nat)
    requires xs == [s0, s1, PAD_SEXTET, PAD_SEXTET] && s0 < 64 && s1 < 64
    ensures DecodeGroup(Chars(xs)) == Some([Byte0(s0, s1) as byte])
  {
    SextetOfAlphabet(s0);
    SextetOfAlphabet(s1);
  }

  lemma DecodePad1(t: seq<byte>)
    requires |t| == 1
    ensures DecodeGroup(PadGroup(t)) == Some(t)
  {
    var xs := PadSextets(t);
    var b0 := t[0] as int;
    assert xs == [b0 / 4, (b0 % 4) * 16, PAD_SEXTET, PAD_SEXTET];
    DecodeSextetsPad1(xs, b0 / 4, (b0 % 4) * 16);
    assert Byte0(b0 / 4, (b0 % 4) * 16) == b0 by {
      Reassemble(b0, 0, 0);
    }
    assert t == [t[0]];
  }

  lemma DecodePad2(t: seq<byte>)
    requires |t| == 2
    ensures DecodeGroup(PadGroup(t)) == Some(t)
  {
    var xs := PadSextets(t);
    var g := Chars(xs);
    SextetOfAlphabet(xs[0]);
    SextetOfAlphabet(xs[1]);
    SextetOfAlphabet(xs[2]);
    AlphabetInjective(xs[2], 0);
    Reassemble(t[0] as int, t[1] as int, 0);
    assert g[3] == PAD;
    assert t == [t[0], t[1]];
  }

  /** Decoding a full group followed by more groups. */
  lemma DecodeCons(g: seq<byte>, rest: seq<byte>, h: seq<byte>, t: seq<byte>)
    requires |g| == 4 && DecodeGroup(g) == Some(h) && |h| == 3
    requires Decode(rest) == Some(t)
    ensures Decode(g + rest) == Some(h + t)
  {
    var e := g + rest;
    assert e[..4] == g;
    assert e[4..] == rest;
  }

  /** Decoding a single group. */
  lemma DecodeLast(g: seq<byte>, h: seq<byte>)
    requires |g| == 4 && DecodeGroup(g) == Some(h)
    ensures Decode(g) == Some(h)
  {
    assert g[..4] == g;
    assert g[4..] == [];
    assert h + [] == h;
  }

  /** Decoding inverts the encoder: the payload is recovered exactly. */
  lemma {:induction false} DecodeEncode(s: seq<byte>)
    ensures Decode(Encode(s)) == Some(s)
    decreases |s|
  {
    EncodeUnfold(s);
    if |s| >= 3 {
      DecodeFullGroup(s[0], s[1], s[2]);
      DecodeEncode(s[3..]);
      DecodeCons(FullGroup(s[0], s[1], s[2]), Encode(s[3..]), [s[0], s[1], s[2]], s[3..]);
      assert s == [s[0], s[1], s[2]] + s[3..];
    } else if |s| == 1 {
      DecodePad1(s);
      DecodeLast(PadGroup(s), s);
    } else if |s| == 2 {
      DecodePad2(s);
      DecodeLast(PadGroup(s), s);
    }
  }

  /** `read_bytes_to_b64` is injective: different payloads never share an encoding. */
  lemma EncodeInjective(a: seq<byte>, b: seq<byte>)
    requires Encode(a) == Encode(b)
    ensures a == b
  {
    DecodeEncode(a);
    DecodeEncode(b);
  }

  /** Padding positions occur only among the last two sextets, and only when
      the payload length is not a multiple of three. */
  lemma {:induction false} SextetsPadding(s: seq<byte>)
    ensures forall i :: 0 <= i < |Sextets(s)| && Sextets(s)[i] == PAD_SEXTET ==> |Sextets(s)| - 2 <= i
    ensures |s| % 3 == 0 ==> PAD_SEXTET !in Sextets(s)
    decreases |s|
  {
    if |s| >= 3 {
      var g := GroupSextets(s[0], s[1], s[2]);
      var rest := Sextets(s[3..]);
      SextetsPadding(s[3..]);
      assert Sextets(s) == g + rest;
      forall i | 0 <= i < |g + rest| && (g + rest)[i] == PAD_SEXTET
        ensures |g + rest| - 2 <= i
      {
        assert i >= 4;
        assert (g + rest)[i] == rest[i - 4];
      }
    }
  }

  /** Every output byte is an alphabet byte or `=`, and `=` occurs only in
      the last two positions, never when the length is a multiple of three. */
  lemma EncodeAlphabet(s: seq<byte>)
    ensures forall i :: 0 <= i < |Encode(s)| ==> IsB64Char(Encode(s)[i]) || Encode(s)[i] == PAD
    ensures forall i :: 0 <= i < |Encode(s)| && Encode(s)[i] == PAD ==> |Encode(s)| - 2 <= i
    ensures |s| % 3 == 0 ==> PAD !in Encode(s)
  {
    var xs := Sextets(s);
    var e := Encode(s);
    SextetsPadding(s);
    forall i | 0 <= i < |e|
      ensures IsB64Char(e[i]) || e[i] == PAD
      ensures e[i] == PAD <==> xs[i] == PAD_SEXTET
    {
      if xs[i] < 64 {
        SextetOfAlphabet(xs[i]);
        AlphabetInjective(xs[i], 0);
      }
    }
  }

  /** The repository's test vectors. */
  lemma KnownVectors()
    ensures Encode(AsciiBytes("M")) == AsciiBytes("TQ==")
    ensures Encode(AsciiBytes("Ma")) == AsciiBytes("TWE=")
    ensures Encode(AsciiBytes("Man")) == AsciiBytes("TWFu")
    ensures Encode([]) == []
  {
  }
}
