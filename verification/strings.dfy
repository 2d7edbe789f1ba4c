/** String helpers with Rust's semantics: `format!("{n}")` of an unsigned
    integer, `join`, `split`, `trim`, ASCII case mapping. */
module Strings {

  predicate IsDigit(c: char) { '0' <= c <= '9' }

  predicate AllDigits(s: string) {
    forall i :: 0 <= i < |s| ==> IsDigit(s[i])
  }

  function DigitChar(d: nat): (c: char)
    requires d < 10
    ensures IsDigit(c) && c as int - '0' as int == d
  {
    (('0' as int) + d) as char
  }

  /** The value of a string of decimal digits. */
  function DigitsValue(s: string): nat
    requires AllDigits(s)
  {
    if |s| == 0 then 0
    else DigitsValue(s[..|s| - 1]) * 10 + (s[|s| - 1] as int - '0' as int)
  }

  /** `format!("{n}")` for an unsigned integer: shortest decimal, no sign. */
  function NatToString(n: nat): (s: string)
    ensures 1 <= |s|
    ensures AllDigits(s)
    ensures |s| > 1 ==> s[0] != '0'
  {
    if n < 10 then [DigitChar(n)] else NatToString(n / 10) + [DigitChar(n % 10)]
  }

  /** Decimal formatting round-trips: reading the digits back gives `n`. */
  lemma {:induction false} NatToStringValue(n: nat)
    ensures DigitsValue(NatToString(n)) == n
  {
    var s := NatToString(n);
    if n >= 10 {
      NatToStringValue(n / 10);
      assert s[..|s| - 1] == NatToString(n / 10);
    }
  }

  /** Different numbers have different decimal strings. */
  lemma NatToStringInjective(a: nat, b: nat)
    requires NatToString(a) == NatToString(b)
    ensures a == b
  {
    NatToStringValue(a);
    NatToStringValue(b);
  }

  /** `parts.join(sep)`. */
  function Join(parts: seq<string>, sep: string): string
  {
    if |parts| == 0 then ""
    else if |parts| == 1 then parts[0]
    else parts[0] + sep + Join(parts[1..], sep)
  }

  /** `s.split(sep)` for a non-empty pattern: the pieces between the
      leftmost non-overlapping occurrences of `sep`, `cur` being the piece
      read so far. */
  function SplitFrom(s: string, sep: string, cur: string): (r: seq<string>)
    requires |sep| > 0
    ensures |r| >= 1
    decreases |s|
  {
    if |s| == 0 then [cur]
    else if sep <= s then [cur] + SplitFrom(s[|sep|..], sep, "")
    else SplitFrom(s[1..], sep, cur + [s[0]])
  }

  function Split(s: string, sep: string): (r: seq<string>)
    requires |sep| > 0
    ensures |r| >= 1
  {
    SplitFrom(s, sep, "")
  }

  lemma JoinCons(head: string, rest: seq<string>, sep: string)
    requires |rest| >= 1
    ensures Join([head] + rest, sep) == head + sep + Join(rest, sep)
  {
    assert ([head] + rest)[1..] == rest;
  }

  lemma SplitFromStep(s: string, sep: string, cur: string)
    requires |sep| > 0 && |s| > 0
    ensures sep <= s ==> SplitFrom(s, sep, cur) == [cur] + SplitFrom(s[|sep|..], sep, "")
    ensures !(sep <= s) ==> SplitFrom(s, sep, cur) == SplitFrom(s[1..], sep, cur + [s[0]])
  {
  }

  lemma ConcatPrefix(s: string, p: string, cur: string)
    requires p <= s
    ensures cur + p + ("" + s[|p|..]) == cur + s
  {
    assert p + s[|p|..] == s;
  }

  lemma ConcatHead(s: string, cur: string)
    requires |s| > 0
    ensures cur + [s[0]] + s[1..] == cur + s
  {
  }

  lemma {:induction false} JoinSplitFrom(s: string, sep: string, cur: string)
    requires |sep| > 0
    ensures Join(SplitFrom(s, sep, cur), sep) == cur + s
    decreases |s|
  {
    if |s| == 0 {
      assert cur + s == cur;
    } else if sep <= s {
      SplitFromStep(s, sep, cur);
      JoinSplitFrom(s[|sep|..], sep, "");
      JoinCons(cur, SplitFrom(s[|sep|..], sep, ""), sep);
      ConcatPrefix(s, sep, cur);
    } else {
      SplitFromStep(s, sep, cur);
      JoinSplitFrom(s[1..], sep, cur + [s[0]]);
      ConcatHead(s, cur);
    }
  }

  /** Splitting and re-joining with the same separator gives back the input. */
  lemma SplitJoin(s: string, sep: string)
    requires |sep| > 0
    ensures Join(Split(s, sep), sep) == s
  {
    JoinSplitFrom(s, sep, "");
  }

  /** A piece without the separator character is read in one go. */
  lemma {:induction false} SplitFromPlain(p: string, rest: string, c: char, cur: string)
    requires c !in p
    ensures SplitFrom(p + rest, [c], cur) == SplitFrom(rest, [c], cur + p)
    decreases |p|
  {
    if |p| == 0 {
      assert p + rest == rest;
      assert cur + p == cur;
    } else {
      assert (p + rest)[0] == p[0];
      assert !([c] <= p + rest);
      assert (p + rest)[1..] == p[1..] + rest;
      SplitFromPlain(p[1..], rest, c, cur + [p[0]]);
      assert cur + [p[0]] + p[1..] == cur + p;
    }
  }

  lemma SplitFromSep(r: string, c: char, cur: string)
    ensures SplitFrom([c] + r, [c], cur) == [cur] + SplitFrom(r, [c], "")
  {
    assert ([c] + r)[1..] == r;
  }

  /** Joining pieces that do not contain `c` and splitting at `c` gives the
      pieces back. */
  lemma {:induction false} SplitJoinChar(parts: seq<string>, c: char)
    requires |parts| >= 1
    requires forall i :: 0 <= i < |parts| ==> c !in parts[i]
    ensures Split(Join(parts, [c]), [c]) == parts
    decreases |parts|
  {
    if |parts| == 1 {
      assert parts[0] + "" == parts[0];
      SplitFromPlain(parts[0], "", c, "");
      assert "" + parts[0] == parts[0];
    } else {
      var j := Join(parts[1..], [c]);
      assert Join(parts, [c]) == parts[0] + ([c] + j);
      SplitFromPlain(parts[0], [c] + j, c, "");
      assert "" + parts[0] == parts[0];
      SplitFromSep(j, c, parts[0]);
      SplitJoinChar(parts[1..], c);
      assert parts == [parts[0]] + parts[1..];
    }
  }

  /** Rust's `char::is_whitespace`: the Unicode White_Space property. */
  predicate IsWhitespace(c: char) {
    var v := c as int;
    (0x09 <= v <= 0x0D) || v == 0x20 || v == 0x85 || v == 0xA0 || v == 0x1680
    || (0x2000 <= v <= 0x200A) || v == 0x2028 || v == 0x2029 || v == 0x202F
    || v == 0x205F || v == 0x3000
  }

  function TrimStart(s: string): (r: string)
    ensures |r| <= |s| && r == s[|s| - |r|..]
    ensures forall i :: 0 <= i < |s| - |r| ==> IsWhitespace(s[i])
    ensures |r| > 0 ==> !IsWhitespace(r[0])
  {
    if |s| > 0 && IsWhitespace(s[0]) then TrimStart(s[1..]) else s
  }

  function TrimEnd(s: string): (r: string)
    ensures |r| <= |s| && r == s[..|r|]
    ensures forall i :: |r| <= i < |s| ==> IsWhitespace(s[i])
    ensures |r| > 0 ==> !IsWhitespace(r[|r| - 1])
  {
    if |s| > 0 && IsWhitespace(s[|s| - 1]) then TrimEnd(s[..|s| - 1]) else s
  }

  /** `r` is the infix of `s` starting at `i`, and everything before and
      after it is whitespace. */
  predicate TrimmedAt(s: string, i: nat, r: string) {
    && i + |r| <= |s|
    && r == s[i..i + |r|]
    && (forall k :: 0 <= k < i ==> IsWhitespace(s[k]))
    && (forall k :: i + |r| <= k < |s| ==> IsWhitespace(s[k]))
  }

  /** `str::trim`: the longest infix that neither starts nor ends with whitespace,
      everything cut off being whitespace. */
  function Trim(s: string): (r: string)
    ensures exists i: nat :: TrimmedAt(s, i, r)
    ensures |r| > 0 ==> !IsWhitespace(r[0]) && !IsWhitespace(r[|r| - 1])
  {
    var t := TrimStart(s);
    var r := TrimEnd(t);
    var i := |s| - |t|;
    assert TrimmedAt(s, i, r);
    r
  }

  /** `str::strip_prefix(c).unwrap_or(s)`. */
  function StripPrefixChar(s: string, c: char): string {
    if |s| > 0 && s[0] == c then s[1..] else s
  }

  /** `str::strip_suffix(c).unwrap_or(s)`. */
  function StripSuffixChar(s: string, c: char): string {
    if |s| > 0 && s[|s| - 1] == c then s[..|s| - 1] else s
  }

  /** `str::trim_start_matches(c)` for a single character. */
  function TrimStartMatches(s: string, c: char): (r: string)
    ensures |r| <= |s| && r == s[|s| - |r|..]
    ensures forall i :: 0 <= i < |s| - |r| ==> s[i] == c
    ensures |r| > 0 ==> r[0] != c
  {
    if |s| > 0 && s[0] == c then TrimStartMatches(s[1..], c) else s
  }

  predicate EndsWith(s: string, suffix: string) {
    |suffix| <= |s| && s[|s| - |suffix|..] == suffix
  }

  function UpperChar(c: char): char {
    if 'a' <= c <= 'z' then (c as int - 32) as char else c
  }

  function LowerChar(c: char): char {
    if 'A' <= c <= 'Z' then (c as int + 32) as char else c
  }

  /** `str::to_ascii_uppercase`. */
  function ToAsciiUpper(s: string): (r: string)
    ensures |r| == |s|
    ensures forall i :: 0 <= i < |s| ==> r[i] == UpperChar(s[i])
  {
    seq(|s|, i requires 0 <= i < |s| => UpperChar(s[i]))
  }

  /** `str::to_ascii_lowercase`. */
  function ToAsciiLower(s: string): (r: string)
    ensures |r| == |s|
    ensures forall i :: 0 <= i < |s| ==> r[i] == LowerChar(s[i])
  {
    seq(|s|, i requires 0 <= i < |s| => LowerChar(s[i]))
  }

  /** `str::eq_ignore_ascii_case`. */
  predicate EqIgnoreAsciiCase(a: string, b: string) {
    ToAsciiLower(a) == ToAsciiLower(b)
  }

  lemma ToAsciiUpperIdempotent(s: string)
    ensures ToAsciiUpper(ToAsciiUpper(s)) == ToAsciiUpper(s)
  {
  }

  lemma ToAsciiLowerIdempotent(s: string)
    ensures ToAsciiLower(ToAsciiLower(s)) == ToAsciiLower(s)
  {
  }

  /** Upper-casing first does not change the lower-case form. */
  lemma LowerOfUpper(s: string)
    ensures ToAsciiLower(ToAsciiUpper(s)) == ToAsciiLower(s)
  {
  }
}
