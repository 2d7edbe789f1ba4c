/** Text: digit glyphs laid out side by side, the significant-figure
    shortening of a formatted number, and labels centred on a point. */
module Texts {
  import opened Wrappers
  import opened Ints
  import opened Points
  import opened Spans
  import opened Strings
  import opened Colors
  import opened Masks
  import opened Glyphs

  // ---------------------------------------------------------------------
  // Style

  /** `TextStyle`. */
  datatype TextStyle = TextStyle(color: Rgb, scale: nat, padding: nat)

  /** `TextStyle::new`: a scale below 1 is refused. */
  function NewStyle(color: Rgb, scale: nat, padding: nat): (r: Result<TextStyle>)
    ensures r.Success? <==> scale >= 1
    ensures r.Success? ==> r.value.color == color && r.value.scale == scale && r.value.padding == padding
    ensures r.Failure? ==> r.error == "Text scaling cannot be less than 1"
  {
    if scale < 1 then Failure("Text scaling cannot be less than 1")
    else Success(TextStyle(color, scale, padding))
  }

  /** `TextStyle::default`: black, scale 1, padding 1. */
  function DefaultStyle(): TextStyle {
    TextStyle(BLACK, 1, 1)
  }

  /** The default style is one `new` accepts. */
  lemma DefaultStyleValid()
    ensures NewStyle(BLACK, 1, 1) == Success(DefaultStyle())
    ensures DefaultStyle().scale >= 1
  {
  }

  // ---------------------------------------------------------------------
  // Characters

  /** `TextChar`: a character and its bitmap, row 0 at the bottom. */
  datatype TextChar = TextChar(value: char, bitmap: seq<seq<bool>>)

  /** `TextChar::new`: the glyph bitmap of the character; one without a
      glyph is an error. */
  function NewChar(c: char): (r: Result<TextChar>)
    ensures r.Success? <==> '0' <= c <= '3'
    ensures r.Success? ==> r.value.value == c && r.value.bitmap == GetBitmap(c).value
    ensures r.Failure? ==> r == Failure("Bitmap not defined for character: '" + [c] + "'")
  {
    match GetBitmap(c)
    case Failure(e) => Failure(e)
    case Success(b) => Success(TextChar(c, b))
  }

  /** The length of the longest row, 0 for no rows. */
  function MaxLen(rows: seq<seq<bool>>): (r: nat)
    ensures forall k :: 0 <= k < |rows| ==> |rows[k]| <= r
    ensures |rows| > 0 ==> exists k :: 0 <= k < |rows| && |rows[k]| == r
    ensures |rows| == 0 ==> r == 0
  {
    if |rows| == 0 then 0
    else
      var init := rows[..|rows| - 1];
      var m := MaxLen(init);
      assert forall k :: 0 <= k < |init| ==> init[k] == rows[k];
      var last := |rows[|rows| - 1]|;
      if last >= m then last else m
  }

  /** `TextChar::width`: the longest row. */
  function Width(c: TextChar): (r: nat)
    ensures forall k :: 0 <= k < |c.bitmap| ==> |c.bitmap[k]| <= r
    ensures |c.bitmap| > 0 ==> exists k :: 0 <= k < |c.bitmap| && |c.bitmap[k]| == r
  {
    MaxLen(c.bitmap)
  }

  function Height(c: TextChar): nat {
    |c.bitmap|
  }

  /** Every row is as long as the longest. */
  predicate Rectangular(bm: seq<seq<bool>>) {
    forall k :: 0 <= k < |bm| ==> |bm[k]| == MaxLen(bm)
  }

  /** The digit glyphs are 5 cells wide and 11 high, every row full length. */
  lemma GlyphChar(c: char)
    requires '0' <= c <= '3'
    ensures var t := NewChar(c).value;
            Width(t) == CHAR_WIDTH && Height(t) == 11 && Rectangular(t.bitmap)
  {
    GlyphShape(c);
  }

  /** The pixel of cell `(i, j)` (row `i`, column `j`) of a glyph drawn with
      its lower-left corner at `ll`: `ll` as `i32`, moved by `(j, i)`, back
      to `u32`. */
  function CellPoint(ll: Point<int>, i: int, j: int): Point<int> {
    ToU32(IAdd(ToI32(ll), Point(j, i)))
  }

  /** The pixels of the first `w` cells of row `i`, left to right. */
  function RowPoints(row: seq<bool>, i: int, ll: Point<int>, w: nat): seq<Point<int>>
    requires w <= |row|
  {
    if w == 0 then []
    else RowPoints(row, i, ll, w - 1) + (if row[w - 1] then [CellPoint(ll, i, w - 1)] else [])
  }

  /** The pixels of the first `h` rows, bottom to top. */
  function GridPoints(bm: seq<seq<bool>>, ll: Point<int>, w: nat, h: nat): seq<Point<int>>
    requires h <= |bm| && forall k :: 0 <= k < h ==> w <= |bm[k]|
  {
    if h == 0 then []
    else GridPoints(bm, ll, w, h - 1) + RowPoints(bm[h - 1], h - 1, ll, w)
  }

  /** `TextChar::get_mask`: one mask in the given colour, a pixel for each
      set cell, visited row by row; a row shorter than the widest one is an
      out-of-bounds index. */
  function CharMask(c: TextChar, ll: Point<int>, color: Rgb): (r: Result<Mask>)
    ensures r.Success? <==> Rectangular(c.bitmap)
    ensures r.Success? ==> r.value.color == color
  {
    var bm := c.bitmap;
    if Rectangular(bm) then Success(Mask(GridPoints(bm, ll, Width(c), |bm|), color))
    else Failure("index out of bounds")
  }

  lemma {:induction false} RowPointsMembers(row: seq<bool>, i: int, ll: Point<int>, w: nat, p: Point<int>)
    requires w <= |row|
    ensures p in RowPoints(row, i, ll, w) <==> exists j :: 0 <= j < w && row[j] && p == CellPoint(ll, i, j)
  {
    if w > 0 {
      RowPointsMembers(row, i, ll, w - 1, p);
    }
  }

  lemma {:induction false} GridPointsMembers(bm: seq<seq<bool>>, ll: Point<int>, w: nat, h: nat, p: Point<int>)
    requires h <= |bm| && forall k :: 0 <= k < h ==> w <= |bm[k]|
    ensures p in GridPoints(bm, ll, w, h) <==>
            exists i, j :: 0 <= i < h && 0 <= j < w && bm[i][j] && p == CellPoint(ll, i, j)
  {
    if h > 0 {
      var top := h - 1;
      var g := GridPoints(bm, ll, w, top);
      var r := RowPoints(bm[top], top, ll, w);
      assert GridPoints(bm, ll, w, h) == g + r;
      GridPointsMembers(bm, ll, w, top, p);
      RowPointsMembers(bm[top], top, ll, w, p);
      if p in r {
        var j :| 0 <= j < w && bm[top][j] && p == CellPoint(ll, top, j);
        assert bm[top][j] && p == CellPoint(ll, top, j);
      }
      forall i, j | 0 <= i < h && 0 <= j < w && bm[i][j] && p == CellPoint(ll, i, j)
        ensures p in g + r
      {
        if i == top {
          assert bm[top][j] && p == CellPoint(ll, top, j);
        } else {
          assert 0 <= i < top && bm[i][j];
        }
      }
    }
  }

  /** A glyph's mask paints a pixel exactly when some set cell lands on it. */
  lemma CharMaskCells(c: TextChar, ll: Point<int>, color: Rgb, p: Point<int>)
    requires Rectangular(c.bitmap)
    ensures var bm := c.bitmap;
            p in CharMask(c, ll, color).value.points <==>
            exists i, j :: 0 <= i < |bm| && 0 <= j < Width(c) && bm[i][j] && p == CellPoint(ll, i, j)
  {
    GridPointsMembers(c.bitmap, ll, Width(c), |c.bitmap|, p);
  }

  /** No pixel repeats in the sequence. */
  predicate Distinct(s: seq<Point<int>>) {
    forall a, b :: 0 <= a < b < |s| ==> s[a] != s[b]
  }

  lemma ConcatDistinct(s: seq<Point<int>>, t: seq<Point<int>>)
    requires Distinct(s) && Distinct(t)
    requires forall p :: p in s ==> p !in t
    ensures Distinct(s + t)
  {
    forall a, b | 0 <= a < b < |s + t| ensures (s + t)[a] != (s + t)[b] {
      if b < |s| {
        assert (s + t)[a] == s[a] && (s + t)[b] == s[b];
      } else if a < |s| {
        assert (s + t)[a] == s[a] && (s + t)[b] == t[b - |s|];
        assert t[b - |s|] in t;
      } else {
        assert (s + t)[a] == t[a - |s|] && (s + t)[b] == t[b - |s|];
      }
    }
  }

  /** Where neither conversion saturates, cell `(i, j)` is `ll + (j, i)`. */
  predicate NoClip(ll: Point<int>, w: nat, h: nat) {
    0 <= ll.x && 0 <= ll.y && ll.x + w <= I32_MAX && ll.y + h <= I32_MAX
  }

  lemma CellExact(ll: Point<int>, i: int, j: int, w: nat, h: nat)
    requires NoClip(ll, w, h) && 0 <= i < h && 0 <= j < w
    ensures CellPoint(ll, i, j) == Point(ll.x + j, ll.y + i)
  {
  }

  lemma {:induction false} RowPointsDistinct(row: seq<bool>, i: int, ll: Point<int>, w: nat, bw: nat, h: nat)
    requires w <= |row| && w <= bw && NoClip(ll, bw, h) && 0 <= i < h
    ensures Distinct(RowPoints(row, i, ll, w))
    ensures forall p :: p in RowPoints(row, i, ll, w) ==> p.y == ll.y + i && ll.x <= p.x < ll.x + w
  {
    if w > 0 {
      RowPointsDistinct(row, i, ll, w - 1, bw, h);
      CellExact(ll, i, w - 1, bw, h);
      var s := RowPoints(row, i, ll, w - 1);
      var t := if row[w - 1] then [CellPoint(ll, i, w - 1)] else [];
      ConcatDistinct(s, t);
    }
  }

  lemma {:induction false} GridPointsDistinct(bm: seq<seq<bool>>, ll: Point<int>, w: nat, h: nat)
    requires h <= |bm| && forall k :: 0 <= k < h ==> w <= |bm[k]|
    requires NoClip(ll, w, h)
    ensures Distinct(GridPoints(bm, ll, w, h))
    ensures forall p :: p in GridPoints(bm, ll, w, h) ==> ll.y <= p.y < ll.y + h
  {
    if h > 0 {
      assert NoClip(ll, w, h - 1);
      GridPointsDistinct(bm, ll, w, h - 1);
      RowPointsDistinct(bm[h - 1], h - 1, ll, w, w, h);
      ConcatDistinct(GridPoints(bm, ll, w, h - 1), RowPoints(bm[h - 1], h - 1, ll, w));
    }
  }

  /** Away from the saturation limits each set cell gets its own pixel, so
      the mask holds exactly one pixel per set cell. */
  lemma CharMaskDistinct(c: TextChar, ll: Point<int>, color: Rgb)
    requires Rectangular(c.bitmap) && NoClip(ll, Width(c), Height(c))
    ensures Distinct(CharMask(c, ll, color).value.points)
  {
    GridPointsDistinct(c.bitmap, ll, Width(c), |c.bitmap|);
  }

  // ---------------------------------------------------------------------
  // Text

  /** `Text`; `width` and `height` are computed by `Text::new`. */
  datatype Text = Text(style: TextStyle, chars: seq<TextChar>, width: nat, height: nat)

  /** The characters of a string, stopping at the first one without a
      glyph. */
  function NewChars(s: string): (r: Result<seq<TextChar>>)
    ensures r.Success? <==> forall k :: 0 <= k < |s| ==> '0' <= s[k] <= '3'
    ensures r.Success? ==> |r.value| == |s|
    ensures r.Success? ==> forall k :: 0 <= k < |s| ==> r.value[k] == NewChar(s[k]).value
  {
    if |s| == 0 then Success([])
    else
      assert forall k :: 1 <= k < |s| ==> s[k] == s[1..][k - 1];
      match NewChar(s[0])
      case Failure(e) => Failure(e)
      case Success(c) =>
        match NewChars(s[1..])
        case Failure(e) => Failure(e)
        case Success(cs) => Success([c] + cs)
  }

  /** The error is the one of the first character without a glyph. */
  lemma {:induction false} NewCharsFirstBad(s: string)
    requires NewChars(s).Failure?
    ensures exists k :: 0 <= k < |s| && !('0' <= s[k] <= '3') && (forall j :: 0 <= j < k ==> '0' <= s[j] <= '3')
                        && NewChars(s) == Failure("Bitmap not defined for character: '" + [s[k]] + "'")
  {
    var k := FirstBadChar(s);
  }

  /** The index of the first character without a glyph, found by walking
      the string as `NewChars` does. */
  lemma {:induction false} FirstBadChar(s: string) returns (k: nat)
    requires NewChars(s).Failure?
    ensures k < |s| && !('0' <= s[k] <= '3') && (forall j :: 0 <= j < k ==> '0' <= s[j] <= '3')
    ensures NewChars(s) == Failure("Bitmap not defined for character: '" + [s[k]] + "'")
  {
    if '0' <= s[0] <= '3' {
      var k1 := FirstBadChar(s[1..]);
      k := k1 + 1;
      assert s[k] == s[1..][k1];
      assert forall j :: 1 <= j < k ==> s[j] == s[1..][j - 1];
      NewCharsSkip(s);
    } else {
      k := 0;
      NewCharsStop(s);
    }
  }

  /** A drawable first character passes a later failure through. */
  lemma NewCharsSkip(s: string)
    requires |s| > 0 && '0' <= s[0] <= '3' && NewChars(s[1..]).Failure?
    ensures NewChars(s) == NewChars(s[1..])
  {
  }

  /** An undrawable first character is the failure. */
  lemma NewCharsStop(s: string)
    requires |s| > 0 && !('0' <= s[0] <= '3')
    ensures NewChars(s) == Failure("Bitmap not defined for character: '" + [s[0]] + "'")
  {
  }

  /** The sum of the characters' widths. */
  function SumWidths(cs: seq<TextChar>): nat {
    if |cs| == 0 then 0 else Width(cs[0]) + SumWidths(cs[1..])
  }

  /** The tallest character's height, 0 for none. */
  function MaxHeight(cs: seq<TextChar>): (r: nat)
    ensures forall k :: 0 <= k < |cs| ==> Height(cs[k]) <= r
    ensures |cs| > 0 ==> exists k :: 0 <= k < |cs| && Height(cs[k]) == r
  {
    if |cs| == 0 then 0
    else
      var m := MaxHeight(cs[1..]);
      assert forall k :: 1 <= k < |cs| ==> cs[k] == cs[1..][k - 1];
      if Height(cs[0]) >= m then Height(cs[0]) else m
  }

  /** `Text::new`: the characters of the string; the width is the sum of
      their widths and the height the largest height. A character without
      a glyph fails first; the empty string then fails on the `max` of no
      heights. */
  function TextNew(s: string, style: TextStyle): (r: Result<Text>)
    ensures r.Success? <==> |s| > 0 && forall k :: 0 <= k < |s| ==> '0' <= s[k] <= '3'
    ensures r.Success? ==> r.value.style == style && |r.value.chars| == |s|
    ensures r.Success? ==> forall k :: 0 <= k < |s| ==> r.value.chars[k] == NewChar(s[k]).value
    ensures r.Success? ==> r.value.width == SumWidths(r.value.chars)
    ensures r.Success? ==> (forall k :: 0 <= k < |s| ==> Height(r.value.chars[k]) <= r.value.height)
                           && exists k :: 0 <= k < |s| && Height(r.value.chars[k]) == r.value.height
  {
    match NewChars(s)
    case Failure(e) => Failure(e)
    case Success(cs) =>
      if |cs| == 0 then Failure("called `Option::unwrap()` on a `None` value")
      else Success(Text(style, cs, SumWidths(cs), MaxHeight(cs)))
  }

  /** Text made of the digit glyphs is 5 pixels wide per character and 11
      high. */
  lemma {:induction false} DigitWidths(cs: seq<TextChar>)
    requires forall k :: 0 <= k < |cs| ==> Width(cs[k]) == CHAR_WIDTH
    ensures SumWidths(cs) == CHAR_WIDTH * |cs|
  {
    if |cs| > 0 {
      assert forall k :: 1 <= k < |cs| ==> cs[k] == cs[1..][k - 1];
      DigitWidths(cs[1..]);
    }
  }

  lemma DigitTextSize(s: string, style: TextStyle)
    requires TextNew(s, style).Success?
    ensures TextNew(s, style).value.width == 5 * |s|
    ensures TextNew(s, style).value.height == 11
  {
    var t := TextNew(s, style).value;
    forall k | 0 <= k < |s| ensures Width(t.chars[k]) == CHAR_WIDTH && Height(t.chars[k]) == 11 {
      GlyphChar(s[k]);
    }
    DigitWidths(t.chars);
  }

  // ---------------------------------------------------------------------
  // Numbers to a number of significant figures

  function DigitCount(s: string): nat {
    if |s| == 0 then 0 else DigitCount(s[..|s| - 1]) + (if IsDigit(s[|s| - 1]) then 1 else 0)
  }

  /** The leading part of `s` kept by the first loop of `from_number`:
      characters up to the `n`-th digit, stopping early at an `e`. */
  function Mantissa(s: string, n: nat): (r: string)
    ensures |r| <= |s| && r == s[..|r|]
  {
    if |s| == 0 || n == 0 || s[0] == 'e' then ""
    else [s[0]] + Mantissa(s[1..], if IsDigit(s[0]) then n - 1 else n)
  }

  lemma DigitCountCons(c: char, s: string)
    ensures DigitCount([c] + s) == (if IsDigit(c) then 1 else 0) + DigitCount(s)
    decreases |s|
  {
    if |s| > 0 {
      assert ([c] + s)[..|[c] + s| - 1] == [c] + s[..|s| - 1];
      DigitCountCons(c, s[..|s| - 1]);
    }
  }

  /** The kept part has no `e`, at most `n` digits, ends on its `n`-th digit
      when it has `n`, and stops short of the end of `s` only at an `e` or
      after the `n`-th digit. */
  lemma {:induction false} MantissaShape(s: string, n: nat)
    ensures var r := Mantissa(s, n);
            'e' !in r && DigitCount(r) <= n
            && (DigitCount(r) == n && n > 0 ==> IsDigit(r[|r| - 1]))
            && (|r| < |s| ==> s[|r|] == 'e' || DigitCount(r) == n)
  {
    if |s| > 0 && n > 0 && s[0] != 'e' {
      var n' := if IsDigit(s[0]) then n - 1 else n;
      MantissaShape(s[1..], n');
      var t := Mantissa(s[1..], n');
      DigitCountCons(s[0], t);
      assert Mantissa(s, n) == [s[0]] + t;
      if |t| > 0 {
        assert ([s[0]] + t)[|t|] == t[|t| - 1];
      }
    }
  }

  /** The trailing part of `s` kept by the second loop: the characters from
      the last `e` on, or all of `s` when it has no `e`. */
  function ExponentSuffix(s: string): (r: string)
    ensures |r| <= |s| && r == s[|s| - |r|..]
    ensures 'e' in s ==> |r| > 0 && r[0] == 'e' && 'e' !in r[1..]
    ensures 'e' !in s ==> r == s
  {
    if |s| == 0 then ""
    else if s[|s| - 1] == 'e' then "e"
    else
      var init := s[..|s| - 1];
      var r := ExponentSuffix(init) + [s[|s| - 1]];
      assert s == init + [s[|s| - 1]];
      assert 'e' in s ==> 'e' in init;
      r
  }

  /** The string `from_number` hands to `Text::new`: the plain rendering
      when, without a leading minus, it has at most `n` characters;
      otherwise the scientific rendering shortened to `n` significant
      digits, keeping its exponent unless that is `e0`. */
  function SigFigString(plain: string, sci: string, n: nat): string {
    if |TrimStartMatches(plain, '-')| <= n then plain
    else Mantissa(sci, n) + (if EndsWith(sci, "e0") then "" else ExponentSuffix(sci))
  }

  /** `Text::from_number`, given Rust's `to_string()` and `{:e}` renderings
      of the number; the latter always has an exponent. */
  function FromNumber(plain: string, sci: string, sigFigs: nat, style: TextStyle): (r: Result<Text>)
    ensures style.scale < 1 ==> r == Failure("Text scaling cannot be less than 1")
    ensures style.scale >= 1 && sigFigs < 1 ==> r == Failure("Number of significant figures must be nonzero")
    ensures style.scale >= 1 && sigFigs >= 1 && |TrimStartMatches(plain, '-')| <= sigFigs ==>
            r == TextNew(plain, style)
    ensures style.scale >= 1 && sigFigs >= 1 && |TrimStartMatches(plain, '-')| > sigFigs && 'e' in sci ==>
            exists m, e :: r == TextNew(m + e, style) && |m| <= |sci| && m == sci[..|m|] && 'e' !in m
                           && DigitCount(m) <= sigFigs && (e == "" || (EndsWith(sci, e) && e[0] == 'e'))
  {
    if style.scale < 1 then Failure("Text scaling cannot be less than 1")
    else if sigFigs < 1 then Failure("Number of significant figures must be nonzero")
    else if |TrimStartMatches(plain, '-')| > sigFigs && 'e' in sci then
      SigFigShape(plain, sci, sigFigs);
      TextNew(SigFigString(plain, sci, sigFigs), style)
    else TextNew(SigFigString(plain, sci, sigFigs), style)
  }

  /** A shortened rendering is a leading part of the scientific rendering
      without `e` and with at most `n` digits, followed by nothing or by a
      trailing part of it that starts with `e`. */
  lemma SigFigShape(plain: string, sci: string, n: nat)
    requires |TrimStartMatches(plain, '-')| > n && 'e' in sci
    ensures exists m, e :: SigFigString(plain, sci, n) == m + e && |m| <= |sci| && m == sci[..|m|] && 'e' !in m
                           && DigitCount(m) <= n && (e == "" || (EndsWith(sci, e) && e[0] == 'e'))
  {
    var m := Mantissa(sci, n);
    var e := if EndsWith(sci, "e0") then "" else ExponentSuffix(sci);
    MantissaShape(sci, n);
    assert e == "" || (EndsWith(sci, e) && e[0] == 'e');
    assert SigFigString(plain, sci, n) == m + e;
    assert |m| <= |sci| && m == sci[..|m|] && 'e' !in m && DigitCount(m) <= n;
  }

  /** 1234.5 to three figures keeps the exponent 3. */
  lemma SigFigsWithExponent()
    ensures SigFigString("1234.5", "1.2345e3", 3) == "1.23e3"
  {
    PlainLength();
    MantissaThreeFigures();
    ExponentThree();
  }

  lemma PlainLength()
    ensures |TrimStartMatches("1234.5", '-')| == 6
  {
    assert TrimStartMatches("1234.5", '-') == "1234.5";
  }

  lemma MantissaThreeFigures()
    ensures Mantissa("1.2345e3", 3) == "1.23"
  {
    assert Mantissa("45e3", 0) == "";
    assert Mantissa("345e3", 1) == "3";
    assert Mantissa("2345e3", 2) == "23";
    assert Mantissa(".2345e3", 2) == ".23";
  }

  lemma ExponentThree()
    ensures ExponentSuffix("1.2345e3") == "e3" && !EndsWith("1.2345e3", "e0")
  {
    assert ExponentSuffix("1.2345e") == "e";
  }


  lemma MantissaExample()
    ensures Mantissa("2.001e-1", 2) == "2.0"
  {
    assert Mantissa("01e-1", 0) == "";
    assert Mantissa("001e-1", 1) == "0";
    assert Mantissa(".001e-1", 1) == ".0";
  }

  lemma SuffixExample()
    ensures ExponentSuffix("2.001e-1") == "e-1"
  {
    assert ExponentSuffix("2.001e") == "e";
    assert ExponentSuffix("2.001e-") == "e-";
  }

  /** 0.2001 to two figures is written with its negative exponent. */
  lemma SigFigsNegativeExponent()
    ensures SigFigString("0.2001", "2.001e-1", 2) == "2.0e-1"
  {
    var sci := "2.001e-1";
    assert |TrimStartMatches("0.2001", '-')| == 6;
    assert sci[|sci| - 2..] == "-1";
    MantissaExample();
    SuffixExample();
  }

  /** A zero exponent is dropped. */
  lemma SigFigsZeroExponent()
    ensures SigFigString("1.2345", "1.2345e0", 3) == "1.23"
  {
    assert TrimStartMatches("1.2345", '-') == "1.2345";
    assert Mantissa("45e0", 0) == "";
    assert Mantissa("345e0", 1) == "3";
    assert Mantissa("2345e0", 2) == "23";
    assert Mantissa(".2345e0", 2) == ".23";
    assert Mantissa("1.2345e0", 3) == "1.23";
    assert EndsWith("1.2345e0", "e0");
  }

  /** Short renderings are kept as they are, a leading minus not counted. */
  lemma SigFigsPlain()
    ensures SigFigString("-12", "-1.2e1", 2) == "-12"
    ensures SigFigString("3", "3e0", 1) == "3"
  {
    assert TrimStartMatches("-12", '-') == "12";
    assert TrimStartMatches("3", '-') == "3";
  }

  /** Only digits 0 to 3 have glyphs, so a shortened rendering that keeps a
      decimal point cannot be drawn. */
  lemma FromNumberUndrawable()
    ensures FromNumber("1234.5", "1.2345e3", 3, DefaultStyle()).Failure?
  {
    SigFigsWithExponent();
    var s := "1.23e3";
    assert FromNumber("1234.5", "1.2345e3", 3, DefaultStyle()) == TextNew(s, DefaultStyle());
    TextNewRejects(s, DefaultStyle(), 1);
  }

  /** One character without a glyph is enough to refuse the text. */
  lemma TextNewRejects(s: string, style: TextStyle, k: nat)
    requires k < |s| && !('0' <= s[k] <= '3')
    ensures TextNew(s, style).Failure?
  {
  }

  /** A one-digit number with a glyph is drawn as is; zero significant
      figures are refused. */
  lemma FromNumberDigit(d: char, sci: string, style: TextStyle, n: nat)
    requires '0' <= d <= '3' && style.scale >= 1
    ensures n >= 1 ==> FromNumber([d], sci, n, style) == TextNew([d], style) && TextNew([d], style).Success?
    ensures n == 0 ==> FromNumber([d], sci, n, style) == Failure("Number of significant figures must be nonzero")
  {
    assert TrimStartMatches([d], '-') == [d];
  }

  // ---------------------------------------------------------------------
  // Labels

  /** `TextPositioning`: the anchor point, a `u32` point. */
  datatype TextPositioning = Centered(at: Point<int>) | LeftAligned(at: Point<int>)

  /** `TextPositioning::clone_with`: the same kind of anchoring at another
      point. */
  function CloneWith(pos: TextPositioning, p: Point<int>): (r: TextPositioning)
    ensures r.Centered? <==> pos.Centered?
    ensures r.at == p
  {
    match pos
    case Centered(_) => Centered(p)
    case LeftAligned(_) => LeftAligned(p)
  }

  /** `Label`. */
  datatype Label = Label(txt: Text, pos: TextPositioning)

  /** Half of a whole number, rounded down and up, as `f64` division
      followed by `floor` and `ceil`. */
  lemma HalfRounding(n: nat)
    ensures Floor(n as real / 2.0) == n / 2
    ensures Ceil(n as real / 2.0) == (n + 1) / 2
  {
    var q := n / 2;
    if n % 2 == 0 {
      assert n as real / 2.0 == q as real;
    } else {
      assert n as real / 2.0 == q as real + 0.5;
    }
  }

  /** `Label::limits` for centred text: the box reaching half the width and
      height from the centre, rounded down toward the lower-left and up
      toward the upper-right; the lower corner is a `u32` subtraction that
      fails below 0. Left-aligned text is not implemented. */
  function LabelLimits(l: Label): (r: Result<Limits<int>>)
    ensures l.pos.LeftAligned? ==> r == Failure("Not implemented")
    ensures l.pos.Centered? ==>
            (r.Success? <==> l.txt.width / 2 <= l.pos.at.x && l.txt.height / 2 <= l.pos.at.y)
    ensures r.Success? ==> ISpan(r.value) == (l.txt.width, l.txt.height)
    ensures r.Success? ==> IContains(r.value, l.pos.at)
    ensures r.Success? ==> l.pos.at.x - r.value.min.x == l.txt.width / 2
                           && l.pos.at.y - r.value.min.y == l.txt.height / 2
  {
    match l.pos
    case LeftAligned(_) => Failure("Not implemented")
    case Centered(c) =>
      var half := Point(l.txt.width as real / 2.0, l.txt.height as real / 2.0);
      var lo := FloorPoint(half);
      var hi := CeilPoint(half);
      HalfRounding(l.txt.width);
      HalfRounding(l.txt.height);
      if lo.x <= c.x && lo.y <= c.y then Success(Limits(ISub(c, lo), IAdd(c, hi)))
      else Failure("attempt to subtract with overflow")
  }

  /** The lower-left corner of a character drawn `dx` pixels right and `dy`
      pixels up from `c`. */
  function LowerLeft(c: Point<int>, dx: int, dy: int): Point<int> {
    ToU32(IAdd(ToI32(c), Point(dx, dy)))
  }

  /** The width of the first `k` characters. */
  function PrefixWidth(cs: seq<TextChar>, k: nat): nat
    requires k <= |cs|
  {
    SumWidths(cs[..k])
  }

  lemma PrefixWidthStep(cs: seq<TextChar>, k: nat)
    requires 0 < |cs| && k < |cs|
    ensures PrefixWidth(cs, k + 1) == Width(cs[0]) + PrefixWidth(cs[1..], k)
  {
    assert cs[..k + 1][1..] == cs[1..][..k];
  }

  /** The masks of the characters from `acc` pixels right of the centre
      onward, each character starting where the previous one ended. */
  function CharMasks(cs: seq<TextChar>, acc: int, c: Point<int>, hs: int, color: Rgb): (r: Result<seq<Mask>>)
    ensures r.Success? <==> forall k :: 0 <= k < |cs| ==> Rectangular(cs[k].bitmap)
    ensures r.Success? ==> |r.value| == |cs|
  {
    if |cs| == 0 then Success([])
    else
      assert forall k :: 1 <= k < |cs| ==> cs[k] == cs[1..][k - 1];
      match CharMask(cs[0], LowerLeft(c, acc, -hs), color)
      case Failure(e) => Failure(e)
      case Success(m) =>
        match CharMasks(cs[1..], acc + Width(cs[0]), c, hs, color)
        case Failure(e) => Failure(e)
        case Success(ms) => Success([m] + ms)
  }

  lemma CharMasksCons(cs: seq<TextChar>, acc: int, c: Point<int>, hs: int, color: Rgb)
    requires CharMasks(cs, acc, c, hs, color).Success? && |cs| > 0
    ensures CharMask(cs[0], LowerLeft(c, acc, -hs), color).Success?
    ensures CharMasks(cs[1..], acc + Width(cs[0]), c, hs, color).Success?
    ensures CharMasks(cs, acc, c, hs, color).value
            == [CharMask(cs[0], LowerLeft(c, acc, -hs), color).value]
               + CharMasks(cs[1..], acc + Width(cs[0]), c, hs, color).value
  {
    assert forall i :: 1 <= i < |cs| ==> cs[i] == cs[1..][i - 1];
  }

  /** Character `k` starts the widths of the characters before it to the
      right of `acc`. */
  lemma CharMasksAt(cs: seq<TextChar>, acc: int, c: Point<int>, hs: int, color: Rgb, k: nat)
    requires CharMasks(cs, acc, c, hs, color).Success? && k < |cs|
    ensures CharMasks(cs, acc, c, hs, color).value[k]
            == CharMask(cs[k], LowerLeft(c, acc + PrefixWidth(cs, k), -hs), color).value
  {
    CharMasksPlaced(cs, acc, c, hs, color, CharMasks(cs, acc, c, hs, color).value, k);
  }

  lemma {:induction false} CharMasksPlaced(cs: seq<TextChar>, acc: int, c: Point<int>, hs: int, color: Rgb, ms: seq<Mask>, k: nat)
    requires CharMasks(cs, acc, c, hs, color) == Success(ms) && k < |cs|
    ensures CharMask(cs[k], LowerLeft(c, acc + PrefixWidth(cs, k), -hs), color) == Success(ms[k])
  {
    CharMasksCons(cs, acc, c, hs, color);
    if k == 0 {
      assert PrefixWidth(cs, 0) == 0;
      assert LowerLeft(c, acc + PrefixWidth(cs, 0), -hs) == LowerLeft(c, acc, -hs);
    } else {
      var acc' := acc + Width(cs[0]);
      assert CharMasks(cs[1..], acc', c, hs, color) == Success(ms[1..]);
      CharMasksPlaced(cs[1..], acc', c, hs, color, ms[1..], k - 1);
      PrefixWidthStep(cs, k - 1);
      assert cs[1..][k - 1] == cs[k] && ms[1..][k - 1] == ms[k];
      assert acc' + PrefixWidth(cs[1..], k - 1) == acc + PrefixWidth(cs, k);
    }
  }

  /** `Label::get_mask` for centred text: the characters' masks in order.
      Left-aligned text is not implemented. */
  function LabelMask(l: Label): (r: Result<seq<Mask>>)
    ensures l.pos.LeftAligned? ==> r == Failure("Not implemented")
    ensures l.pos.Centered? ==>
            (r.Success? <==> forall k :: 0 <= k < |l.txt.chars| ==> Rectangular(l.txt.chars[k].bitmap))
    ensures r.Success? ==> |r.value| == |l.txt.chars|
  {
    match l.pos
    case LeftAligned(_) => Failure("Not implemented")
    case Centered(c) =>
      CharMasks(l.txt.chars, -(l.txt.width / 2), c, l.txt.height / 2, l.txt.style.color)
  }

  /** In a label's mask, character `k` has its lower-left corner at the
      centre moved left by half the text width (rounded down), right by the
      widths of the characters before it, and down by half the height
      (rounded down), and is drawn in the text's colour. */
  lemma LabelMaskAt(l: Label, k: nat)
    requires LabelMask(l).Success? && k < |l.txt.chars|
    ensures var ll := LowerLeft(l.pos.at, -(l.txt.width / 2) + PrefixWidth(l.txt.chars, k), -(l.txt.height / 2));
            LabelMask(l).value[k] == CharMask(l.txt.chars[k], ll, l.txt.style.color).value
  {
    CharMasksAt(l.txt.chars, -(l.txt.width / 2), l.pos.at, l.txt.height / 2, l.txt.style.color, k);
  }

  lemma {:induction false} DigitPrefix(cs: seq<TextChar>, k: nat)
    requires k <= |cs|
    requires forall i :: 0 <= i < |cs| ==> Width(cs[i]) == CHAR_WIDTH
    ensures PrefixWidth(cs, k) == CHAR_WIDTH * k
  {
    DigitWidths(cs[..k]);
  }

  /** A centred label of digit glyphs draws every character, the `k`-th
      with its lower-left corner `5 k - 5 n / 2` pixels right of the centre
      and 5 pixels below it, for `n` characters; `DigitTextSize` and
      `DigitChars` give these premises for any text `TextNew` accepts. */
  lemma DigitTextLabel(t: Text, c: Point<int>)
    requires t.width == 5 * |t.chars| && t.height == 11
    requires forall i :: 0 <= i < |t.chars| ==> Width(t.chars[i]) == CHAR_WIDTH && Rectangular(t.chars[i].bitmap)
    ensures var l := Label(t, Centered(c));
            LabelMask(l).Success? && |LabelMask(l).value| == |t.chars|
            && forall k :: 0 <= k < |t.chars| ==>
                 LabelMask(l).value[k] == CharMask(t.chars[k], LowerLeft(c, 5 * k - (5 * |t.chars|) / 2, -5), t.style.color).value
  {
    var l := Label(t, Centered(c));
    assert LabelMask(l).Success?;
    forall k | 0 <= k < |t.chars|
      ensures LabelMask(l).value[k] == CharMask(t.chars[k], LowerLeft(c, 5 * k - (5 * |t.chars|) / 2, -5), t.style.color).value
    {
      DigitLabelAt(t, c, k);
    }
  }

  lemma DigitChars(s: string, style: TextStyle)
    requires TextNew(s, style).Success?
    ensures var t := TextNew(s, style).value;
            forall k :: 0 <= k < |s| ==> Width(t.chars[k]) == CHAR_WIDTH && Rectangular(t.chars[k].bitmap)
  {
    var t := TextNew(s, style).value;
    forall k | 0 <= k < |s| ensures Width(t.chars[k]) == CHAR_WIDTH && Rectangular(t.chars[k].bitmap) {
      GlyphChar(s[k]);
    }
  }

  lemma DigitLabelAt(t: Text, c: Point<int>, k: nat)
    requires t.width == 5 * |t.chars| && t.height == 11 && k < |t.chars|
    requires forall i :: 0 <= i < |t.chars| ==> Width(t.chars[i]) == CHAR_WIDTH && Rectangular(t.chars[i].bitmap)
    ensures var l := Label(t, Centered(c));
            LabelMask(l).Success? &&
            LabelMask(l).value[k] == CharMask(t.chars[k], LowerLeft(c, 5 * k - (5 * |t.chars|) / 2, -5), t.style.color).value
  {
    var l := Label(t, Centered(c));
    assert LabelMask(l).Success?;
    DigitPrefix(t.chars, k);
    LabelMaskAt(l, k);
    DigitOffset(t.width, |t.chars|, k);
  }

  lemma DigitOffset(w: nat, n: nat, k: nat)
    requires w == 5 * n
    ensures -(w / 2) + 5 * k == 5 * k - (5 * n) / 2
  {
  }
}
