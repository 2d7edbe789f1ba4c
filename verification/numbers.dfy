/** Glyph bitmaps for digits, built from human-readable ASCII art: every
    second column is kept (to correct the 1:2 aspect ratio), rows are padded
    to a minimum width and height, and the rows are reversed so that row 0
    is the bottom of the glyph. */
module Glyphs {
  import opened Wrappers
  import opened Strings

  const CHAR_WIDTH: nat := 5
  const CHAR_HEIGHT: nat := 10

  /** `str::lines` for text without carriage returns: the pieces between
      line feeds, where a final line feed does not start a new line. */
  function Lines(s: string): seq<string> {
    if s == "" then []
    else
      var parts := Split(s, "\n");
      if parts[|parts| - 1] == "" then parts[..|parts| - 1] else parts
  }

  /** The lines `ls`, each followed by a line feed. */
  function Terminated(ls: seq<string>): string {
    Join(ls + [""], "\n")
  }

  /** `lines` recovers the lines of a line-feed-terminated text. */
  lemma LinesOfTerminated(ls: seq<string>)
    requires forall i :: 0 <= i < |ls| ==> '\n' !in ls[i]
    ensures Lines(Terminated(ls)) == ls
  {
    var parts := ls + [""];
    assert forall i :: 0 <= i < |parts| ==> '\n' !in parts[i];
    SplitJoinChar(parts, '\n');
    if |ls| > 0 {
      assert Terminated(ls) != "";
      assert Split(Terminated(ls), "\n")[..|ls|] == ls;
    }
  }

  // The glyph literals, line by line; each literal starts with an empty
  // line and ends with a line feed.
  const ZERO_LINES: seq<string> := ["", "  000000", "0000  0000", "00      00", "00      00",
    "00  00  00", "00  00  00", "00      00", "00      00", "0000  0000", "  000000"]
  const ONE_LINES: seq<string> := ["", "    11", "  1111", "11  11", "    11", "    11",
    "    11", "    11", "    11", "    11", "1111111111"]
  const TWO_LINES: seq<string> := ["", "  222222", "2222  2222", "22    2222", "    2222",
    "    2222", "  2222", "  2222", "2222", "2222", "2222222222"]
  const THREE_LINES: seq<string> := ["", "3333333333", "      3333", "    3333", "  3333",
    " 33333", "    3333", "      3333", "33      33", "3333  3333", "  333333"]

  /** The ASCII art of a digit; only 0 to 3 are defined. */
  function GlyphSource(c: char): (r: Option<seq<string>>)
    ensures r.Some? <==> '0' <= c <= '3'
  {
    match c
    case '0' => Some(ZERO_LINES)
    case '1' => Some(ONE_LINES)
    case '2' => Some(TWO_LINES)
    case '3' => Some(THREE_LINES)
    case _ => None
  }

  function MaxNat(a: nat, b: nat): nat { if a >= b then a else b }

  /** One bitmap row from one line of art: columns 0, 2, 4, ... of the
      line, a space being off and anything else on, padded with off cells
      to `CHAR_WIDTH`. */
  function Row(line: string): (r: seq<bool>)
    ensures |r| == MaxNat(CHAR_WIDTH, (|line| + 1) / 2)
    ensures forall k :: 0 <= k < |r| ==> r[k] == (2 * k < |line| && line[2 * k] != ' ')
  {
    var ink := seq(|line|, i requires 0 <= i < |line| => line[i] != ' ');
    var stepped := seq((|ink| + 1) / 2, k requires 0 <= k < (|ink| + 1) / 2 => ink[2 * k]);
    if |stepped| < CHAR_WIDTH then stepped + seq(CHAR_WIDTH - |stepped|, _ => false) else stepped
  }

  function Blank(): seq<bool> { seq(CHAR_WIDTH, _ => false) }

  /** The bitmap of a list of art lines: a row per line, blank rows added
      until there are `CHAR_HEIGHT`, and the whole reversed, so that row `k`
      comes from the `k`-th line counted from the end. */
  function Bitmap(lines: seq<string>): (r: seq<seq<bool>>)
    ensures |r| == MaxNat(CHAR_HEIGHT, |lines|)
    ensures forall k :: 0 <= k < |r| && |r| - 1 - k < |lines| ==> r[k] == Row(lines[|r| - 1 - k])
    ensures forall k :: 0 <= k < |r| && |r| - 1 - k >= |lines| ==> r[k] == Blank()
  {
    var rows := seq(|lines|, i requires 0 <= i < |lines| => Row(lines[i]));
    var padded := if |rows| < CHAR_HEIGHT then rows + seq(CHAR_HEIGHT - |rows|, _ => Blank()) else rows;
    seq(|padded|, k requires 0 <= k < |padded| => padded[|padded| - 1 - k])
  }

  /** `get_bitmap`: the bitmap of a digit's art, read with `lines`; a
      character without art is an error. */
  function GetBitmap(c: char): (r: Result<seq<seq<bool>>>)
    ensures r.Failure? <==> !('0' <= c <= '3')
    ensures r.Success? ==> r.value == Bitmap(Lines(Terminated(GlyphSource(c).value)))
  {
    match GlyphSource(c)
    case None => Failure("Bitmap not defined for character: '" + [c] + "'")
    case Some(art) => Success(Bitmap(Lines(Terminated(art))))
  }

  /** Art whose lines are at most `2 CHAR_WIDTH` wide gives rows of exactly
      `CHAR_WIDTH` cells. */
  lemma NarrowArt(lines: seq<string>)
    requires forall i :: 0 <= i < |lines| ==> |lines[i]| <= 2 * CHAR_WIDTH
    ensures forall k :: 0 <= k < |Bitmap(lines)| ==> |Bitmap(lines)[k]| == CHAR_WIDTH
  {
  }

  lemma ArtShape(art: seq<string>)
    requires |art| == 11 && art[0] == ""
    requires forall i :: 0 <= i < |art| ==> |art[i]| <= 2 * CHAR_WIDTH && '\n' !in art[i]
    ensures var b := Bitmap(Lines(Terminated(art)));
            |b| == 11 && b[10] == Blank()
            && forall k :: 0 <= k < 11 ==> |b[k]| == CHAR_WIDTH
  {
    LinesOfTerminated(art);
    NarrowArt(art);
  }

  /** Every digit glyph is 11 rows of 5 cells, and its top row, which
      comes from the empty first line of the literal, is blank. */
  lemma GlyphShape(c: char)
    requires '0' <= c <= '3'
    ensures var b := GetBitmap(c).value;
            |b| == 11 && b[10] == Blank()
            && forall k :: 0 <= k < 11 ==> |b[k]| == CHAR_WIDTH
  {
    var art := GlyphSource(c).value;
    assert forall i :: 0 <= i < |art| ==> |art[i]| <= 2 * CHAR_WIDTH && '\n' !in art[i];
    ArtShape(art);
  }

  /** The bottom row of the 1 is its full-width foot. */
  lemma OneFoot()
    ensures GetBitmap('1').value[0] == seq(5, _ => true)
  {
    var art := ONE_LINES;
    assert forall i :: 0 <= i < |art| ==> '\n' !in art[i];
    LinesOfTerminated(art);
  }
}
