/** `GridLines`: ten evenly spaced sections across the data area, with a
    line at the upper end of each section, horizontal, vertical or both. */
module GridLineMasks {
  import opened Wrappers
  import opened Ints
  import opened Points
  import opened Spans
  import opened LinePositions
  import opened Colors
  import opened Masks
  import Lines

  const NUM_SECTIONS: nat := 10

  datatype GridLines =
    | XOnly(line: Lines.LineStyle)
    | YOnly(line: Lines.LineStyle)
    | XY(line: Lines.LineStyle)

  /** Where the `i`-th horizontal line crosses the y axis (`row`) and the
      `i`-th vertical line crosses the x axis (`col`). */
  datatype Placement = Placement(row: int -> real, col: int -> real)

  /** The placement the source computes: `i` intervals from 0, not from
      the lower corner of the box. */
  function AsWritten(limits: Limits<real>): Placement {
    Placement(i => Span(limits).1 / NUM_SECTIONS as real * i as real,
              i => Span(limits).0 / NUM_SECTIONS as real * i as real)
  }

  /** The placement the grid evidently intends: `i` intervals from the
      lower corner of the box. */
  function Corrected(limits: Limits<real>): Placement {
    Placement(i => limits.min.y + Span(limits).1 / NUM_SECTIONS as real * i as real,
              i => limits.min.x + Span(limits).0 / NUM_SECTIONS as real * i as real)
  }

  /** A horizontal grid line across the whole width of the box at `row`. */
  function HLine(limits: Limits<real>, s: Lines.LineStyle, row: real): Lines.Line {
    Lines.Line(s, Horizontal(Point(limits.min.x, row), Span(limits).0))
  }

  /** A vertical grid line across the whole height of the box at `col`. */
  function VLine(limits: Limits<real>, s: Lines.LineStyle, col: real): Lines.Line {
    Lines.Line(s, Vertical(Point(col, limits.min.y), Span(limits).1))
  }

  /** The number of lines drawn per section. */
  function PerSection(g: GridLines): nat {
    if g.XY? then 2 else 1
  }

  /** The lines of the grid in the order the source draws them: for each
      section `i` from 1 to `NUM_SECTIONS`, its horizontal line, its
      vertical line, or the horizontal then the vertical one. */
  function GridLinesOf(g: GridLines, limits: Limits<real>, pl: Placement): (r: seq<Lines.Line>)
    ensures |r| == PerSection(g) * NUM_SECTIONS
  {
    match g
    case XOnly(s) => seq(NUM_SECTIONS, k => HLine(limits, s, pl.row(k + 1)))
    case YOnly(s) => seq(NUM_SECTIONS, k => VLine(limits, s, pl.col(k + 1)))
    case XY(s) =>
      seq(2 * NUM_SECTIONS, k => if k % 2 == 0 then HLine(limits, s, pl.row(k / 2 + 1))
                                 else VLine(limits, s, pl.col(k / 2 + 1)))
  }

  /** Every line of the grid is a horizontal or vertical run in the grid's
      style. */
  lemma GridLinesStyle(g: GridLines, limits: Limits<real>, pl: Placement)
    ensures forall k :: 0 <= k < |GridLinesOf(g, limits, pl)| ==>
              GridLinesOf(g, limits, pl)[k].style == g.line
              && !GridLinesOf(g, limits, pl)[k].positioning.BetweenPoints?
  {
    var lines := GridLinesOf(g, limits, pl);
    forall k | 0 <= k < |lines| ensures lines[k].style == g.line && !lines[k].positioning.BetweenPoints? {
      match g
      case XOnly(st) => assert lines[k] == HLine(limits, st, pl.row(k + 1));
      case YOnly(st) => assert lines[k] == VLine(limits, st, pl.col(k + 1));
      case XY(st) =>
        if k % 2 == 0 {
          assert lines[k] == HLine(limits, st, pl.row(k / 2 + 1));
        } else {
          assert lines[k] == VLine(limits, st, pl.col(k / 2 + 1));
        }
    }
  }

  /** Whether a line of this style can be drawn: it is solid and its
      thickness, read as `i32`, can be negated. */
  predicate Drawable(s: Lines.LineStyle) {
    s.Solid? && Lines.AsI32(s.thickness) != I32_MIN
  }

  /** A horizontal or vertical line is drawn exactly when its style is
      drawable, as one mask in the style's colour. */
  lemma RunMask(line: Lines.Line)
    requires !line.positioning.BetweenPoints?
    ensures Lines.GetMask(line).Success? <==> Drawable(line.style)
    ensures Lines.GetMask(line).Success? ==>
              |Lines.GetMask(line).value| == 1 && Lines.GetMask(line).value[0].color == line.style.color
    ensures line.style.Dashed? ==> Lines.GetMask(line) == Failure("not yet implemented")
  {
  }

  /** The masks of a list of lines, in order; the first line that cannot be
      drawn ends the loop with its error, as `?` does. */
  function LineMasks(lines: seq<Lines.Line>): Result<seq<Mask>> {
    if |lines| == 0 then Success([])
    else
      match Lines.GetMask(lines[0])
      case Failure(e) => Failure(e)
      case Success(m) =>
        match LineMasks(lines[1..])
        case Failure(e) => Failure(e)
        case Success(rest) => Success(m + rest)
  }

  /** `GridLines::get_mask` as the source computes it, with line `i` at
      `i` intervals from 0; the graph draws this one. */
  function GetMask(g: GridLines, limits: Limits<real>): Result<seq<Mask>> {
    LineMasks(GridLinesOf(g, limits, AsWritten(limits)))
  }

  /** `GridLines::get_mask` with the lines placed from the lower corner of
      the box, as the grid evidently intends. */
  function GetMaskCorrected(g: GridLines, limits: Limits<real>): Result<seq<Mask>> {
    LineMasks(GridLinesOf(g, limits, Corrected(limits)))
  }

  /** Lines of one style that are all horizontal or vertical runs are drawn
      exactly when the style is drawable, as one mask per line, mask `k`
      being line `k`'s; otherwise the first line's error is returned. */
  lemma {:induction false} LineMasksUniform(lines: seq<Lines.Line>, s: Lines.LineStyle)
    requires forall k :: 0 <= k < |lines| ==> lines[k].style == s && !lines[k].positioning.BetweenPoints?
    ensures LineMasks(lines).Success? <==> |lines| == 0 || Drawable(s)
    ensures LineMasks(lines).Success? ==>
              |LineMasks(lines).value| == |lines|
              && forall k :: 0 <= k < |lines| ==>
                   Lines.GetMask(lines[k]).Success? && LineMasks(lines).value[k] == Lines.GetMask(lines[k]).value[0]
    ensures |lines| > 0 && LineMasks(lines).Failure? ==> LineMasks(lines) == Lines.GetMask(lines[0])
  {
    if |lines| > 0 {
      RunMask(lines[0]);
      LineMasksUniform(lines[1..], s);
      if LineMasks(lines).Success? {
        var rest := LineMasks(lines[1..]).value;
        assert LineMasks(lines).value == Lines.GetMask(lines[0]).value + rest;
        forall k | 0 <= k < |lines|
          ensures Lines.GetMask(lines[k]).Success? && LineMasks(lines).value[k] == Lines.GetMask(lines[k]).value[0]
        {
          if k > 0 {
            assert lines[k] == lines[1..][k - 1];
          }
        }
      }
    }
  }

  /** The grid is drawn exactly when its style is drawable, as one mask per
      line in the order the lines are drawn: ten for one direction and
      twenty for both. Otherwise it fails with the first line's error, so a
      dashed grid is not implemented. */
  lemma GridShape(g: GridLines, limits: Limits<real>)
    ensures GetMask(g, limits).Success? <==> Drawable(g.line)
    ensures GetMask(g, limits).Success? ==>
              var lines := GridLinesOf(g, limits, AsWritten(limits));
              |GetMask(g, limits).value| == PerSection(g) * NUM_SECTIONS
              && forall k :: 0 <= k < |lines| ==>
                   Lines.GetMask(lines[k]).Success? && GetMask(g, limits).value[k] == Lines.GetMask(lines[k]).value[0]
    ensures g.line.Dashed? ==> GetMask(g, limits) == Failure("not yet implemented")
  {
    PlacedGridShape(g, limits, AsWritten(limits));
  }

  /** The same shape for the corrected placement: only where the lines
      are differs. */
  lemma GridShapeCorrected(g: GridLines, limits: Limits<real>)
    ensures GetMaskCorrected(g, limits).Success? <==> Drawable(g.line)
    ensures GetMaskCorrected(g, limits).Success? ==>
              |GetMaskCorrected(g, limits).value| == PerSection(g) * NUM_SECTIONS
    ensures g.line.Dashed? ==> GetMaskCorrected(g, limits) == Failure("not yet implemented")
  {
    PlacedGridShape(g, limits, Corrected(limits));
  }

  /** The grid's shape for any placement of its lines. */
  lemma PlacedGridShape(g: GridLines, limits: Limits<real>, pl: Placement)
    ensures var lines := GridLinesOf(g, limits, pl);
            var r := LineMasks(lines);
            (r.Success? <==> Drawable(g.line))
            && (r.Success? ==>
                  |r.value| == PerSection(g) * NUM_SECTIONS
                  && forall k :: 0 <= k < |lines| ==>
                       Lines.GetMask(lines[k]).Success? && r.value[k] == Lines.GetMask(lines[k]).value[0])
            && (g.line.Dashed? ==> r == Failure("not yet implemented"))
  {
    var lines := GridLinesOf(g, limits, pl);
    GridLinesStyle(g, limits, pl);
    LineMasksUniform(lines, g.line);
    RunMask(lines[0]);
  }

  /** Section `j`'s lines are at the `j`-th row and column of the
      placement, the horizontal one across the box's width from its left
      edge and the vertical one across its height from its bottom edge. */
  lemma GridLinePlaces(g: GridLines, limits: Limits<real>, pl: Placement, j: nat)
    requires 1 <= j <= NUM_SECTIONS
    ensures var lines := GridLinesOf(g, limits, pl);
            match g
            case XOnly(s) => lines[j - 1] == HLine(limits, s, pl.row(j))
            case YOnly(s) => lines[j - 1] == VLine(limits, s, pl.col(j))
            case XY(s) => lines[2 * (j - 1)] == HLine(limits, s, pl.row(j))
                          && lines[2 * (j - 1) + 1] == VLine(limits, s, pl.col(j))
  {
    if g.XY? {
      assert (2 * (j - 1)) / 2 + 1 == j && (2 * (j - 1)) % 2 == 0;
      assert (2 * (j - 1) + 1) / 2 + 1 == j && (2 * (j - 1) + 1) % 2 == 1;
    }
  }

  // ---------------------------------------------------------------------
  // Placement of the lines

  /** The corrected lines divide the box evenly: line `i` is `i` tenths of
      the span above (or right of) the lower corner, consecutive lines are
      one tenth apart, and the last line is on the upper edge. */
  lemma CorrectedEvenlySpaced(limits: Limits<real>, i: nat)
    requires 1 <= i < NUM_SECTIONS
    ensures Corrected(limits).row(i + 1) - Corrected(limits).row(i) == Span(limits).1 / 10.0
    ensures Corrected(limits).col(i + 1) - Corrected(limits).col(i) == Span(limits).0 / 10.0
    ensures Corrected(limits).row(NUM_SECTIONS) == limits.max.y
    ensures Corrected(limits).col(NUM_SECTIONS) == limits.max.x
  {
  }

  /** Every corrected line lies inside the box: strictly above (right of)
      the lower edge when the box has height (width), and never past the
      upper edge. */
  lemma CorrectedWithinLimits(limits: Limits<real>, i: nat)
    requires limits.min.x <= limits.max.x && limits.min.y <= limits.max.y
    requires 1 <= i <= NUM_SECTIONS
    ensures limits.min.y <= Corrected(limits).row(i) <= limits.max.y
    ensures limits.min.x <= Corrected(limits).col(i) <= limits.max.x
    ensures limits.min.y < limits.max.y ==> limits.min.y < Corrected(limits).row(i)
    ensures limits.min.x < limits.max.x ==> limits.min.x < Corrected(limits).col(i)
  {
    var sp := Span(limits);
    assert sp.1 / 10.0 * i as real <= sp.1 / 10.0 * 10.0;
    assert sp.0 / 10.0 * i as real <= sp.0 / 10.0 * 10.0;
  }

  /** The two placements agree exactly when the box's lower corner is the
      origin on that axis. */
  lemma PlacementsAgreeAtOrigin(limits: Limits<real>, i: nat)
    ensures AsWritten(limits).row(i) == Corrected(limits).row(i) <==> limits.min.y == 0.0
    ensures AsWritten(limits).col(i) == Corrected(limits).col(i) <==> limits.min.x == 0.0
  {
  }

  /** A white hairline from (0, 1) across to (100, 1) paints (0, 1). */
  lemma HairlinePaintsStart()
    ensures var line := Lines.Line(Lines.Solid(WHITE, 0), Horizontal(Point(0.0, 1.0), 100.0));
            Lines.GetMask(line).Success? && Point(0, 1) in Lines.GetMask(line).value[0].points
  {
    var line := Lines.Line(Lines.Solid(WHITE, 0), Horizontal(Point(0.0, 1.0), 100.0));
    var ilp := Lines.ToI32Positioning(line.positioning);
    assert RealToI32(0.0) == 0 && RealToI32(1.0) == 1 && RealToI32(100.0) == 100;
    assert ilp == Horizontal(Point(0, 1), 100);
    var base := Lines.FullDrawablePoints(ilp);
    LimitRangeMembers(ILimitsOf(ilp), Point(0, 1));
    var k :| 0 <= k < |LimitRange(ILimitsOf(ilp))| && LimitRange(ILimitsOf(ilp))[k] == Point(0, 1);
    assert base[k] == Point(0, 1);
    assert Lines.Offset(base, false, 0)[k] == Point(0, 1);
    Lines.SolidRunMembers(line, Point(0, 1));
  }

  /** A box from (0, 50) to (100, 60): the first horizontal line the source
      draws is a hairline at height 1, 49 pixels below the box, where the
      corrected one is at height 51. */
  lemma GridOffsetCounterexample()
    ensures var limits := Limits(Point(0.0, 50.0), Point(100.0, 60.0));
            var g := XOnly(Lines.Solid(WHITE, 0));
            var asWritten := GetMask(g, limits);
            asWritten.Success? && Point(0, 1) in asWritten.value[0].points
            && !Contains(limits, ToReal(Point(0, 1)))
            && Corrected(limits).row(1) == 51.0
  {
    var limits := Limits(Point(0.0, 50.0), Point(100.0, 60.0));
    var g := XOnly(Lines.Solid(WHITE, 0));
    var pl := AsWritten(limits);
    assert pl.row(1) == 1.0;
    var lines := GridLinesOf(g, limits, pl);
    assert lines[0] == Lines.Line(Lines.Solid(WHITE, 0), Horizontal(Point(0.0, 1.0), 100.0));
    HairlinePaintsStart();
    GridLinesStyle(g, limits, pl);
    LineMasksUniform(lines, g.line);
  }
}
