/** `Graph`: the series of a plot with an optional explicit range override,
    axes and grid lines; its bounding box, its rescaling onto a canvas
    area, and the order in which its parts are drawn. */
module Graphs {
  import opened Wrappers
  import opened Points
  import opened Spans
  import opened Masks
  import GB = GraphBounds
  import PS = PlotSeries
  import PlotAxes
  import Lines
  import GridLineMasks
  import Texts

  datatype Graph<S> = Graph(
    data: seq<PS.Series<S>>,
    graphLimits: Option<GB.GraphLimits<real>>,
    axes: Option<PlotAxes.Axes>,
    gridLines: Option<GridLineMasks.GridLines>)

  /** All points of all series, series by series (`flat_map`). */
  function AllData<S>(ss: seq<PS.Series<S>>): seq<Point<real>> {
    if |ss| == 0 then [] else ss[0].data + AllData(ss[1..])
  }

  /** A point is among all the points exactly when some series has it. */
  lemma {:induction false} AllDataMembers<S>(ss: seq<PS.Series<S>>, p: Point<real>)
    ensures p in AllData(ss) <==> exists i :: 0 <= i < |ss| && p in ss[i].data
  {
    if |ss| > 0 {
      AllDataMembers(ss[1..], p);
      if p in AllData(ss[1..]) {
        var i :| 0 <= i < |ss[1..]| && p in ss[1..][i].data;
        assert p in ss[i + 1].data;
      }
      if exists i :: 0 <= i < |ss| && p in ss[i].data {
        var i :| 0 <= i < |ss| && p in ss[i].data;
        if i > 0 {
          assert ss[1..][i - 1] == ss[i];
        }
      }
    }
  }

  /** Appending a series appends its points. */
  lemma {:induction false} AllDataSnoc<S>(ss: seq<PS.Series<S>>, s: PS.Series<S>)
    ensures AllData(ss + [s]) == AllData(ss) + s.data
  {
    if |ss| > 0 {
      assert (ss + [s])[1..] == ss[1..] + [s];
      AllDataSnoc(ss[1..], s);
    }
  }

  // ---------------------------------------------------------------------
  // Building a graph

  /** `Graph::new`: nothing to draw, so no limits. */
  function New<S>(): (g: Graph<S>)
    ensures g.graphLimits.None? && g.axes.None? && g.gridLines.None?
    ensures AllData(g.data) == [] && Limits(g).None?
  {
    Graph([], None, None, None)
  }

  /** `with_series`: the series goes last, earlier series keep their order,
      and its points follow all the earlier points. */
  function WithSeries<S>(g: Graph<S>, s: PS.Series<S>): (r: Graph<S>)
    ensures |r.data| == |g.data| + 1 && r.data[..|g.data|] == g.data && r.data[|g.data|] == s
    ensures AllData(r.data) == AllData(g.data) + s.data
    ensures r.graphLimits == g.graphLimits && r.axes == g.axes && r.gridLines == g.gridLines
  {
    AllDataSnoc(g.data, s);
    g.(data := g.data + [s])
  }

  /** `with_axes`: the axes are set and nothing else changes. */
  function WithAxes<S>(g: Graph<S>, a: PlotAxes.Axes): (r: Graph<S>)
    ensures r.axes == Some(a)
    ensures r.data == g.data && r.graphLimits == g.graphLimits && r.gridLines == g.gridLines
  {
    g.(axes := Some(a))
  }

  /** `with_grid_lines`: the grid lines are set and nothing else changes. */
  function WithGridLines<S>(g: Graph<S>, gl: GridLineMasks.GridLines): (r: Graph<S>)
    ensures r.gridLines == Some(gl)
    ensures r.data == g.data && r.graphLimits == g.graphLimits && r.axes == g.axes
  {
    g.(gridLines := Some(gl))
  }

  // ---------------------------------------------------------------------
  // The range override

  /** The x range an override sets, if it sets one. */
  function XRange(gl: Option<GB.GraphLimits<real>>): Option<(real, real)> {
    match gl
    case None => None
    case Some(XOnly(min, max)) => Some((min, max))
    case Some(YOnly(_, _)) => None
    case Some(XY(lo, hi)) => Some((lo.x, hi.x))
  }

  /** The y range an override sets, if it sets one. */
  function YRange(gl: Option<GB.GraphLimits<real>>): Option<(real, real)> {
    match gl
    case None => None
    case Some(XOnly(_, _)) => None
    case Some(YOnly(min, max)) => Some((min, max))
    case Some(XY(lo, hi)) => Some((lo.y, hi.y))
  }

  /** An override is determined by the two ranges it sets. */
  lemma RangesDetermine(a: Option<GB.GraphLimits<real>>, b: Option<GB.GraphLimits<real>>)
    requires XRange(a) == XRange(b) && YRange(a) == YRange(b)
    ensures a == b
  {
  }

  /** `with_x_limits`: the x range becomes `(min, max)` and the y range, if
      any, is kept: none becomes `XOnly`, `XOnly` is replaced, `YOnly`
      grows to `XY`, and `XY` keeps its y bounds. */
  function WithXLimits<S>(g: Graph<S>, min: real, max: real): (r: Graph<S>)
    ensures XRange(r.graphLimits) == Some((min, max))
    ensures YRange(r.graphLimits) == YRange(g.graphLimits)
    ensures r.data == g.data && r.axes == g.axes && r.gridLines == g.gridLines
  {
    var gl := match g.graphLimits
      case None => GB.XOnly(min, max)
      case Some(XOnly(_, _)) => GB.XOnly(min, max)
      case Some(YOnly(yMin, yMax)) => GB.XY(Point(min, yMin), Point(max, yMax))
      case Some(XY(lo, hi)) => GB.XY(Point(min, lo.y), Point(max, hi.y));
    g.(graphLimits := Some(gl))
  }

  /** `with_y_limits`, the mirror image of `with_x_limits`. */
  function WithYLimits<S>(g: Graph<S>, min: real, max: real): (r: Graph<S>)
    ensures YRange(r.graphLimits) == Some((min, max))
    ensures XRange(r.graphLimits) == XRange(g.graphLimits)
    ensures r.data == g.data && r.axes == g.axes && r.gridLines == g.gridLines
  {
    var gl := match g.graphLimits
      case None => GB.YOnly(min, max)
      case Some(YOnly(_, _)) => GB.YOnly(min, max)
      case Some(XOnly(xMin, xMax)) => GB.XY(Point(xMin, min), Point(xMax, max))
      case Some(XY(lo, hi)) => GB.XY(Point(lo.x, min), Point(hi.x, max));
    g.(graphLimits := Some(gl))
  }

  /** Setting the x range and the y range in either order gives the same
      graph, and setting a range twice keeps only the second. */
  lemma OverrideOrderIrrelevant<S>(g: Graph<S>, x0: real, x1: real, y0: real, y1: real)
    ensures WithYLimits(WithXLimits(g, x0, x1), y0, y1) == WithXLimits(WithYLimits(g, y0, y1), x0, x1)
    ensures WithXLimits(WithXLimits(g, y0, y1), x0, x1) == WithXLimits(g, x0, x1)
    ensures WithYLimits(WithYLimits(g, x0, x1), y0, y1) == WithYLimits(g, y0, y1)
    ensures WithYLimits(WithXLimits(g, x0, x1), y0, y1).graphLimits
            == Some(GB.XY(Point(x0, y0), Point(x1, y1)))
  {
    RangesDetermine(WithYLimits(WithXLimits(g, x0, x1), y0, y1).graphLimits,
                    WithXLimits(WithYLimits(g, y0, y1), x0, x1).graphLimits);
    RangesDetermine(WithXLimits(WithXLimits(g, y0, y1), x0, x1).graphLimits,
                    WithXLimits(g, x0, x1).graphLimits);
    RangesDetermine(WithYLimits(WithYLimits(g, x0, x1), y0, y1).graphLimits,
                    WithYLimits(g, y0, y1).graphLimits);
    RangesDetermine(WithYLimits(WithXLimits(g, x0, x1), y0, y1).graphLimits,
                    Some(GB.XY(Point(x0, y0), Point(x1, y1))));
  }

  // ---------------------------------------------------------------------
  // Limits

  /** `Graph::limits`: the bounding box of all points, with each range the
      override sets put in place of the box's; `None` when there are no
      points, whatever the override. */
  function Limits<S>(g: Graph<S>): (r: Option<Spans.Limits<real>>)
    ensures r.Some? <==> |AllData(g.data)| > 0
    ensures r.Some? ==>
              var box := BoundingBox(AllData(g.data)).value;
              (r.value.min.x, r.value.max.x) == XRange(g.graphLimits).GetOr((box.min.x, box.max.x))
              && (r.value.min.y, r.value.max.y) == YRange(g.graphLimits).GetOr((box.min.y, box.max.y))
  {
    match BoundingBox(AllData(g.data))
    case None => None
    case Some(box) =>
      match g.graphLimits
      case None => Some(box)
      case Some(XOnly(xMin, xMax)) => Some(Spans.Limits(Point(xMin, box.min.y), Point(xMax, box.max.y)))
      case Some(YOnly(yMin, yMax)) => Some(Spans.Limits(Point(box.min.x, yMin), Point(box.max.x, yMax)))
      case Some(XY(lo, hi)) => Some(Spans.Limits(lo, hi))
  }

  /** Without an override the limits hold every point of every series and
      are the smallest box that does. */
  lemma LimitsAreBoundingBox<S>(g: Graph<S>, l: Spans.Limits<real>)
    requires g.graphLimits.None? && Limits(g).Some?
    ensures forall i, j :: 0 <= i < |g.data| && 0 <= j < |g.data[i].data| ==>
              Contains(Limits(g).value, g.data[i].data[j])
    ensures (forall k :: 0 <= k < |AllData(g.data)| ==> Contains(l, AllData(g.data)[k])) ==>
              Contains(l, Limits(g).value.min) && Contains(l, Limits(g).value.max)
  {
    var all := AllData(g.data);
    forall i, j | 0 <= i < |g.data| && 0 <= j < |g.data[i].data|
      ensures Contains(Limits(g).value, g.data[i].data[j])
    {
      AllDataMembers(g.data, g.data[i].data[j]);
    }
    if forall k :: 0 <= k < |all| ==> Contains(l, all[k]) {
      BoundingBoxSmallest(all, l);
    }
  }

  /** The limits of the graphs built in the source's own examples. */
  lemma LimitsExamples()
    ensures Limits(New<()>()) == None
    ensures Limits(WithSeries(New(), PS.Series([Point(0.0, 0.0)], ())))
            == Some(Spans.Limits(Point(0.0, 0.0), Point(0.0, 0.0)))
    ensures Limits(WithSeries(New(), PS.Series([Point(0.0, -5.0), Point(10.0, 0.0), Point(-1.0, 15.0)], ())))
            == Some(Spans.Limits(Point(-1.0, -5.0), Point(10.0, 15.0)))
  {
    var g := WithSeries(New(), PS.Series([Point(0.0, -5.0), Point(10.0, 0.0), Point(-1.0, 15.0)], ()));
    assert AllData(g.data) == [Point(0.0, -5.0), Point(10.0, 0.0), Point(-1.0, 15.0)];
    var single := WithSeries(New(), PS.Series([Point(0.0, 0.0)], ()));
    assert AllData(single.data) == [Point(0.0, 0.0)];
  }

  /** The limits of the source's example with three one-point series: the
      box spans the points of all of them. */
  lemma LimitsOnePointSeriesExample()
    ensures Limits(WithSeries(WithSeries(WithSeries(New(), PS.Series([Point(0.0, -5.0)], ())),
                                         PS.Series([Point(10.0, 0.0)], ())),
                              PS.Series([Point(-1.0, 15.0)], ())))
            == Some(Spans.Limits(Point(-1.0, -5.0), Point(10.0, 15.0)))
  {
    var g := WithSeries(WithSeries(WithSeries(New(), PS.Series([Point(0.0, -5.0)], ())),
                                   PS.Series([Point(10.0, 0.0)], ())),
                        PS.Series([Point(-1.0, 15.0)], ()));
    AllDataThree(g.data);
  }

  /** The limits of the source's example with three multi-point series. */
  lemma LimitsMultiSeriesExample()
    ensures Limits(WithSeries(WithSeries(WithSeries(New(),
                                           PS.Series([Point(10.0, -5.0), Point(0.0, -50.0), Point(-1.0, -1.0)], ())),
                                         PS.Series([Point(-20.0, 0.0), Point(0.0, -5.0)], ())),
                              PS.Series([Point(-1.0, 50.0), Point(2.0, -5.0), Point(3.0, -5.0), Point(100.0, -5.0)], ())))
            == Some(Spans.Limits(Point(-20.0, -50.0), Point(100.0, 50.0)))
  {
    var g := WithSeries(WithSeries(WithSeries(New(),
                                     PS.Series([Point(10.0, -5.0), Point(0.0, -50.0), Point(-1.0, -1.0)], ())),
                                   PS.Series([Point(-20.0, 0.0), Point(0.0, -5.0)], ())),
                        PS.Series([Point(-1.0, 50.0), Point(2.0, -5.0), Point(3.0, -5.0), Point(100.0, -5.0)], ()));
    AllDataThree(g.data);
    var ps := [Point(10.0, -5.0), Point(0.0, -50.0), Point(-1.0, -1.0),
               Point(-20.0, 0.0), Point(0.0, -5.0),
               Point(-1.0, 50.0), Point(2.0, -5.0), Point(3.0, -5.0), Point(100.0, -5.0)];
    assert AllData(g.data) == ps;
    NinePointBox(ps);
  }

  /** The box of the nine points of the multi-series example: each side
      touches one of them. */
  lemma NinePointBox(ps: seq<Point<real>>)
    requires ps == [Point(10.0, -5.0), Point(0.0, -50.0), Point(-1.0, -1.0),
                    Point(-20.0, 0.0), Point(0.0, -5.0),
                    Point(-1.0, 50.0), Point(2.0, -5.0), Point(3.0, -5.0), Point(100.0, -5.0)]
    ensures Spans.BoundingBox(ps) == Some(Spans.Limits(Point(-20.0, -50.0), Point(100.0, 50.0)))
  {
    Spans.BoundingBoxUnique(ps, Spans.Limits(Point(-20.0, -50.0), Point(100.0, 50.0)), 3, 1, 8, 5);
  }

  /** The points of three series are theirs one after the other. */
  lemma AllDataThree<S>(ss: seq<PS.Series<S>>)
    requires |ss| == 3
    ensures AllData(ss) == ss[0].data + ss[1].data + ss[2].data
  {
    var t := ss[1..];
    var u := t[1..];
    assert u == [ss[2]] && u[1..] == [];
    assert AllData(u) == ss[2].data + AllData(u[1..]);
    assert AllData(t) == ss[1].data + AllData(u);
    assert AllData(ss) == ss[0].data + AllData(t);
  }

  // ---------------------------------------------------------------------
  // Shifting and rescaling

  /** `shift_by`: every point of every series and the override move by
      `amount`; the axes and the grid lines are not positions and stay. */
  function ShiftBy<S>(g: Graph<S>, amount: Point<real>): (r: Graph<S>)
    ensures |r.data| == |g.data|
    ensures forall i :: 0 <= i < |g.data| ==> r.data[i] == PS.ShiftBy(g.data[i], amount)
    ensures r.graphLimits.Some? <==> g.graphLimits.Some?
    ensures g.graphLimits.Some? ==> r.graphLimits.value == GB.ShiftBy(g.graphLimits.value, amount)
    ensures r.axes == g.axes && r.gridLines == g.gridLines
  {
    var data := seq(|g.data|, i requires 0 <= i < |g.data| => PS.ShiftBy(g.data[i], amount));
    var gl := match g.graphLimits
      case None => None
      case Some(l) => Some(GB.ShiftBy(l, amount));
    Graph(data, gl, g.axes, g.gridLines)
  }

  /** Shifting back by `-amount` undoes a shift. */
  lemma ShiftByInverse<S>(g: Graph<S>, amount: Point<real>)
    ensures ShiftBy(ShiftBy(g, amount), Mul(amount, -1.0)) == g
  {
    var r := ShiftBy(ShiftBy(g, amount), Mul(amount, -1.0));
    forall i | 0 <= i < |g.data| ensures r.data[i] == g.data[i] {
      PS.ShiftByInverse(g.data[i], amount);
    }
    if g.graphLimits.Some? {
      GB.ShiftByInverse(g.graphLimits.value, amount);
    }
  }

  /** The three steps of `scale_to`: shift by `-old.min`, rescale from the
      old spans onto `dst`, shift by `newMin`; the override goes through
      the same three steps. */
  function ScaleThrough<S>(g: Graph<S>, src: Spans.Limits<real>, dst: Spans.Limits<real>, newMin: Point<real>)
    : (r: Graph<S>)
    ensures |r.data| == |g.data|
    ensures forall i :: 0 <= i < |g.data| ==>
              r.data[i].style == g.data[i].style && |r.data[i].data| == |g.data[i].data|
    ensures r.graphLimits.Some? <==> g.graphLimits.Some?
    ensures r.axes == g.axes && r.gridLines == g.gridLines
  {
    var toOrigin := Mul(src.min, -1.0);
    var shifted := ShiftBy(g, toOrigin);
    var scaled := shifted.(data := seq(|shifted.data|, i requires 0 <= i < |shifted.data| =>
                                      PS.ScaleTo(shifted.data[i], src, dst)));
    var moved := ShiftBy(scaled, newMin);
    var gl := match g.graphLimits
      case None => None
      case Some(l) => Some(ScaleOverride(l, src, dst, newMin));
    moved.(graphLimits := gl)
  }

  /** The override through the three steps of `scale_to`. */
  function ScaleOverride(gl: GB.GraphLimits<real>, src: Spans.Limits<real>, dst: Spans.Limits<real>,
                         newMin: Point<real>): GB.GraphLimits<real>
  {
    GB.ShiftBy(GB.ScaleTo(GB.ShiftBy(gl, Mul(src.min, -1.0)), src, dst), newMin)
  }

  /** `Graph::scale_to` as the source computes it: the rescaling step is
      given the new limits themselves, although the points have already
      been moved to the origin, so an axis whose old span is 0 lands on
      `new.min` plus the midpoint of the new range. `scale` uses this. */
  function ScaleTo<S>(g: Graph<S>, src: Spans.Limits<real>, dst: Spans.Limits<real>): Graph<S> {
    ScaleThrough(g, src, dst, dst.min)
  }

  /** The new limits moved to the origin: the box the rescaling step should
      aim at, since the points it is given start at the origin. This step
      is not in the source; it is the correction. */
  function AtOrigin(l: Spans.Limits<real>): (r: Spans.Limits<real>)
    ensures r.min == Point(0.0, 0.0) && Span(r) == Span(l)
  {
    Spans.Limits(Point(0.0, 0.0), Point(Span(l).0, Span(l).1))
  }

  /** `Graph::scale_to` corrected: the rescaling step aimed at the new
      limits moved to the origin. */
  function ScaleToCorrected<S>(g: Graph<S>, src: Spans.Limits<real>, dst: Spans.Limits<real>): Graph<S> {
    ScaleThrough(g, src, AtOrigin(dst), dst.min)
  }

  /** Where one point goes under `ScaleThrough`. */
  function ScaleThroughPoint(p: Point<real>, src: Spans.Limits<real>, dst: Spans.Limits<real>, newMin: Point<real>)
    : Point<real>
  {
    Add(ScalePoint(Add(p, Mul(src.min, -1.0)), src, dst), newMin)
  }

  /** Every point of every series goes through the three steps. */
  lemma ScaleThroughPoints<S>(g: Graph<S>, src: Spans.Limits<real>, dst: Spans.Limits<real>, newMin: Point<real>,
                              i: int, j: int)
    requires 0 <= i < |g.data| && 0 <= j < |g.data[i].data|
    ensures ScaleThrough(g, src, dst, newMin).data[i].data[j] == ScaleThroughPoint(g.data[i].data[j], src, dst, newMin)
  {
  }

  /** One coordinate under the corrected rescaling: with a positive old
      span it is carried linearly from `[oldMin, oldMin + oldSpan]` onto
      `[newMin, newMin + newSpan]`; with a zero old span it goes to the
      middle of the new range. */
  function CorrectedCoord(v: real, oldMin: real, oldSpan: real, newMin: real, newSpan: real): real {
    ScaleCoord(v - oldMin, oldSpan, newSpan, (0.0 + newSpan) / 2.0) + newMin
  }

  /** A coordinate inside the old range lands inside the new range. */
  lemma CorrectedCoordInside(v: real, oldMin: real, oldSpan: real, newMin: real, newSpan: real)
    requires oldSpan >= 0.0 && newSpan >= 0.0
    requires oldMin <= v <= oldMin + oldSpan
    ensures newMin <= CorrectedCoord(v, oldMin, oldSpan, newMin, newSpan) <= newMin + newSpan
  {
    if oldSpan != 0.0 {
      var f := newSpan / oldSpan;
      assert f >= 0.0;
      var d := v - oldMin;
      assert 0.0 <= d <= oldSpan;
      assert d * f <= oldSpan * f;
      assert oldSpan * f == newSpan;
    }
  }

  /** The corrected rescaling carries every point of the old limits into
      the new limits, whatever the spans. */
  lemma ScaleToInside(p: Point<real>, src: Spans.Limits<real>, dst: Spans.Limits<real>)
    requires src.min.x <= src.max.x && src.min.y <= src.max.y
    requires dst.min.x <= dst.max.x && dst.min.y <= dst.max.y
    requires Contains(src, p)
    ensures Contains(dst, ScaleThroughPoint(p, src, AtOrigin(dst), dst.min))
  {
    var q := ScaleThroughPoint(p, src, AtOrigin(dst), dst.min);
    assert q.x == CorrectedCoord(p.x, src.min.x, Span(src).0, dst.min.x, Span(dst).0);
    assert q.y == CorrectedCoord(p.y, src.min.y, Span(src).1, dst.min.y, Span(dst).1);
    CorrectedCoordInside(p.x, src.min.x, Span(src).0, dst.min.x, Span(dst).0);
    CorrectedCoordInside(p.y, src.min.y, Span(src).1, dst.min.y, Span(dst).1);
  }

  /** Where the old span is not 0 the two rescalings agree: they differ
      only on an axis the data does not spread over. */
  lemma ScaleToAgreesOnSpreadAxes(p: Point<real>, src: Spans.Limits<real>, dst: Spans.Limits<real>)
    requires Span(src).0 != 0.0 && Span(src).1 != 0.0
    ensures ScaleThroughPoint(p, src, AtOrigin(dst), dst.min) == ScaleThroughPoint(p, src, dst, dst.min)
  {
  }

  /** A point with x = 5, rescaled from limits whose x range is the single
      value 5 onto x from 100 to 200: the source puts it at x = 250,
      outside the new limits, where the corrected rescaling puts it at
      the middle, 150. */
  lemma ZeroSpanPointCounterexample()
    ensures var src := Spans.Limits(Point(5.0, 0.0), Point(5.0, 10.0));
            var dst := Spans.Limits(Point(100.0, 100.0), Point(200.0, 200.0));
            var w := ScaleThroughPoint(Point(5.0, 0.0), src, dst, dst.min);
            w == Point(250.0, 100.0) && !Contains(dst, w)
            && ScaleThroughPoint(Point(5.0, 0.0), src, AtOrigin(dst), dst.min) == Point(150.0, 100.0)
  {
    var src := Spans.Limits(Point(5.0, 0.0), Point(5.0, 10.0));
    var dst := Spans.Limits(Point(100.0, 100.0), Point(200.0, 200.0));
    assert Span(src) == (0.0, 10.0);
    assert Span(dst) == (100.0, 100.0);
    var moved := Add(Point(5.0, 0.0), Mul(src.min, -1.0));
    assert moved == Point(0.0, 0.0);
    assert ScaleThroughPoint(Point(5.0, 0.0), src, dst, dst.min) == Point(250.0, 100.0) by {
      assert ScalePoint(moved, src, dst) == Point(150.0, 0.0);
    }
    assert ScaleThroughPoint(Point(5.0, 0.0), src, AtOrigin(dst), dst.min) == Point(150.0, 100.0) by {
      assert ScalePoint(moved, src, AtOrigin(dst)) == Point(50.0, 0.0);
    }
  }

  /** The same for an `XOnly(5, 5)` override: the source moves it to
      `XOnly(250, 250)`, outside the new x range. */
  lemma ZeroSpanOverrideCounterexample()
    ensures var src := Spans.Limits(Point(5.0, 0.0), Point(5.0, 10.0));
            var dst := Spans.Limits(Point(100.0, 100.0), Point(200.0, 200.0));
            ScaleOverride(GB.XOnly(5.0, 5.0), src, dst, dst.min) == GB.XOnly(250.0, 250.0)
  {
    var src := Spans.Limits(Point(5.0, 0.0), Point(5.0, 10.0));
    var dst := Spans.Limits(Point(100.0, 100.0), Point(200.0, 200.0));
    assert Span(src) == (0.0, 10.0);
    var moved := GB.ShiftBy(GB.XOnly(5.0, 5.0), Mul(src.min, -1.0));
    assert moved == GB.XOnly(0.0, 0.0);
    assert GB.ScaleTo(moved, src, dst) == GB.XOnly(150.0, 150.0);
  }

  /** On an axis whose old span is 0 the corrected rescaling puts an
      override in the middle of the new range, and the source puts it
      further by the new minimum. */
  lemma ZeroSpanOverride(a: real, b: real, src: Spans.Limits<real>, dst: Spans.Limits<real>)
    requires src.min.x == src.max.x
    ensures var m := (dst.min.x + dst.max.x) / 2.0;
            ScaleOverride(GB.XOnly(a, b), src, AtOrigin(dst), dst.min) == GB.XOnly(m, m)
            && ScaleOverride(GB.XOnly(a, b), src, dst, dst.min) == GB.XOnly(dst.min.x + m, dst.min.x + m)
  {
    var moved := GB.ShiftBy(GB.XOnly(a, b), Mul(src.min, -1.0));
    assert Span(src).0 == 0.0;
    var aim := AtOrigin(dst);
    assert (aim.min.x + aim.max.x) / 2.0 + dst.min.x == (dst.min.x + dst.max.x) / 2.0;
    assert GB.ScaleTo(moved, src, aim).XOnly?;
  }

  /** The corrected rescaling carries an override inside the old limits
      into the new limits. */
  lemma ScaleOverrideInside(gl: GB.GraphLimits<real>, src: Spans.Limits<real>, dst: Spans.Limits<real>)
    requires src.min.x <= src.max.x && src.min.y <= src.max.y
    requires dst.min.x <= dst.max.x && dst.min.y <= dst.max.y
    requires gl.XOnly? || gl.YOnly? ==> gl.min <= gl.max
    requires gl.XOnly? ==> src.min.x <= gl.min && gl.max <= src.max.x
    requires gl.YOnly? ==> src.min.y <= gl.min && gl.max <= src.max.y
    requires gl.XY? ==> Contains(src, gl.lo) && Contains(src, gl.hi)
    ensures var r := ScaleOverride(gl, src, AtOrigin(dst), dst.min);
            (r.XOnly? ==> dst.min.x <= r.min <= r.max <= dst.max.x)
            && (r.YOnly? ==> dst.min.y <= r.min <= r.max <= dst.max.y)
            && (r.XY? ==> Contains(dst, r.lo) && Contains(dst, r.hi))
  {
    var r := ScaleOverride(gl, src, AtOrigin(dst), dst.min);
    match gl
    case XOnly(a, b) =>
      assert r.min == CorrectedCoord(a, src.min.x, Span(src).0, dst.min.x, Span(dst).0);
      assert r.max == CorrectedCoord(b, src.min.x, Span(src).0, dst.min.x, Span(dst).0);
      CorrectedCoordInside(a, src.min.x, Span(src).0, dst.min.x, Span(dst).0);
      CorrectedCoordInside(b, src.min.x, Span(src).0, dst.min.x, Span(dst).0);
      CorrectedCoordMonotone(a, b, src.min.x, Span(src).0, dst.min.x, Span(dst).0);
    case YOnly(a, b) =>
      assert r.min == CorrectedCoord(a, src.min.y, Span(src).1, dst.min.y, Span(dst).1);
      assert r.max == CorrectedCoord(b, src.min.y, Span(src).1, dst.min.y, Span(dst).1);
      CorrectedCoordInside(a, src.min.y, Span(src).1, dst.min.y, Span(dst).1);
      CorrectedCoordInside(b, src.min.y, Span(src).1, dst.min.y, Span(dst).1);
      CorrectedCoordMonotone(a, b, src.min.y, Span(src).1, dst.min.y, Span(dst).1);
    case XY(lo, hi) =>
      ScaleToInside(lo, src, dst);
      ScaleToInside(hi, src, dst);
  }

  /** The corrected rescaling keeps the order of coordinates. */
  lemma CorrectedCoordMonotone(a: real, b: real, oldMin: real, oldSpan: real, newMin: real, newSpan: real)
    requires a <= b && oldSpan >= 0.0 && newSpan >= 0.0
    ensures CorrectedCoord(a, oldMin, oldSpan, newMin, newSpan) <= CorrectedCoord(b, oldMin, oldSpan, newMin, newSpan)
  {
    if oldSpan != 0.0 {
      var f := newSpan / oldSpan;
      assert f >= 0.0;
      assert (a - oldMin) * f <= (b - oldMin) * f;
    }
  }

  // ---------------------------------------------------------------------
  // `Graph::scale`

  /** The points inside a box, in order (the filter loop of `scale`). */
  function PointsWithin(ps: seq<Point<real>>, box: Spans.Limits<real>): (r: seq<Point<real>>)
    ensures |r| <= |ps|
    ensures forall k :: 0 <= k < |r| ==> Contains(box, r[k])
    ensures forall p :: p in r <==> p in ps && Contains(box, p)
  {
    if |ps| == 0 then []
    else
      assert ps == [ps[0]] + ps[1..];
      (if Contains(box, ps[0]) then [ps[0]] else []) + PointsWithin(ps[1..], box)
  }

  /** Filtering keeps every point when all are inside already. */
  lemma {:induction false} PointsWithinAll(ps: seq<Point<real>>, box: Spans.Limits<real>)
    requires forall k :: 0 <= k < |ps| ==> Contains(box, ps[k])
    ensures PointsWithin(ps, box) == ps
  {
    if |ps| > 0 {
      PointsWithinAll(ps[1..], box);
    }
  }

  /** Each series with only its points inside the box. */
  function SeriesWithin<S>(ss: seq<PS.Series<S>>, box: Spans.Limits<real>): (r: seq<PS.Series<S>>)
    ensures |r| == |ss|
    ensures forall i :: 0 <= i < |ss| ==> r[i] == PS.CloneWith(ss[i], PointsWithin(ss[i].data, box))
  {
    seq(|ss|, i requires 0 <= i < |ss| => PS.CloneWith(ss[i], PointsWithin(ss[i].data, box)))
  }

  /** The body of `Graph::scale`, with the rescaling it calls as a
      parameter: the source's `scale_to` or the corrected one. */
  function ScaleWith<S>(g: Graph<S>, dst: Spans.Limits<real>, corrected: bool): Result<Graph<S>> {
    match Limits(g)
    case None => Failure("Cannot scale an empty graph")
    case Some(src) =>
      if g.graphLimits.None? then Success(Rescale(g, src, dst, corrected))
      else
        var kept := g.(data := SeriesWithin(g.data, src));
        match Limits(kept)
        case None => Failure("No valid points lie in specified graph limits")
        case Some(box2) => Success(Rescale(kept, box2, dst, corrected))
  }

  function Rescale<S>(g: Graph<S>, src: Spans.Limits<real>, dst: Spans.Limits<real>, corrected: bool): Graph<S> {
    if corrected then ScaleToCorrected(g, src, dst) else ScaleTo(g, src, dst)
  }

  /** The graph `scale` rescales: the graph itself without an override,
      and with one the graph holding only the points inside its limits. */
  function ScaleBase<S>(g: Graph<S>): Graph<S>
    requires Limits(g).Some?
  {
    if g.graphLimits.None? then g else g.(data := SeriesWithin(g.data, Limits(g).value))
  }

  /** `Graph::scale`. An empty graph cannot be scaled. Without an override
      the graph is rescaled by the source's `scale_to` from its limits onto
      `new`. With one, the points outside the limits are dropped first and
      the limits are recomputed from what is left, which must not be
      nothing. */
  function Scale<S>(g: Graph<S>, dst: Spans.Limits<real>): (r: Result<Graph<S>>)
    ensures Limits(g).None? ==> r == Failure("Cannot scale an empty graph")
    ensures Limits(g).Some? && g.graphLimits.None? ==> r == Success(ScaleTo(g, Limits(g).value, dst))
    ensures Limits(g).Some? && g.graphLimits.Some? ==>
              var kept := g.(data := SeriesWithin(g.data, Limits(g).value));
              (Limits(kept).None? ==> r == Failure("No valid points lie in specified graph limits"))
              && (Limits(kept).Some? ==> r == Success(ScaleTo(kept, Limits(kept).value, dst)))
  {
    ScaleWith(g, dst, false)
  }

  /** `Graph::scale` calling the corrected rescaling; it fails exactly
      where the source's does and differs only in where the points go. */
  function ScaleCorrected<S>(g: Graph<S>, dst: Spans.Limits<real>): (r: Result<Graph<S>>)
    ensures r.Success? <==> Scale(g, dst).Success?
    ensures r.Failure? ==> r == Scale(g, dst)
    ensures r.Success? ==> r.value == ScaleToCorrected(ScaleBase(g), Limits(ScaleBase(g)).value, dst)
  {
    ScaleWith(g, dst, true)
  }

  /** A graph's limits hold each of its points once the points outside an
      override have been dropped (and always, without an override). */
  lemma PointsInsideLimits<S>(g: Graph<S>, i: int, j: int)
    requires Limits(g).Some? && 0 <= i < |g.data| && 0 <= j < |g.data[i].data|
    requires g.graphLimits.Some? ==>
               (forall a, b :: 0 <= a < |g.data| && 0 <= b < |g.data[a].data| ==>
                  (XRange(g.graphLimits).Some? ==>
                     XRange(g.graphLimits).value.0 <= g.data[a].data[b].x <= XRange(g.graphLimits).value.1)
                  && (YRange(g.graphLimits).Some? ==>
                     YRange(g.graphLimits).value.0 <= g.data[a].data[b].y <= YRange(g.graphLimits).value.1))
    ensures Contains(Limits(g).value, g.data[i].data[j])
  {
    var p := g.data[i].data[j];
    AllDataMembers(g.data, p);
    var all := AllData(g.data);
    var k :| 0 <= k < |all| && all[k] == p;
    assert Contains(BoundingBox(all).value, all[k]);
  }

  /** The point filter leaves only points inside the limits it used. */
  lemma KeptInsideRanges<S>(g: Graph<S>)
    requires Limits(g).Some?
    ensures var kept := SeriesWithin(g.data, Limits(g).value);
            forall a, b :: 0 <= a < |kept| && 0 <= b < |kept[a].data| ==>
              (XRange(g.graphLimits).Some? ==>
                 XRange(g.graphLimits).value.0 <= kept[a].data[b].x <= XRange(g.graphLimits).value.1)
              && (YRange(g.graphLimits).Some? ==>
                 YRange(g.graphLimits).value.0 <= kept[a].data[b].y <= YRange(g.graphLimits).value.1)
  {
    var kept := SeriesWithin(g.data, Limits(g).value);
    forall a, b | 0 <= a < |kept| && 0 <= b < |kept[a].data|
      ensures Contains(Limits(g).value, kept[a].data[b])
    {
      assert kept[a].data == PointsWithin(g.data[a].data, Limits(g).value);
    }
  }

  /** After `scale` every point of every series lies inside the new limits,
      provided the limits it scales from are ordered boxes that are spread
      on both axes. (On an axis with a zero span the source sends the
      points outside, as `ScaleCounterexample` shows.) */
  lemma ScaleKeepsPointsInside<S>(g: Graph<S>, dst: Spans.Limits<real>, i: int, j: int)
    requires Scale(g, dst).Success?
    requires dst.min.x <= dst.max.x && dst.min.y <= dst.max.y
    requires var l := Limits(ScaleBase(g)).value; l.min.x < l.max.x && l.min.y < l.max.y
    requires 0 <= i < |Scale(g, dst).value.data| && 0 <= j < |Scale(g, dst).value.data[i].data|
    ensures Contains(dst, Scale(g, dst).value.data[i].data[j])
  {
    var base := ScaleBase(g);
    var box := Limits(base).value;
    assert Scale(g, dst).value == ScaleTo(base, box, dst);
    PointInsideScaleBase(g, i, j);
    ScaleThroughPoints(base, box, dst, dst.min, i, j);
    ScaleToAgreesOnSpreadAxes(base.data[i].data[j], box, dst);
    ScaleToInside(base.data[i].data[j], box, dst);
  }

  /** Corrected: after the corrected `scale` every point lies inside the
      new limits, whatever the spans of the old ones. */
  lemma ScaleCorrectedKeepsPointsInside<S>(g: Graph<S>, dst: Spans.Limits<real>, i: int, j: int)
    requires ScaleCorrected(g, dst).Success?
    requires dst.min.x <= dst.max.x && dst.min.y <= dst.max.y
    requires var l := Limits(ScaleBase(g)).value; l.min.x <= l.max.x && l.min.y <= l.max.y
    requires 0 <= i < |ScaleCorrected(g, dst).value.data| && 0 <= j < |ScaleCorrected(g, dst).value.data[i].data|
    ensures Contains(dst, ScaleCorrected(g, dst).value.data[i].data[j])
  {
    var base := ScaleBase(g);
    var box := Limits(base).value;
    PointInsideScaleBase(g, i, j);
    ScaleThroughPoints(base, box, AtOrigin(dst), dst.min, i, j);
    ScaleToInside(base.data[i].data[j], box, dst);
  }

  /** Each point of the graph `scale` rescales lies inside that graph's
      limits. */
  lemma PointInsideScaleBase<S>(g: Graph<S>, i: int, j: int)
    requires Limits(g).Some? && Limits(ScaleBase(g)).Some?
    requires 0 <= i < |ScaleBase(g).data| && 0 <= j < |ScaleBase(g).data[i].data|
    ensures Contains(Limits(ScaleBase(g)).value, ScaleBase(g).data[i].data[j])
  {
    if g.graphLimits.Some? {
      KeptInsideRanges(g);
    }
    PointsInsideLimits(ScaleBase(g), i, j);
  }

  /** `scale` on one series (5, 0), (5, 10) without an override, onto
      (100, 100)-(200, 200): the source puts the first point at (250, 100),
      outside the new limits. */
  lemma ScaleCounterexample()
    ensures var g := WithSeries(New<()>(), PS.Series([Point(5.0, 0.0), Point(5.0, 10.0)], ()));
            var dst := Spans.Limits(Point(100.0, 100.0), Point(200.0, 200.0));
            Scale(g, dst).Success? && Scale(g, dst).value.data[0].data[0] == Point(250.0, 100.0)
            && !Contains(dst, Point(250.0, 100.0))
  {
    var g := WithSeries(New<()>(), PS.Series([Point(5.0, 0.0), Point(5.0, 10.0)], ()));
    var dst := Spans.Limits(Point(100.0, 100.0), Point(200.0, 200.0));
    CounterexampleLimits();
    ScaleFirstPoint(g, Spans.Limits(Point(5.0, 0.0), Point(5.0, 10.0)), dst);
    ZeroSpanPointCounterexample();
  }

  /** The corrected `scale` puts the same point at (150, 100), the middle
      of the new x range. */
  lemma ScaleCorrectedExample()
    ensures var g := WithSeries(New<()>(), PS.Series([Point(5.0, 0.0), Point(5.0, 10.0)], ()));
            var dst := Spans.Limits(Point(100.0, 100.0), Point(200.0, 200.0));
            ScaleCorrected(g, dst).Success? && ScaleCorrected(g, dst).value.data[0].data[0] == Point(150.0, 100.0)
  {
    var g := WithSeries(New<()>(), PS.Series([Point(5.0, 0.0), Point(5.0, 10.0)], ()));
    var dst := Spans.Limits(Point(100.0, 100.0), Point(200.0, 200.0));
    CounterexampleLimits();
    ScaleFirstPoint(g, Spans.Limits(Point(5.0, 0.0), Point(5.0, 10.0)), dst);
    ZeroSpanPointCounterexample();
  }

  /** Where `scale` and its corrected version put the first point of a
      graph without an override, in terms of the point's rescalings. */
  lemma ScaleFirstPoint<S>(g: Graph<S>, src: Spans.Limits<real>, dst: Spans.Limits<real>)
    requires Limits(g) == Some(src) && g.graphLimits.None?
    requires |g.data| > 0 && |g.data[0].data| > 0
    ensures Scale(g, dst).Success? && ScaleCorrected(g, dst).Success?
    ensures Scale(g, dst).value.data[0].data[0] == ScaleThroughPoint(g.data[0].data[0], src, dst, dst.min)
    ensures ScaleCorrected(g, dst).value.data[0].data[0]
            == ScaleThroughPoint(g.data[0].data[0], src, AtOrigin(dst), dst.min)
  {
    ScaleThroughPoints(g, src, dst, dst.min, 0, 0);
    ScaleThroughPoints(g, src, AtOrigin(dst), dst.min, 0, 0);
  }

  /** The limits of the graph of `ScaleCounterexample`. */
  lemma CounterexampleLimits()
    ensures var g := WithSeries(New<()>(), PS.Series([Point(5.0, 0.0), Point(5.0, 10.0)], ()));
            Limits(g) == Some(Spans.Limits(Point(5.0, 0.0), Point(5.0, 10.0))) && g.graphLimits.None?
  {
    var g := WithSeries(New<()>(), PS.Series([Point(5.0, 0.0), Point(5.0, 10.0)], ()));
    assert AllData(g.data) == [Point(5.0, 0.0), Point(5.0, 10.0)];
  }

  // ---------------------------------------------------------------------
  // Drawing

  /** The masks of every series, in series order; `unwrap` of a failing
      series mask is an error of the whole. */
  function SeriesMasks<S>(ss: seq<PS.Series<S>>, seriesMask: PS.Series<S> -> Result<seq<Mask>>): Result<seq<Mask>> {
    if |ss| == 0 then Success([])
    else
      match seriesMask(ss[0])
      case Failure(e) => Failure(e)
      case Success(m) =>
        match SeriesMasks(ss[1..], seriesMask)
        case Failure(e) => Failure(e)
        case Success(rest) => Success(m + rest)
  }

  /** The series masks succeed exactly when each series' does, and then
      they are the series' masks one after the other. */
  lemma {:induction false} SeriesMasksAll<S>(ss: seq<PS.Series<S>>, seriesMask: PS.Series<S> -> Result<seq<Mask>>)
    ensures SeriesMasks(ss, seriesMask).Success? <==> forall i :: 0 <= i < |ss| ==> seriesMask(ss[i]).Success?
    ensures SeriesMasks(ss, seriesMask).Success? && |ss| > 0 ==>
              SeriesMasks(ss, seriesMask).value[..|seriesMask(ss[0]).value|] == seriesMask(ss[0]).value
    ensures SeriesMasks(ss, seriesMask).Success? ==>
              AllPoints(SeriesMasks(ss, seriesMask).value) == SeriesPoints(ss, seriesMask)
  {
    if |ss| > 0 {
      SeriesMasksAll(ss[1..], seriesMask);
      assert forall i :: 1 <= i < |ss| ==> ss[i] == ss[1..][i - 1];
      if SeriesMasks(ss, seriesMask).Success? {
        AllPointsAppend(seriesMask(ss[0]).value, SeriesMasks(ss[1..], seriesMask).value);
      }
    }
  }

  /** The points the series' masks paint, series by series. */
  function SeriesPoints<S>(ss: seq<PS.Series<S>>, seriesMask: PS.Series<S> -> Result<seq<Mask>>): seq<Point<int>>
    requires forall i :: 0 <= i < |ss| ==> seriesMask(ss[i]).Success?
  {
    if |ss| == 0 then []
    else AllPoints(seriesMask(ss[0]).value) + SeriesPoints(ss[1..], seriesMask)
  }

  lemma {:induction false} AllPointsAppend(a: seq<Mask>, b: seq<Mask>)
    ensures AllPoints(a + b) == AllPoints(a) + AllPoints(b)
  {
    if |a| > 0 {
      var ab := a + b;
      assert ab[0] == a[0] && ab[1..] == a[1..] + b;
      AllPointsAppend(a[1..], b);
      assert AllPoints(ab) == ab[0].points + AllPoints(ab[1..]);
      assert AllPoints(a) == a[0].points + AllPoints(a[1..]);
    } else {
      assert a + b == b;
    }
  }

  /** The axes' masks, or none without axes. */
  function AxesMasks<S>(g: Graph<S>, l: Spans.Limits<real>): Result<seq<Mask>> {
    match g.axes
    case None => Success([])
    case Some(a) => PlotAxes.GetMask(a, l)
  }

  /** The grid's masks, or none without a grid. */
  function GridMasks<S>(g: Graph<S>, l: Spans.Limits<real>): Result<seq<Mask>> {
    match g.gridLines
    case None => Success([])
    case Some(gl) => GridLineMasks.GetMask(gl, l)
  }

  /** `Graph::get_mask`: the axes, then the grid lines, then each series in
      order, all placed against the graph's limits; a graph without points
      has no limits and `unwrap` fails. `seriesMask` is the series' own
      mask, which is not part of this model. */
  function GetMask<S>(g: Graph<S>, seriesMask: PS.Series<S> -> Result<seq<Mask>>): (r: Result<seq<Mask>>)
    ensures Limits(g).None? ==> r == Failure("called `Option::unwrap()` on a `None` value")
    ensures Limits(g).Some? ==>
              var l := Limits(g).value;
              (r.Success? <==> AxesMasks(g, l).Success? && GridMasks(g, l).Success?
                               && SeriesMasks(g.data, seriesMask).Success?)
    ensures r.Success? ==>
              var l := Limits(g).value;
              r.value == AxesMasks(g, l).value + GridMasks(g, l).value + SeriesMasks(g.data, seriesMask).value
  {
    match Limits(g)
    case None => Failure("called `Option::unwrap()` on a `None` value")
    case Some(l) =>
      match AxesMasks(g, l)
      case Failure(e) => Failure(e)
      case Success(a) =>
        match GridMasks(g, l)
        case Failure(e) => Failure(e)
        case Success(gm) =>
          match SeriesMasks(g.data, seriesMask)
          case Failure(e) => Failure(e)
          case Success(sm) => Success(a + gm + sm)
  }

  /** With solid axes on both sides and a drawable grid in both directions,
      the first two masks are the x and the y axis, the next twenty the
      grid, and the rest the series, in series order. */
  lemma GetMaskLayout<S>(g: Graph<S>, seriesMask: PS.Series<S> -> Result<seq<Mask>>)
    requires Limits(g).Some?
    requires g.axes.Some? && g.axes.value.positioning.XY?
    requires g.axes.value.positioning.line.Solid? && g.axes.value.positioning.line.thickness <= Ints.I32_MAX
    requires g.gridLines.Some? && g.gridLines.value.XY? && GridLineMasks.Drawable(g.gridLines.value.line)
    requires forall i :: 0 <= i < |g.data| ==> seriesMask(g.data[i]).Success?
    ensures GetMask(g, seriesMask).Success?
    ensures var l := Limits(g).value;
            var s := g.axes.value.positioning.line;
            var r := GetMask(g, seriesMask).value;
            |r| == 22 + |SeriesMasks(g.data, seriesMask).value|
            && r[0] == Lines.GetMask(PlotAxes.XLine(l, s)).value[0]
            && r[1] == Lines.GetMask(PlotAxes.YLine(l, s)).value[0]
            && r[22..] == SeriesMasks(g.data, seriesMask).value
  {
    var l := Limits(g).value;
    PlotAxes.AxesMaskCount(g.axes.value, l);
    GridLineMasks.GridShape(g.gridLines.value, l);
    SeriesMasksAll(g.data, seriesMask);
    Lines.SolidRunIsWiden(PlotAxes.XLine(l, g.axes.value.positioning.line));
    Lines.SolidRunIsWiden(PlotAxes.YLine(l, g.axes.value.positioning.line));
  }

  /** `get_axes_labels`: the axes' labels placed against the graph's own
      limits and showing the values of `graphLimits`; none without axes. */
  function GetAxesLabels<S>(g: Graph<S>, graphLimits: Spans.Limits<real>,
                            plain: real -> string, sci: real -> string): (r: Result<seq<Texts.Label>>)
    ensures g.axes.None? ==> r == Success([])
    ensures g.axes.Some? && Limits(g).None? ==> r == Failure("called `Option::unwrap()` on a `None` value")
    ensures g.axes.Some? && Limits(g).Some? ==>
              r == PlotAxes.GetLabels(g.axes.value, Limits(g).value, graphLimits, plain, sci)
  {
    match g.axes
    case None => Success([])
    case Some(a) =>
      match Limits(g)
      case None => Failure("called `Option::unwrap()` on a `None` value")
      case Some(l) => PlotAxes.GetLabels(a, l, graphLimits, plain, sci)
  }
}
