/** `Axes`: an x axis along the bottom of the data area, a y axis along its
    left side, or both, and the value label at the start of each. */
module PlotAxes {
  import opened Wrappers
  import opened Ints
  import opened Points
  import opened Spans
  import opened LinePositions
  import opened Masks
  import Lines
  import Texts

  datatype AxesPositioning =
    | XOnly(line: Lines.LineStyle)
    | YOnly(line: Lines.LineStyle)
    | XY(line: Lines.LineStyle)

  datatype Axes = Axes(positioning: AxesPositioning, style: Texts.TextStyle)

  /** `Axes::new`: labels use the default text style, which is one
      `TextStyle::new` accepts. */
  function New(positioning: AxesPositioning): (r: Axes)
    ensures r.positioning == positioning
    ensures Texts.NewStyle(r.style.color, r.style.scale, r.style.padding) == Success(r.style)
  {
    Axes(positioning, Texts.DefaultStyle())
  }

  /** The thickness of a line style as a real. */
  function Thick(s: Lines.LineStyle): real {
    s.Thickness() as real
  }

  /** The x axis: a horizontal line the length of the box's width, its
      centre line `thickness` below the bottom edge so that the widened
      line stays out of the data area. */
  function XLine(limits: Limits<real>, s: Lines.LineStyle): Lines.Line {
    Lines.Line(s, Horizontal(Point(limits.min.x, limits.min.y - Thick(s)), Span(limits).0))
  }

  /** The y axis: a vertical line the length of the box's height,
      `thickness` left of the left edge. */
  function YLine(limits: Limits<real>, s: Lines.LineStyle): Lines.Line {
    Lines.Line(s, Vertical(Point(limits.min.x - Thick(s), limits.min.y), Span(limits).1))
  }

  /** `Axes::get_mask`: the x axis, the y axis, or the x axis's masks
      followed by the y axis's. */
  function GetMask(a: Axes, limits: Limits<real>): (r: Result<seq<Mask>>)
    ensures a.positioning.XOnly? ==> r == Lines.GetMask(XLine(limits, a.positioning.line))
    ensures a.positioning.YOnly? ==> r == Lines.GetMask(YLine(limits, a.positioning.line))
    ensures a.positioning.XY? ==>
              var h := Lines.GetMask(XLine(limits, a.positioning.line));
              var v := Lines.GetMask(YLine(limits, a.positioning.line));
              (r.Success? <==> h.Success? && v.Success?) && (r.Success? ==> r.value == h.value + v.value)
  {
    match a.positioning
    case XOnly(s) => Lines.GetMask(XLine(limits, s))
    case YOnly(s) => Lines.GetMask(YLine(limits, s))
    case XY(s) =>
      match Lines.GetMask(XLine(limits, s))
      case Failure(e) => Failure(e)
      case Success(h) =>
        match Lines.GetMask(YLine(limits, s))
        case Failure(e) => Failure(e)
        case Success(v) => Success(h + v)
  }

  /** A solid axis whose thickness fits `i32` is one mask per line in the
      line's colour; a dashed one is not implemented. */
  lemma AxesMaskCount(a: Axes, limits: Limits<real>)
    requires a.positioning.line.Solid? && a.positioning.line.thickness <= I32_MAX
    ensures GetMask(a, limits).Success?
    ensures |GetMask(a, limits).value| == if a.positioning.XY? then 2 else 1
    ensures forall k :: 0 <= k < |GetMask(a, limits).value| ==>
              GetMask(a, limits).value[k].color == a.positioning.line.color
  {
    var s := a.positioning.line;
    SolidAxisLine(XLine(limits, s));
    SolidAxisLine(YLine(limits, s));
    var h := Lines.GetMask(XLine(limits, s));
    var v := Lines.GetMask(YLine(limits, s));
    match a.positioning
    case XOnly(_) =>
      assert GetMask(a, limits) == h;
    case YOnly(_) =>
      assert GetMask(a, limits) == v;
    case XY(_) =>
      assert GetMask(a, limits).value == [h.value[0], v.value[0]];
  }

  /** One solid axis line is a single mask in the line's colour. */
  lemma SolidAxisLine(line: Lines.Line)
    requires line.style.Solid? && !line.positioning.BetweenPoints?
    requires line.style.thickness <= I32_MAX
    ensures Lines.GetMask(line).Success? && |Lines.GetMask(line).value| == 1
    ensures Lines.GetMask(line).value[0].color == line.style.color
  {
    Lines.SolidRunIsWiden(line);
  }

  lemma DashedAxes(a: Axes, limits: Limits<real>)
    requires a.positioning.line.Dashed?
    ensures GetMask(a, limits) == Failure("not yet implemented")
  {
  }

  /** `x as i32` for a non-negative real never exceeds it. */
  lemma RealToI32Below(v: real)
    requires v >= 0.0
    ensures 0 <= RealToI32(v) && RealToI32(v) as real <= v
  {
  }

  /** Every point of a horizontal run lies on the run's row, and every
      point of a vertical run on its column, when that row or column is a
      valid pixel coordinate. */
  lemma RunPointOnLine(ilp: LinePositioning<int>, k: int)
    requires !ilp.BetweenPoints?
    requires 0 <= k < |Lines.FullDrawablePoints(ilp)|
    ensures ilp.Horizontal? && 0 <= ilp.start.y <= I32_MAX ==> Lines.FullDrawablePoints(ilp)[k].y == ilp.start.y
    ensures ilp.Vertical? && 0 <= ilp.start.x <= I32_MAX ==> Lines.FullDrawablePoints(ilp)[k].x == ilp.start.x
  {
    var runPoints := LimitRange(ILimitsOf(ilp));
    LimitRangeMembers(ILimitsOf(ilp), runPoints[k]);
  }

  /** The coordinate a run's thickness widens: x for a vertical run, y for
      a horizontal one. */
  function Across(q: Point<int>, vertical: bool): int {
    if vertical then q.x else q.y
  }

  /** One shifted copy of a run on row (or column) `c` lies on `c + shift`,
      or on 0 where that is negative. */
  lemma OffsetOnLine(base: seq<Point<int>>, vertical: bool, c: int, sh: int, p: Point<int>)
    requires 0 <= c <= I32_MAX && sh <= I32_MAX
    requires forall k :: 0 <= k < |base| ==> Across(base[k], vertical) == c
    requires p in Lines.Offset(base, vertical, sh)
    ensures Across(p, vertical) == if c + sh < 0 then 0 else c + sh
  {
    var k :| 0 <= k < |base| && Lines.Offset(base, vertical, sh)[k] == p;
    assert Across(base[k], vertical) == c;
  }

  /** Widening a run that lies on one row (or column) `c` by the shifts
      `lo..=hi` paints nothing further than `c + hi` across it. */
  lemma {:induction false} WidenedRunBound(base: seq<Point<int>>, vertical: bool, c: int, lo: int, hi: int, p: Point<int>)
    requires 0 <= c <= I32_MAX && 0 <= hi <= I32_MAX
    requires forall k :: 0 <= k < |base| ==> Across(base[k], vertical) == c
    requires p in Lines.Widen(base, vertical, lo, hi)
    ensures Across(p, vertical) <= c + hi
    decreases hi - lo + 1
  {
    var first := Lines.Offset(base, vertical, lo);
    assert Lines.Widen(base, vertical, lo, hi) == first + Lines.Widen(base, vertical, lo + 1, hi);
    if p in first {
      OffsetOnLine(base, vertical, c, lo, p);
    } else {
      WidenedRunBound(base, vertical, c, lo + 1, hi, p);
    }
  }

  /** The pixels of a solid run are its base points widened, and the base
      points lie on the run's row or column. */
  lemma SolidRunBound(line: Lines.Line, c: int, p: Point<int>)
    requires line.style.Solid? && line.style.thickness <= I32_MAX && !line.positioning.BetweenPoints?
    requires c == Across(Lines.ToI32Positioning(line.positioning).start, line.positioning.Vertical?)
    requires 0 <= c <= I32_MAX
    requires p in Lines.GetMask(line).value[0].points
    ensures Across(p, line.positioning.Vertical?) <= c + line.style.thickness
  {
    var ilp := Lines.ToI32Positioning(line.positioning);
    var base := Lines.FullDrawablePoints(ilp);
    var t := line.style.thickness as int;
    Lines.SolidRunIsWiden(line);
    forall k | 0 <= k < |base| ensures Across(base[k], line.positioning.Vertical?) == c {
      RunPointOnLine(ilp, k);
    }
    WidenedRunBound(base, line.positioning.Vertical?, c, -t, t, p);
  }

  /** The x axis stays out of the data area: when the bottom edge is at
      least the thickness above 0, no pixel of the axis is above it. */
  lemma XAxisBelowData(limits: Limits<real>, s: Lines.LineStyle, p: Point<int>)
    requires s.Solid? && s.thickness <= I32_MAX
    requires limits.min.y >= Thick(s)
    requires Lines.GetMask(XLine(limits, s)).Success?
    requires p in Lines.GetMask(XLine(limits, s)).value[0].points
    ensures p.y as real <= limits.min.y
  {
    var v := limits.min.y - Thick(s);
    RealToI32Below(v);
    SolidRunBound(XLine(limits, s), RealToI32(v), p);
  }

  /** The y axis stays left of the data area in the same way. */
  lemma YAxisLeftOfData(limits: Limits<real>, s: Lines.LineStyle, p: Point<int>)
    requires s.Solid? && s.thickness <= I32_MAX
    requires limits.min.x >= Thick(s)
    requires Lines.GetMask(YLine(limits, s)).Success?
    requires p in Lines.GetMask(YLine(limits, s)).value[0].points
    ensures p.x as real <= limits.min.x
  {
    var v := limits.min.x - Thick(s);
    RealToI32Below(v);
    SolidRunBound(YLine(limits, s), RealToI32(v), p);
  }

  // ---------------------------------------------------------------------
  // Labels

  /** `Point<f64>::floor` of a label centre, read as the `u32` point the
      label is anchored at. */
  function CenterOf(x: real, y: real): Point<int> {
    Point(SatU32(Floor(x)), SatU32(Floor(y)))
  }

  /** The centre of the x axis's label: at the left edge, below the axis by
      the thickness again and by half the label's height. */
  function XLabelCenter(canvas: Limits<real>, s: Lines.LineStyle, txt: Texts.Text): Point<int> {
    CenterOf(canvas.min.x, canvas.min.y - Thick(s) * 2.0 - txt.height as real / 2.0)
  }

  /** The centre of the y axis's label: at the bottom edge, left of the axis
      by the thickness again and by half the label's width. */
  function YLabelCenter(canvas: Limits<real>, s: Lines.LineStyle, txt: Texts.Text): Point<int> {
    CenterOf(canvas.min.x - Thick(s) * 2.0 - txt.width as real / 2.0, canvas.min.y)
  }

  /** `Axes::get_labels`: the graph's lower x value (or lower y value),
      written to 3 significant figures, as one label centred beside the
      start of its axis on the canvas; no labels for both axes. `plain` and
      `sci` are Rust's `to_string()` and `{:e}` renderings of a float. */
  function GetLabels(a: Axes, canvas: Limits<real>, graph: Limits<real>,
                     plain: real -> string, sci: real -> string): (r: Result<seq<Texts.Label>>)
    ensures a.positioning.XY? ==> r == Success([])
    ensures a.positioning.XOnly? ==>
              var txt := Texts.FromNumber(plain(graph.min.x), sci(graph.min.x), 3, a.style);
              (r.Success? <==> txt.Success?)
              && (r.Success? ==> r.value == [Texts.Label(txt.value, Texts.Centered(XLabelCenter(canvas, a.positioning.line, txt.value)))])
    ensures a.positioning.YOnly? ==>
              var txt := Texts.FromNumber(plain(graph.min.y), sci(graph.min.y), 3, a.style);
              (r.Success? <==> txt.Success?)
              && (r.Success? ==> r.value == [Texts.Label(txt.value, Texts.Centered(YLabelCenter(canvas, a.positioning.line, txt.value)))])
  {
    match a.positioning
    case XOnly(s) =>
      var v := graph.min.x;
      (match Texts.FromNumber(plain(v), sci(v), 3, a.style)
       case Failure(e) => Failure(e)
       case Success(txt) => Success([Texts.Label(txt, Texts.Centered(XLabelCenter(canvas, s, txt)))]))
    case YOnly(s) =>
      var v := graph.min.y;
      (match Texts.FromNumber(plain(v), sci(v), 3, a.style)
       case Failure(e) => Failure(e)
       case Success(txt) => Success([Texts.Label(txt, Texts.Centered(YLabelCenter(canvas, s, txt)))]))
    case XY(_) => Success([])
  }

  lemma HalfUp(n: nat)
    ensures ((n + 1) / 2) as real <= n as real / 2.0 + 0.5
  {
    if n % 2 == 0 {
      assert n as real / 2.0 == (n / 2) as real;
    } else {
      assert n as real / 2.0 == (n / 2) as real + 0.5;
    }
  }

  /** The x label sits under the x axis: where nothing saturates, the top
      of its box is at most half a pixel above the point twice the
      thickness below the data area, which is where the widened axis
      ends. */
  lemma XLabelBelowAxis(canvas: Limits<real>, s: Lines.LineStyle, txt: Texts.Text)
    requires var y := canvas.min.y - Thick(s) * 2.0 - txt.height as real / 2.0;
             0 <= Floor(y) <= U32_MAX
    requires Texts.LabelLimits(Texts.Label(txt, Texts.Centered(XLabelCenter(canvas, s, txt)))).Success?
    ensures var box := Texts.LabelLimits(Texts.Label(txt, Texts.Centered(XLabelCenter(canvas, s, txt)))).value;
            box.max.y as real <= canvas.min.y - Thick(s) * 2.0 + 0.5
  {
    HalfUp(txt.height);
  }

  /** The y label sits left of the y axis in the same way. */
  lemma YLabelLeftOfAxis(canvas: Limits<real>, s: Lines.LineStyle, txt: Texts.Text)
    requires var x := canvas.min.x - Thick(s) * 2.0 - txt.width as real / 2.0;
             0 <= Floor(x) <= U32_MAX
    requires Texts.LabelLimits(Texts.Label(txt, Texts.Centered(YLabelCenter(canvas, s, txt)))).Success?
    ensures var box := Texts.LabelLimits(Texts.Label(txt, Texts.Centered(YLabelCenter(canvas, s, txt)))).value;
            box.max.x as real <= canvas.min.x - Thick(s) * 2.0 + 0.5
  {
    HalfUp(txt.width);
  }
}
