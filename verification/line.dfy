/** `Line`: a styled line, its drawable box, Bresenham's rasterisation of a
    segment, and the widening of horizontal and vertical runs by the
    line's thickness. */
module Lines {
  import opened Ints
  import opened Wrappers
  import opened Points
  import opened Spans
  import opened LinePositions
  import opened Colors
  import opened Masks

  datatype LineStyle =
    | Solid(color: Rgb, thickness: u32)
    | Dashed(color: Rgb, thickness: u32)
  {
    /** `LineStyle::thickness`, whatever the variant. */
    function Thickness(): u32 {
      match this
      case Solid(_, t) => t
      case Dashed(_, t) => t
    }

    /** `LineStyle::color`, whatever the variant. */
    function Color(): Rgb {
      match this
      case Solid(c, _) => c
      case Dashed(c, _) => c
    }
  }

  /** `LineStyle::default`: a solid white hairline. */
  function DefaultStyle(): (s: LineStyle)
    ensures s.Solid? && s.Thickness() == 0 && s.Color() == WHITE
  {
    Solid(WHITE, 0)
  }

  /** `LineStyle::default_with_thickness`. */
  function DefaultWithThickness(t: u32): (s: LineStyle)
    ensures s.Solid? && s.Thickness() == t && s.Color() == WHITE
  {
    Solid(WHITE, t)
  }

  /** The accessors read back what each variant was built with. */
  lemma AccessorsRoundTrip(c: Rgb, t: u32)
    ensures Solid(c, t).Thickness() == t && Solid(c, t).Color() == c
    ensures Dashed(c, t).Thickness() == t && Dashed(c, t).Color() == c
  {
  }

  datatype Line = Line(style: LineStyle, positioning: LinePositioning<real>)

  /** The conversion `convert_to_i32` applies to a line's position. */
  function ToI32Positioning(lp: LinePositioning<real>): (r: LinePositioning<int>)
    ensures SameVariant(lp, r)
    ensures r.start == RealToI32Point(lp.start)
    ensures !lp.BetweenPoints? ==> r.length == RealToI32(lp.length)
    ensures lp.BetweenPoints? ==> r.end == RealToI32Point(lp.end)
  {
    ConvertTo(lp, (x: real) => RealToI32(x) as int)
  }

  // ---------------------------------------------------------------------
  // `drawable_limits`

  /** `Line<i32>::drawable_limits`: the line's box converted to `u32`, grown
      by the thickness on every side. Subtracting the thickness from a
      corner coordinate smaller than it underflows `u32` and panics. */
  function DrawableLimits(style: LineStyle, lp: LinePositioning<int>): (r: Result<Limits<int>>)
    ensures var l := ILimitsOf(lp);
            var t := style.Thickness();
            r.Success? <==> t <= ToU32(l.min).x && t <= ToU32(l.min).y
    ensures r.Success? ==>
      var l := ILimitsOf(lp);
      var t := style.Thickness();
      IAddScalar(r.value.min, t) == ToU32(l.min) && ISub(r.value.max, ToU32(l.max)) == Point(t, t)
  {
    var l := ILimitsOf(lp);
    var t := style.Thickness();
    var min := ToU32(l.min);
    var max := ToU32(l.max);
    if t <= min.x && t <= min.y then Success(Limits(Point(min.x - t, min.y - t), IAddScalar(max, t)))
    else Failure("attempt to subtract with overflow")
  }

  /** When it exists, the drawable box is the line's box with `thickness`
      added on every side: each span grows by twice the thickness. */
  lemma DrawableLimitsSpan(style: LineStyle, lp: LinePositioning<int>)
    requires DrawableLimits(style, lp).Success?
    ensures var l := ToU32(ILimitsOf(lp).max);
            var m := ToU32(ILimitsOf(lp).min);
            ISpan(DrawableLimits(style, lp).value)
              == (l.x - m.x + 2 * style.Thickness(), l.y - m.y + 2 * style.Thickness())
  {
  }

  // ---------------------------------------------------------------------
  // Bresenham's algorithm, as a reference definition over the number of
  // steps `i` taken along x and `j` along y.

  function IAbs(v: int): (r: int)
    ensures r >= 0 && (r == v || r == -v)
  {
    if v >= 0 then v else -v
  }

  /** The position after `i` x steps and `j` y steps from `p0` toward `p1`. */
  function At(p0: Point<int>, p1: Point<int>, i: int, j: int): Point<int> {
    Point(if p0.x < p1.x then p0.x + i else p0.x - i,
          if p0.y < p1.y then p0.y + j else p0.y - j)
  }

  /** The error term after `i` x steps and `j` y steps: it starts at
      `dx + dy` and gains `dy` per x step and `dx` per y step, where
      `dy = -|y1 - y0|`. */
  function Err(p0: Point<int>, p1: Point<int>, i: int, j: int): int {
    var dx := IAbs(p1.x - p0.x);
    var dyAbs := IAbs(p1.y - p0.y);
    dx * (1 + j) - dyAbs * (1 + i)
  }

  predicate InRange(p0: Point<int>, p1: Point<int>, i: int, j: int) {
    0 <= i <= IAbs(p1.x - p0.x) && 0 <= j <= IAbs(p1.y - p0.y)
  }

  predicate AtEnd(p0: Point<int>, p1: Point<int>, i: int, j: int) {
    i == IAbs(p1.x - p0.x) && j == IAbs(p1.y - p0.y)
  }

  /** The loop's two tests: `2 err >= dy` steps x, `2 err <= dx` steps y. */
  function NextI(p0: Point<int>, p1: Point<int>, i: int, j: int): int {
    if 2 * Err(p0, p1, i, j) >= -IAbs(p1.y - p0.y) then i + 1 else i
  }

  function NextJ(p0: Point<int>, p1: Point<int>, i: int, j: int): int {
    if 2 * Err(p0, p1, i, j) <= IAbs(p1.x - p0.x) then j + 1 else j
  }

  lemma MulLe(a: int, b: int, c: int)
    requires a >= 0 && b <= c
    ensures a * b <= a * c
  {
  }

  /** The error term's arithmetic: at the last column it is at most `-dy`,
      at the last row at least `dx`. */
  lemma StepArith(dx: int, dy: int, i: int, j: int)
    requires 0 <= i <= dx && 0 <= j <= dy
    ensures i == dx && j < dy ==> dx * (1 + j) - dy * (1 + i) <= -dy
    ensures j == dy && i < dx ==> dx * (1 + j) - dy * (1 + i) >= dx
  {
    if i == dx && j < dy {
      MulLe(dx, 1, dy - j);
      assert dx * (1 + j) - dy * (1 + i) == dx - dy - dx * (dy - j);
    }
    if j == dy && i < dx {
      MulLe(dy, 1, dx - i);
      assert dx * (1 + j) - dy * (1 + i) == dx - dy + dy * (dx - i);
    }
  }

  /** An x step adds `dy` to the error term, a y step adds `dx`. */
  lemma ErrStep(p0: Point<int>, p1: Point<int>, i: int, j: int)
    ensures Err(p0, p1, i + 1, j) == Err(p0, p1, i, j) - IAbs(p1.y - p0.y)
    ensures Err(p0, p1, i, j + 1) == Err(p0, p1, i, j) + IAbs(p1.x - p0.x)
  {
    var dx := IAbs(p1.x - p0.x);
    var dy := IAbs(p1.y - p0.y);
    assert dy * (1 + (i + 1)) == dy * (1 + i) + dy;
    assert dx * (1 + (j + 1)) == dx * (1 + j) + dx;
  }

  /** An x step moves one pixel toward `p1.x`, a y step one toward `p1.y`. */
  lemma AtStep(p0: Point<int>, p1: Point<int>, i: int, j: int)
    ensures At(p0, p1, i + 1, j) == Point(At(p0, p1, i, j).x + (if p0.x < p1.x then 1 else -1), At(p0, p1, i, j).y)
    ensures At(p0, p1, i, j + 1) == Point(At(p0, p1, i, j).x, At(p0, p1, i, j).y + (if p0.y < p1.y then 1 else -1))
  {
  }

  /** Within range, the loop stands on `p1` exactly at the last step. */
  lemma AtEndIff(p0: Point<int>, p1: Point<int>, i: int, j: int)
    requires InRange(p0, p1, i, j)
    ensures AtEnd(p0, p1, i, j) <==> At(p0, p1, i, j) == p1
  {
  }

  /** One pass of the loop body, away from the end: the two tests on
      `2 err` move the position and the error term to step
      `(NextI, NextJ)`. */
  lemma LoopStep(p0: Point<int>, p1: Point<int>, i: int, j: int, x: int, y: int, err: int)
    requires InRange(p0, p1, i, j) && !AtEnd(p0, p1, i, j)
    requires Point(x, y) == At(p0, p1, i, j) && err == Err(p0, p1, i, j)
    ensures (if 2 * err >= -IAbs(p1.y - p0.y) then x + (if p0.x < p1.x then 1 else -1) else x)
            == At(p0, p1, NextI(p0, p1, i, j), NextJ(p0, p1, i, j)).x
    ensures (if 2 * err <= IAbs(p1.x - p0.x) then y + (if p0.y < p1.y then 1 else -1) else y)
            == At(p0, p1, NextI(p0, p1, i, j), NextJ(p0, p1, i, j)).y
    ensures err + (if 2 * err >= -IAbs(p1.y - p0.y) then -IAbs(p1.y - p0.y) else 0)
            + (if 2 * err <= IAbs(p1.x - p0.x) then IAbs(p1.x - p0.x) else 0)
            == Err(p0, p1, NextI(p0, p1, i, j), NextJ(p0, p1, i, j))
  {
    ErrStep(p0, p1, i, j);
    ErrStep(p0, p1, i + 1, j);
    AtStep(p0, p1, i, j);
    AtStep(p0, p1, i + 1, j);
  }

  /** The heart of termination: a step never carries a coordinate past its
      target, and every step moves at least one coordinate. */
  lemma StepStaysInRange(p0: Point<int>, p1: Point<int>, i: int, j: int)
    requires InRange(p0, p1, i, j) && !AtEnd(p0, p1, i, j)
    ensures InRange(p0, p1, NextI(p0, p1, i, j), NextJ(p0, p1, i, j))
    ensures NextI(p0, p1, i, j) + NextJ(p0, p1, i, j) > i + j
  {
    StepArith(IAbs(p1.x - p0.x), IAbs(p1.y - p0.y), i, j);
  }

  /** Every position the loop visits from step `(i, j)` to the end, the
      end included. */
  function Visited(p0: Point<int>, p1: Point<int>, i: int, j: int): (r: seq<Point<int>>)
    requires InRange(p0, p1, i, j)
    decreases IAbs(p1.x - p0.x) - i + IAbs(p1.y - p0.y) - j
  {
    if AtEnd(p0, p1, i, j) then [At(p0, p1, i, j)]
    else
      StepStaysInRange(p0, p1, i, j);
      [At(p0, p1, i, j)] + Visited(p0, p1, NextI(p0, p1, i, j), NextJ(p0, p1, i, j))
  }

  /** Unrolling one step of `Visited`, seen from the loop's accumulated
      history. */
  lemma VisitedStep(p0: Point<int>, p1: Point<int>, i: int, j: int, seen: seq<Point<int>>)
    requires InRange(p0, p1, i, j)
    ensures AtEnd(p0, p1, i, j) ==> seen + [At(p0, p1, i, j)] == seen + Visited(p0, p1, i, j)
    ensures !AtEnd(p0, p1, i, j) ==>
      InRange(p0, p1, NextI(p0, p1, i, j), NextJ(p0, p1, i, j))
      && (seen + [At(p0, p1, i, j)]) + Visited(p0, p1, NextI(p0, p1, i, j), NextJ(p0, p1, i, j))
         == seen + Visited(p0, p1, i, j)
  {
    if !AtEnd(p0, p1, i, j) {
      StepStaysInRange(p0, p1, i, j);
      var rest := Visited(p0, p1, NextI(p0, p1, i, j), NextJ(p0, p1, i, j));
      assert Visited(p0, p1, i, j) == [At(p0, p1, i, j)] + rest;
      assert (seen + [At(p0, p1, i, j)]) + rest == seen + ([At(p0, p1, i, j)] + rest);
    }
  }

  /** Two pixels that touch, sideways or diagonally, or coincide. */
  predicate Near(p: Point<int>, q: Point<int>) {
    -1 <= p.x - q.x <= 1 && -1 <= p.y - q.y <= 1
  }

  predicate Connected(s: seq<Point<int>>) {
    forall k :: 0 <= k < |s| - 1 ==> Near(s[k], s[k + 1])
  }

  predicate NoRepeats(s: seq<Point<int>>) {
    forall k :: 0 <= k < |s| - 1 ==> s[k] != s[k + 1]
  }

  /** The positions visited start where the loop is, end at `p1`, move one
      pixel at a time and never stand still. */
  lemma {:induction false} VisitedShape(p0: Point<int>, p1: Point<int>, i: int, j: int)
    requires InRange(p0, p1, i, j)
    ensures var v := Visited(p0, p1, i, j);
            |v| >= 1 && v[0] == At(p0, p1, i, j) && v[|v| - 1] == p1
            && Connected(v) && NoRepeats(v)
    decreases IAbs(p1.x - p0.x) - i + IAbs(p1.y - p0.y) - j
  {
    if !AtEnd(p0, p1, i, j) {
      StepStaysInRange(p0, p1, i, j);
      var i', j' := NextI(p0, p1, i, j), NextJ(p0, p1, i, j);
      VisitedShape(p0, p1, i', j');
      var rest := Visited(p0, p1, i', j');
      var v := Visited(p0, p1, i, j);
      assert v == [At(p0, p1, i, j)] + rest;
      assert Near(At(p0, p1, i, j), rest[0]) && At(p0, p1, i, j) != rest[0];
      forall k | 0 <= k < |v| - 1 ensures Near(v[k], v[k + 1]) && v[k] != v[k + 1] {
        if k > 0 {
          assert v[k] == rest[k - 1] && v[k + 1] == rest[k];
        }
      }
    }
  }

  // ---------------------------------------------------------------------
  // The emitted pixels.

  /** `if points.last() != Some(&point) { points.push(point) }`. */
  function Push(points: seq<Point<int>>, p: Point<int>): (r: seq<Point<int>>)
    ensures |r| > 0 && r[|r| - 1] == p
    ensures r == points || r == points + [p]
  {
    if |points| > 0 && points[|points| - 1] == p then points else points + [p]
  }

  /** The points pushed one by one in the loop's way: each is kept unless it
      equals the last one kept. */
  function Dedup(s: seq<Point<int>>): (r: seq<Point<int>>)
    ensures |s| > 0 <==> |r| > 0
    ensures |s| > 0 ==> r[0] == s[0] && r[|r| - 1] == s[|s| - 1]
  {
    if |s| == 0 then [] else Push(Dedup(s[..|s| - 1]), s[|s| - 1])
  }

  /** Dropping repeats leaves no two equal neighbours, keeps touching
      neighbours touching, and invents no point. */
  lemma {:induction false} DedupShape(s: seq<Point<int>>)
    ensures NoRepeats(Dedup(s))
    ensures Connected(s) ==> Connected(Dedup(s))
    ensures forall k :: 0 <= k < |Dedup(s)| ==> Dedup(s)[k] in s
  {
    if |s| > 0 {
      var init := s[..|s| - 1];
      DedupShape(init);
      assert forall k :: 0 <= k < |init| ==> init[k] == s[k];
      assert Connected(s) ==> Connected(init);
    }
  }

  lemma DedupSnoc(s: seq<Point<int>>, p: Point<int>)
    ensures Dedup(s + [p]) == Push(Dedup(s), p)
  {
    assert (s + [p])[..|s|] == s;
  }

  /** Pushing the next visited point keeps the emitted points equal to the
      deduplicated history. */
  lemma HistoryStep(seen: seq<Point<int>>, p: Point<int>)
    ensures Push(Dedup(MapU32(seen)), ToU32(p)) == Dedup(MapU32(seen + [p]))
  {
    MapU32Snoc(seen, p);
    DedupSnoc(MapU32(seen), ToU32(p));
  }

  /** Saturating both coordinates keeps touching pixels touching. */
  lemma MapU32Connected(s: seq<Point<int>>)
    requires Connected(s)
    ensures Connected(MapU32(s))
  {
    forall k | 0 <= k < |s| - 1 ensures Near(MapU32(s)[k], MapU32(s)[k + 1]) {
      SatU32Lipschitz(s[k].x, s[k + 1].x);
      SatU32Lipschitz(s[k].y, s[k + 1].y);
    }
  }

  /** The pixels of the segment from `p0` to `p1`: the visited positions,
      converted to `u32`, without consecutive repeats. */
  function SegmentPixels(p0: Point<int>, p1: Point<int>): seq<Point<int>> {
    Dedup(MapU32(Visited(p0, p1, 0, 0)))
  }

  /** What the rasterised segment promises: it starts at the start, ends at
      the end, steps to a touching pixel each time, never repeats a pixel
      twice in a row, and is a single pixel when start and end coincide. */
  lemma SegmentPixelsShape(p0: Point<int>, p1: Point<int>)
    ensures var s := SegmentPixels(p0, p1);
            |s| >= 1 && s[0] == ToU32(p0) && s[|s| - 1] == ToU32(p1)
            && Connected(s) && NoRepeats(s)
    ensures p0 == p1 ==> SegmentPixels(p0, p1) == [ToU32(p0)]
    ensures p0.x >= p1.x ==> SegmentPixels(p0, p1)[0].x >= SegmentPixels(p0, p1)[|SegmentPixels(p0, p1)| - 1].x
  {
    assert InRange(p0, p1, 0, 0);
    VisitedShape(p0, p1, 0, 0);
    var v := Visited(p0, p1, 0, 0);
    assert At(p0, p1, 0, 0) == p0;
    MapU32Connected(v);
    DedupShape(MapU32(v));
    SatU32Lipschitz(p1.x, p0.x);
  }

  /** `full_drawable_points` for a segment, written as the source's loop. */
  method SegmentLoop(start: Point<int>, end: Point<int>) returns (points: seq<Point<int>>)
    ensures points == SegmentPixels(start, end)
  {
    var x0 := start.x;
    var y0 := start.y;
    var x1 := end.x;
    var y1 := end.y;
    var dx := IAbs(x1 - x0);
    var dy := -IAbs(y1 - y0);
    var sx := if x0 < x1 then 1 else -1;
    var sy := if y0 < y1 then 1 else -1;
    var err := dx + dy;
    points := [];
    assert err == Err(start, end, 0, 0);
    ghost var i, j := 0, 0;
    ghost var seen: seq<Point<int>> := [];
    while true
      invariant InRange(start, end, i, j)
      invariant Point(x0, y0) == At(start, end, i, j)
      invariant err == Err(start, end, i, j)
      invariant seen + Visited(start, end, i, j) == Visited(start, end, 0, 0)
      invariant points == Dedup(MapU32(seen))
      decreases dx - i + (-dy) - j
    {
      var point := ToU32(Point(x0, y0));
      HistoryStep(seen, Point(x0, y0));
      VisitedStep(start, end, i, j, seen);
      points := Push(points, point);
      seen := seen + [Point(x0, y0)];
      AtEndIff(start, end, i, j);
      if x0 == x1 && y0 == y1 {
        break;
      }
      LoopStep(start, end, i, j, x0, y0, err);
      ghost var i', j' := NextI(start, end, i, j), NextJ(start, end, i, j);
      var e2 := 2 * err;
      if e2 >= dy {
        err := err + dy;
        x0 := x0 + sx;
      }
      if e2 <= dx {
        err := err + dx;
        y0 := y0 + sy;
      }
      assert x0 == At(start, end, i', j').x && y0 == At(start, end, i', j').y;
      assert err == Err(start, end, i', j');
      i, j := i', j';
    }
  }

  // ---------------------------------------------------------------------
  // `full_drawable_points` and `get_mask`

  /** `Line<i32>::full_drawable_points`: a horizontal or vertical run is
      every integer point of its box; a segment is rasterised. */
  function FullDrawablePoints(lp: LinePositioning<int>): seq<Point<int>> {
    match lp
    case BetweenPoints(start, end) => SegmentPixels(start, end)
    case _ => MapU32(LimitRange(ILimitsOf(lp)))
  }

  /** `thickness as i32`: the `u32` bits read as two's complement. */
  function AsI32(t: u32): (r: int)
    ensures I32_MIN <= r <= I32_MAX
    ensures t <= I32_MAX ==> r == t
  {
    if t <= I32_MAX then t else t - (U32_MAX + 1)
  }

  /** One copy of the base points moved across the line by `shift`. */
  function Offset(base: seq<Point<int>>, vertical: bool, shift: int): (r: seq<Point<int>>)
    ensures |r| == |base|
  {
    var d := if vertical then Point(shift, 0) else Point(0, shift);
    seq(|base|, k requires 0 <= k < |base| => ToU32(IAdd(ToI32(base[k]), d)))
  }

  /** Copies of the base points for every shift from `lo` to `hi` inclusive. */
  function Widen(base: seq<Point<int>>, vertical: bool, lo: int, hi: int): (r: seq<Point<int>>)
    decreases hi - lo + 1
  {
    if lo > hi then [] else Offset(base, vertical, lo) + Widen(base, vertical, lo + 1, hi)
  }

  /** Widening repeats the base once per shift: `hi - lo + 1` copies. */
  lemma {:induction false} WidenLength(base: seq<Point<int>>, vertical: bool, lo: int, hi: int)
    requires lo <= hi + 1
    ensures |Widen(base, vertical, lo, hi)| == (hi - lo + 1) * |base|
    decreases hi - lo + 1
  {
    if lo <= hi {
      WidenLength(base, vertical, lo + 1, hi);
      assert (hi - lo + 1) * |base| == |base| + (hi - lo) * |base|;
    }
  }

  /** A point is painted by the widening exactly when some shift in
      `lo..=hi` moves a base point onto it. */
  lemma {:induction false} WidenMembers(base: seq<Point<int>>, vertical: bool, lo: int, hi: int, p: Point<int>)
    ensures p in Widen(base, vertical, lo, hi) <==>
      exists s :: lo <= s <= hi && p in Offset(base, vertical, s)
    decreases hi - lo + 1
  {
    if lo <= hi {
      WidenMembers(base, vertical, lo + 1, hi, p);
      var first := Offset(base, vertical, lo);
      var rest := Widen(base, vertical, lo + 1, hi);
      assert Widen(base, vertical, lo, hi) == first + rest;
      if p in first {
        assert lo <= lo <= hi && p in Offset(base, vertical, lo);
      } else if p !in rest {
        forall s | lo <= s <= hi ensures p !in Offset(base, vertical, s) {
          if s == lo { assert Offset(base, vertical, s) == first; }
        }
      }
    }
  }

  /** The `flat_line_fn` closure: the run's points `base` copied at every
      shift from `-1 * thickness as i32` to `thickness as i32`, across a
      vertical run in x and across a horizontal one in y. Multiplying
      `i32::MIN` by -1 overflows and panics. */
  function FlatLine(thickness: u32, base: seq<Point<int>>, vertical: bool): (r: Result<seq<Point<int>>>)
    ensures r.Failure? <==> AsI32(thickness) == I32_MIN
    ensures thickness <= I32_MAX ==> r == Success(Widen(base, vertical, -(thickness as int), thickness as int))
  {
    var w := AsI32(thickness);
    if w == I32_MIN then Failure("attempt to multiply with overflow")
    else Success(Widen(base, vertical, -w, w))
  }

  /** `Line::get_mask`. A solid horizontal or vertical line is its run
      widened by the thickness; a solid segment ignores the thickness; a
      dashed line is not implemented. */
  function GetMask(line: Line): (r: Result<seq<Mask>>)
    ensures line.style.Dashed? ==> r == Failure("not yet implemented")
    ensures line.style.Solid? && r.Success? ==> |r.value| == 1 && r.value[0].color == line.style.color
    ensures line.style.Solid? && line.positioning.BetweenPoints? ==>
      r == Success([Mask(FullDrawablePoints(ToI32Positioning(line.positioning)), line.style.color)])
  {
    match line.style
    case Dashed(_, _) => Failure("not yet implemented")
    case Solid(color, thickness) =>
      var lp := ToI32Positioning(line.positioning);
      if lp.BetweenPoints? then Success([Mask(FullDrawablePoints(lp), color)])
      else
        match FlatLine(thickness, FullDrawablePoints(lp), lp.Vertical?)
        case Failure(e) => Failure(e)
        case Success(points) => Success([Mask(points, color)])
  }

  /** A solid run whose thickness fits `i32` paints its base points widened
      across the line from `-thickness` to `thickness`. */
  lemma SolidRunIsWiden(line: Line)
    requires line.style.Solid? && !line.positioning.BetweenPoints?
    requires line.style.thickness <= I32_MAX
    ensures var lp := ToI32Positioning(line.positioning);
            var t := line.style.thickness as int;
            GetMask(line) == Success([Mask(Widen(FullDrawablePoints(lp), line.positioning.Vertical?, -t, t),
                                           line.style.color)])
  {
    var lp := ToI32Positioning(line.positioning);
    var t := line.style.thickness;
    var base := FullDrawablePoints(lp);
    assert lp.Vertical? == line.positioning.Vertical? && !lp.BetweenPoints?;
    var w := FlatLine(t, base, lp.Vertical?);
    assert w == Success(Widen(base, lp.Vertical?, -(t as int), t as int));
  }

  /** A solid run of thickness `t` (up to `i32::MAX`) paints `2t + 1`
      copies of its base points. */
  lemma SolidRunCount(line: Line)
    requires line.style.Solid? && !line.positioning.BetweenPoints?
    requires line.style.thickness <= I32_MAX
    ensures var base := FullDrawablePoints(ToI32Positioning(line.positioning));
            var t := line.style.thickness as int;
            var r := GetMask(line);
            r.Success? && |r.value[0].points| == (2 * t + 1) * |base|
  {
    var t := line.style.thickness as int;
    var base := FullDrawablePoints(ToI32Positioning(line.positioning));
    SolidRunIsWiden(line);
    WidenLength(base, line.positioning.Vertical?, -t, t);
  }

  /** A pixel is painted by a solid run of thickness `t` (up to `i32::MAX`)
      exactly when it is one of the run's points moved across the line by
      at most `t`. */
  lemma SolidRunMembers(line: Line, p: Point<int>)
    requires line.style.Solid? && !line.positioning.BetweenPoints?
    requires line.style.thickness <= I32_MAX
    ensures GetMask(line).Success?
    ensures var base := FullDrawablePoints(ToI32Positioning(line.positioning));
            var t := line.style.thickness as int;
            p in GetMask(line).value[0].points <==>
              exists s :: -t <= s <= t && p in Offset(base, line.positioning.Vertical?, s)
  {
    var t := line.style.thickness as int;
    var base := FullDrawablePoints(ToI32Positioning(line.positioning));
    SolidRunIsWiden(line);
    WidenMembers(base, line.positioning.Vertical?, -t, t, p);
  }

  /** The worked example: a horizontal hairline at height 5 from x = 0 to
      x = 10 paints those 11 pixels, and widening it to thickness 2 paints
      five times as many. */
  lemma HorizontalExample()
    ensures var lp := Horizontal(Point(0.0, 5.0), 10.0);
            var thin := GetMask(Line(Solid(WHITE, 0), lp));
            var thick := GetMask(Line(Solid(WHITE, 2), lp));
            thin.Success? && |thin.value[0].points| == 11
            && thick.Success? && |thick.value[0].points| == 55
  {
    var lp := Horizontal(Point(0.0, 5.0), 10.0);
    var ilp := ToI32Positioning(lp);
    assert RealToI32(0.0) == 0 && RealToI32(5.0) == 5 && RealToI32(10.0) == 10;
    assert ilp.start == Point(0, 5);
    assert ilp.length == 10;
    assert ilp == Horizontal(Point(0, 5), 10);
    LimitRangeCount(ILimitsOf(ilp));
    SolidRunCount(Line(Solid(WHITE, 0), lp));
    SolidRunCount(Line(Solid(WHITE, 2), lp));
  }
}
