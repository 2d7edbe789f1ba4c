/** `GraphLimits`: an explicit override of a graph's x range, y range, or
    whole box. */
module GraphBounds {
  import opened Points
  import opened Spans
  import Ints

  datatype GraphLimits<T> =
    | XOnly(min: T, max: T)
    | YOnly(min: T, max: T)
    | XY(lo: Point<T>, hi: Point<T>)

  predicate SameVariant<T, U>(a: GraphLimits<T>, b: GraphLimits<U>) {
    (a.XOnly? && b.XOnly?) || (a.YOnly? && b.YOnly?) || (a.XY? && b.XY?)
  }

  /** `shift_by`: an x range moves by `amount.x`, a y range by `amount.y`,
      a box by the whole point. */
  function ShiftBy(gl: GraphLimits<real>, amount: Point<real>): (r: GraphLimits<real>)
    ensures SameVariant(gl, r)
    ensures gl.XOnly? ==> r.min - gl.min == amount.x && r.max - gl.max == amount.x
    ensures gl.YOnly? ==> r.min - gl.min == amount.y && r.max - gl.max == amount.y
    ensures gl.XY? ==> Sub(r.lo, gl.lo) == amount && Sub(r.hi, gl.hi) == amount
  {
    match gl
    case XOnly(min, max) => XOnly(min + amount.x, max + amount.x)
    case YOnly(min, max) => YOnly(min + amount.y, max + amount.y)
    case XY(lo, hi) => XY(Add(lo, amount), Add(hi, amount))
  }

  /** Shifting by `a` and then by `-a` gives back the limits. */
  lemma ShiftByInverse(gl: GraphLimits<real>, a: Point<real>)
    ensures ShiftBy(ShiftBy(gl, a), Mul(a, -1.0)) == gl
  {
    if gl.XY? {
      assert Add(Add(gl.lo, a), Mul(a, -1.0)) == gl.lo;
      assert Add(Add(gl.hi, a), Mul(a, -1.0)) == gl.hi;
    }
  }

  /** `scale_to`: each bound multiplied by new span / old span on its axis,
      with no translation; an axis whose old span is 0 goes to the midpoint
      of the new range on that axis. */
  function ScaleTo(gl: GraphLimits<real>, src: Limits<real>, dst: Limits<real>)
    : (r: GraphLimits<real>)
    ensures SameVariant(gl, r)
    ensures gl.XOnly? && Span(src).0 != 0.0 ==>
      r.min == gl.min * (Span(dst).0 / Span(src).0) && r.max == gl.max * (Span(dst).0 / Span(src).0)
    ensures gl.XOnly? && Span(src).0 == 0.0 ==> r.min == r.max == (dst.min.x + dst.max.x) / 2.0
    ensures gl.YOnly? && Span(src).1 != 0.0 ==>
      r.min == gl.min * (Span(dst).1 / Span(src).1) && r.max == gl.max * (Span(dst).1 / Span(src).1)
    ensures gl.YOnly? && Span(src).1 == 0.0 ==> r.min == r.max == (dst.min.y + dst.max.y) / 2.0
    ensures gl.XY? ==> r.lo == ScalePoint(gl.lo, src, dst) && r.hi == ScalePoint(gl.hi, src, dst)
  {
    var (sx, sy) := Span(src);
    var (dx, dy) := Span(dst);
    var mid := Mid(dst);
    match gl
    case XOnly(min, max) => XOnly(ScaleCoord(min, sx, dx, mid.x), ScaleCoord(max, sx, dx, mid.x))
    case YOnly(min, max) => YOnly(ScaleCoord(min, sy, dy, mid.y), ScaleCoord(max, sy, dy, mid.y))
    case XY(lo, hi) => XY(ScalePoint(lo, src, dst), ScalePoint(hi, src, dst))
  }

  /** The x and y axes are rescaled independently: an `XY` box scales to the
      box whose x range is the scaled `XOnly` range and whose y range is the
      scaled `YOnly` range. */
  lemma ScaleAxesIndependent(lo: Point<real>, hi: Point<real>, src: Limits<real>, dst: Limits<real>)
    ensures var xy := ScaleTo(XY(lo, hi), src, dst);
            var x := ScaleTo(XOnly(lo.x, hi.x), src, dst);
            var y := ScaleTo(YOnly(lo.y, hi.y), src, dst);
            xy.lo == Point(x.min, y.min) && xy.hi == Point(x.max, y.max)
  {
  }

  /** `convert_to`: every bound passed through `f`, variant kept. */
  function ConvertTo<U>(gl: GraphLimits<real>, f: real -> U): (r: GraphLimits<U>)
    ensures SameVariant(gl, r)
    ensures !gl.XY? ==> r.min == f(gl.min) && r.max == f(gl.max)
    ensures gl.XY? ==> r.lo == Point(f(gl.lo.x), f(gl.lo.y)) && r.hi == Point(f(gl.hi.x), f(gl.hi.y))
  {
    match gl
    case XOnly(min, max) => XOnly(f(min), f(max))
    case YOnly(min, max) => YOnly(f(min), f(max))
    case XY(lo, hi) => XY(Point(f(lo.x), f(lo.y)), Point(f(hi.x), f(hi.y)))
  }

  /** The source's scale_to test values for spread limits. */
  lemma GraphLimitsExamples()
    ensures ScaleTo(XOnly(2.0, 8.0), Limits(Point(0.0, 0.0), Point(10.0, 10.0)),
                    Limits(Point(0.0, 0.0), Point(100.0, 100.0))) == XOnly(20.0, 80.0)
    ensures ScaleTo(YOnly(2.0, 8.0), Limits(Point(0.0, 0.0), Point(10.0, 10.0)),
                    Limits(Point(0.0, 0.0), Point(100.0, 100.0))) == YOnly(20.0, 80.0)
    ensures ScaleTo(XY(Point(2.0, 3.0), Point(8.0, 7.0)), Limits(Point(0.0, 0.0), Point(10.0, 10.0)),
                    Limits(Point(0.0, 0.0), Point(100.0, 100.0)))
         == XY(Point(20.0, 30.0), Point(80.0, 70.0))
  {
    var src := Limits(Point(0.0, 0.0), Point(10.0, 10.0));
    var dst := Limits(Point(0.0, 0.0), Point(100.0, 100.0));
    assert Span(src) == (10.0, 10.0) && Span(dst) == (100.0, 100.0);
    assert ScaleTo(XOnly(2.0, 8.0), src, dst) == XOnly(20.0, 80.0);
    assert ScaleTo(YOnly(2.0, 8.0), src, dst) == YOnly(20.0, 80.0);
  }

  /** The source's zero-span scale_to test values: an axis with no spread
      goes to the middle of the new range. */
  lemma GraphLimitsMidpointExamples()
    ensures ScaleTo(YOnly(5.0, 5.0), Limits(Point(0.0, 5.0), Point(10.0, 5.0)),
                    Limits(Point(0.0, 0.0), Point(100.0, 100.0))) == YOnly(50.0, 50.0)
    ensures ScaleTo(XOnly(5.0, 5.0), Limits(Point(5.0, 0.0), Point(5.0, 10.0)),
                    Limits(Point(0.0, 0.0), Point(100.0, 100.0))) == XOnly(50.0, 50.0)
    ensures ScaleTo(XY(Point(5.0, 5.0), Point(5.0, 5.0)), Limits(Point(5.0, 5.0), Point(5.0, 5.0)),
                    Limits(Point(0.0, 0.0), Point(100.0, 100.0)))
         == XY(Point(50.0, 50.0), Point(50.0, 50.0))
  {
  }

  /** The source's shift_by and convert_to test values. */
  lemma GraphLimitsShiftExamples()
    ensures ShiftBy(XOnly(2.0, 8.0), Point(10.0, 5.0)) == XOnly(12.0, 18.0)
    ensures ConvertTo(XOnly(2.5, 7.5), Ints.RealToI32) == XOnly(2, 7)
    ensures ShiftBy(YOnly(2.0, 8.0), Point(10.0, 5.0)) == YOnly(7.0, 13.0)
    ensures ShiftBy(XY(Point(2.0, 3.0), Point(8.0, 7.0)), Point(10.0, 5.0))
         == XY(Point(12.0, 8.0), Point(18.0, 12.0))
  {
  }
}
