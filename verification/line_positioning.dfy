/** `LinePositioning`: where a line lies — a horizontal or vertical run of
    some length from a start point, or the segment between two points. */
module LinePositions {
  import opened Points
  import opened Spans

  datatype LinePositioning<T> =
    | Horizontal(start: Point<T>, length: T)
    | Vertical(start: Point<T>, length: T)
    | BetweenPoints(start: Point<T>, end: Point<T>)

  predicate SameVariant<T, U>(a: LinePositioning<T>, b: LinePositioning<U>) {
    (a.Horizontal? && b.Horizontal?) || (a.Vertical? && b.Vertical?)
    || (a.BetweenPoints? && b.BetweenPoints?)
  }

  /** `limits` on real positions: the start, and the far end of the run. */
  function LimitsOf(lp: LinePositioning<real>): (r: Limits<real>)
    ensures r.min == lp.start
    ensures lp.Horizontal? ==> Span(r) == (lp.length, 0.0)
    ensures lp.Vertical? ==> Span(r) == (0.0, lp.length)
    ensures lp.BetweenPoints? ==> r.max == lp.end
  {
    match lp
    case Horizontal(start, length) => Limits(start, Point(start.x + length, start.y))
    case Vertical(start, length) => Limits(start, Point(start.x, start.y + length))
    case BetweenPoints(start, end) => Limits(start, end)
  }

  /** `limits` on integer positions. */
  function ILimitsOf(lp: LinePositioning<int>): (r: Limits<int>)
    ensures r.min == lp.start
    ensures lp.Horizontal? ==> ISpan(r) == (lp.length, 0)
    ensures lp.Vertical? ==> ISpan(r) == (0, lp.length)
    ensures lp.BetweenPoints? ==> r.max == lp.end
  {
    match lp
    case Horizontal(start, length) => Limits(start, Point(start.x + length, start.y))
    case Vertical(start, length) => Limits(start, Point(start.x, start.y + length))
    case BetweenPoints(start, end) => Limits(start, end)
  }

  /** `convert_to`: every coordinate, and the length, passed through `f`. */
  function ConvertTo<U>(lp: LinePositioning<real>, f: real -> U): (r: LinePositioning<U>)
    ensures SameVariant(lp, r)
    ensures r.start == Point(f(lp.start.x), f(lp.start.y))
    ensures !lp.BetweenPoints? ==> r.length == f(lp.length)
    ensures lp.BetweenPoints? ==> r.end == Point(f(lp.end.x), f(lp.end.y))
  {
    var cv := (p: Point<real>) => Point(f(p.x), f(p.y));
    match lp
    case Horizontal(start, length) => Horizontal(cv(start), f(length))
    case Vertical(start, length) => Vertical(cv(start), f(length))
    case BetweenPoints(start, end) => BetweenPoints(cv(start), cv(end))
  }

  /** Converting with `f` and then with `g` is converting with `g` after `f`. */
  lemma ConvertCompose<U>(lp: LinePositioning<real>, f: real -> real, g: real -> U)
    ensures ConvertTo(ConvertTo(lp, f), g) == ConvertTo(lp, x => g(f(x)))
  {
  }

  /** `shift_by`: the limits moved by `amount`; a run keeps its length and a
      segment both its end points' offsets. */
  function ShiftBy(lp: LinePositioning<real>, amount: Point<real>): (r: LinePositioning<real>)
    ensures SameVariant(lp, r)
    ensures r.start == ShiftLimits(LimitsOf(lp), amount).min
    ensures !lp.BetweenPoints? ==> r.length == lp.length
    ensures lp.BetweenPoints? ==> r.end == ShiftLimits(LimitsOf(lp), amount).max
  {
    var l := ShiftLimits(LimitsOf(lp), amount);
    match lp
    case Vertical(_, length) => Vertical(l.min, length)
    case Horizontal(_, length) => Horizontal(l.min, length)
    case BetweenPoints(_, _) => BetweenPoints(l.min, l.max)
  }

  /** The shifted line occupies the shifted box. */
  lemma ShiftByLimits(lp: LinePositioning<real>, amount: Point<real>)
    ensures LimitsOf(ShiftBy(lp, amount)) == ShiftLimits(LimitsOf(lp), amount)
  {
  }

  /** Shifting by `a` and then by `-a` gives back the line. */
  lemma ShiftByInverse(lp: LinePositioning<real>, a: Point<real>)
    ensures ShiftBy(ShiftBy(lp, a), Mul(a, -1.0)) == lp
  {
    var l := LimitsOf(lp);
    assert Add(Add(l.min, a), Mul(a, -1.0)) == l.min;
    assert Add(Add(l.max, a), Mul(a, -1.0)) == l.max;
  }

  /** `scale_to`: the limits rescaled; a run starts at the new lower corner
      and its length is the distance between the new corners. */
  function ScaleTo(lp: LinePositioning<real>, src: Limits<real>, dst: Limits<real>)
    : (r: LinePositioning<real>)
    ensures SameVariant(lp, r)
    ensures r.start == ScaleLimits(LimitsOf(lp), src, dst).min
    ensures lp.BetweenPoints? ==> r.end == ScaleLimits(LimitsOf(lp), src, dst).max
    ensures !lp.BetweenPoints? ==>
      r.length == Dist(ScaleLimits(LimitsOf(lp), src, dst).max, ScaleLimits(LimitsOf(lp), src, dst).min)
  {
    var l := ScaleLimits(LimitsOf(lp), src, dst);
    var length := Dist(l.max, l.min);
    match lp
    case Vertical(_, _) => Vertical(l.min, length)
    case Horizontal(_, _) => Horizontal(l.min, length)
    case BetweenPoints(_, _) => BetweenPoints(l.min, l.max)
  }

  /** A horizontal run stays horizontal under rescaling, and when the x
      span grows by the factor `f >= 0` its length grows by `f` too. */
  lemma ScaleHorizontalLength(lp: LinePositioning<real>, src: Limits<real>, dst: Limits<real>)
    requires lp.Horizontal? && lp.length >= 0.0
    requires Span(src).0 > 0.0 && Span(dst).0 >= 0.0
    ensures ScaleTo(lp, src, dst).length == lp.length * (Span(dst).0 / Span(src).0)
    ensures LimitsOf(ScaleTo(lp, src, dst)).max.y == ScaleTo(lp, src, dst).start.y
  {
    var l := LimitsOf(lp);
    var s := ScaleLimits(l, src, dst);
    ScaleCoordLinear(l.min.x, l.max.x, Span(src).0, Span(dst).0, Mid(dst).x);
    assert s.max.y == s.min.y;
    assert s.max.x - s.min.x == lp.length * (Span(dst).0 / Span(src).0);
    assert Span(dst).0 / Span(src).0 >= 0.0;
  }
}
