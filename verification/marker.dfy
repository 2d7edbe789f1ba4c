/** `Marker`: a square (or circular) blob of pixels drawn at each data
    point. */
module Markers {
  import opened Ints
  import opened Points
  import opened Spans
  import opened Colors
  import opened Masks

  /** `MarkerStyle`; `size` is a field of every variant, so `size()` is the
      shared destructor `style.size`. */
  datatype MarkerStyle =
    | FilledSquare(size: u32, color: Rgb)
    | HollowSquare(size: u32, color: Rgb)
    | FilledCircle(size: u32, color: Rgb)
    | HollowCircle(size: u32, color: Rgb)

  /** `MarkerStyle::default`: a single white pixel. */
  function DefaultStyle(): (s: MarkerStyle)
    ensures s.FilledSquare? && s.size == 0 && s.color == WHITE
  {
    FilledSquare(0, WHITE)
  }

  /** `Marker`; the centre is a `u32` point. */
  datatype Marker = Marker(center: Point<int>, style: MarkerStyle)

  predicate U32Point(p: Point<int>) {
    0 <= p.x <= U32_MAX && 0 <= p.y <= U32_MAX
  }

  /** `Marker::limits`: the box reaching `size` pixels from the centre on
      every side, clipped at 0 below. */
  function MarkerLimits(m: Marker): (r: Limits<int>)
    requires U32Point(m.center)
    ensures r.min.x == if m.center.x >= m.style.size then m.center.x - m.style.size else 0
    ensures r.min.y == if m.center.y >= m.style.size then m.center.y - m.style.size else 0
    ensures r.max == IAddScalar(m.center, m.style.size)
    ensures IContains(r, m.center)
  {
    var s := m.style.size;
    Limits(Point(SaturatingSub(m.center.x, s), SaturatingSub(m.center.y, s)), IAddScalar(m.center, s))
  }

  /** Away from the lower and left edges the box is exactly `2 size`
      pixels across in both directions, centred on the marker. */
  lemma MarkerLimitsSymmetric(m: Marker)
    requires U32Point(m.center)
    requires m.center.x >= m.style.size && m.center.y >= m.style.size
    ensures ISpan(MarkerLimits(m)) == (2 * m.style.size, 2 * m.style.size)
    ensures m.center.x - MarkerLimits(m).min.x == MarkerLimits(m).max.x - m.center.x
  {
  }

  predicate IsSquare(s: MarkerStyle) {
    s.FilledSquare? || s.HollowSquare?
  }

  /** The four sides of a hollow square, in the order the source lists
      them: top, bottom, right, left. */
  function Sides(lo: Point<int>, hi: Point<int>): seq<seq<Point<int>>> {
    [Range(Point(lo.x, hi.y), Point(hi.x, hi.y)),
     Range(Point(lo.x, lo.y), Point(hi.x, lo.y)),
     Range(Point(hi.x, lo.y), Point(hi.x, hi.y)),
     Range(Point(lo.x, lo.y), Point(lo.x, hi.y))]
  }

  /** `Marker::get_mask` for the square styles: a filled square paints every
      point of its box, a hollow one the box's four sides as four masks,
      all in the style's colour. */
  function GetMask(m: Marker): (r: seq<Mask>)
    requires U32Point(m.center) && IsSquare(m.style)
    ensures m.style.FilledSquare? ==> |r| == 1
    ensures m.style.HollowSquare? ==> |r| == 4
    ensures forall k :: 0 <= k < |r| ==> r[k].color == m.style.color
  {
    var l := MarkerLimits(m);
    match m.style
    case FilledSquare(_, color) => [Mask(LimitRange(l), color)]
    case HollowSquare(_, color) =>
      var sides := Sides(l.min, l.max);
      [Mask(sides[0], color), Mask(sides[1], color), Mask(sides[2], color), Mask(sides[3], color)]
  }

  /** A filled square paints exactly the points of its box, each once, and
      so `(width + 1) (height + 1)` of them. */
  lemma FilledSquareMask(m: Marker, p: Point<int>)
    requires U32Point(m.center) && m.style.FilledSquare?
    ensures p in GetMask(m)[0].points <==> IContains(MarkerLimits(m), p)
    ensures var l := MarkerLimits(m);
            |GetMask(m)[0].points| == (l.max.x - l.min.x + 1) * (l.max.y - l.min.y + 1)
  {
    LimitRangeMembers(MarkerLimits(m), p);
    LimitRangeCount(MarkerLimits(m));
  }

  /** On the boundary of the box `[lo, hi]`. */
  predicate OnBoundary(lo: Point<int>, hi: Point<int>, p: Point<int>) {
    IContains(Limits(lo, hi), p) && (p.x == lo.x || p.x == hi.x || p.y == lo.y || p.y == hi.y)
  }

  /** A point is on one of the four sides of a box exactly when it is on
      the box's boundary. */
  lemma SidesAreBoundary(lo: Point<int>, hi: Point<int>, p: Point<int>)
    requires lo.x <= hi.x && lo.y <= hi.y
    ensures (exists k :: 0 <= k < 4 && p in Sides(lo, hi)[k]) <==> OnBoundary(lo, hi, p)
  {
    var s := Sides(lo, hi);
    LimitRangeMembers(Limits(Point(lo.x, hi.y), Point(hi.x, hi.y)), p);
    LimitRangeMembers(Limits(Point(lo.x, lo.y), Point(hi.x, lo.y)), p);
    LimitRangeMembers(Limits(Point(hi.x, lo.y), Point(hi.x, hi.y)), p);
    LimitRangeMembers(Limits(Point(lo.x, lo.y), Point(lo.x, hi.y)), p);
    assert s[0] == LimitRange(Limits(Point(lo.x, hi.y), Point(hi.x, hi.y)));
    assert s[1] == LimitRange(Limits(Point(lo.x, lo.y), Point(hi.x, lo.y)));
    assert s[2] == LimitRange(Limits(Point(hi.x, lo.y), Point(hi.x, hi.y)));
    assert s[3] == LimitRange(Limits(Point(lo.x, lo.y), Point(lo.x, hi.y)));
    forall k | 0 <= k < 4 && p in s[k] ensures OnBoundary(lo, hi, p) {
      assert k == 0 || k == 1 || k == 2 || k == 3;
    }
    if OnBoundary(lo, hi, p) {
      if p.y == hi.y { assert p in s[0]; }
      else if p.y == lo.y { assert p in s[1]; }
      else if p.x == hi.x { assert p in s[2]; }
      else { assert p in s[3]; }
    }
  }

  /** The hollow square paints exactly the boundary of the box the filled
      square of the same centre and size paints, so it is a subset of it. */
  lemma HollowSquareMask(m: Marker, p: Point<int>)
    requires U32Point(m.center) && m.style.HollowSquare?
    ensures var l := MarkerLimits(m);
            (exists k :: 0 <= k < 4 && p in GetMask(m)[k].points) <==> OnBoundary(l.min, l.max, p)
    ensures var filled := Marker(m.center, FilledSquare(m.style.size, m.style.color));
            (exists k :: 0 <= k < 4 && p in GetMask(m)[k].points) ==> p in GetMask(filled)[0].points
  {
    var l := MarkerLimits(m);
    var filled := Marker(m.center, FilledSquare(m.style.size, m.style.color));
    SidesAreBoundary(l.min, l.max, p);
    assert forall k :: 0 <= k < 4 ==> GetMask(m)[k].points == Sides(l.min, l.max)[k];
    assert MarkerLimits(filled) == l;
    FilledSquareMask(filled, p);
  }

  /** A marker of size 1 at (5, 5): the filled square is the 9 pixels of
      [4, 6] x [4, 6], and the hollow one leaves out only the centre. */
  lemma MarkerExample()
    ensures var f := Marker(Point(5, 5), FilledSquare(1, RED));
            MarkerLimits(f) == Limits(Point(4, 4), Point(6, 6)) && |GetMask(f)[0].points| == 9
    ensures var h := Marker(Point(5, 5), HollowSquare(1, RED));
            !exists k :: 0 <= k < 4 && Point(5, 5) in GetMask(h)[k].points
    ensures var h := Marker(Point(5, 5), HollowSquare(1, RED));
            Point(4, 6) in GetMask(h)[0].points
  {
    var f := Marker(Point(5, 5), FilledSquare(1, RED));
    var h := Marker(Point(5, 5), HollowSquare(1, RED));
    FilledSquareMask(f, Point(5, 5));
    HollowSquareMask(h, Point(5, 5));
    HollowSquareMask(h, Point(4, 6));
    SidesAreBoundary(Point(4, 4), Point(6, 6), Point(4, 6));
    assert OnBoundary(Point(4, 4), Point(6, 6), Point(4, 6));
    LimitRangeMembers(Limits(Point(4, 6), Point(6, 6)), Point(4, 6));
  }
}
