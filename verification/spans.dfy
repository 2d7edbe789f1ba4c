/** `Limits`: an axis-aligned box given by its lower-left and upper-right
    corners, its span, and the helpers the plotting code uses on boxes —
    membership, the integer points of a box, and the bounding box of a
    point collection. The helpers are used by the source but not part of
    this model's source files; they are defined here as the code uses them. */
module Spans {
  import opened Wrappers
  import opened Points

  datatype Limits<T> = Limits(min: Point<T>, max: Point<T>)

  /** `Limits::span` on real boxes: `max - min`, per axis. */
  function Span(l: Limits<real>): (r: (real, real))
    ensures l.min.x + r.0 == l.max.x && l.min.y + r.1 == l.max.y
    ensures l.min.x <= l.max.x ==> r.0 >= 0.0
    ensures l.min.y <= l.max.y ==> r.1 >= 0.0
    ensures l.min == l.max ==> r == (0.0, 0.0)
  {
    var d := Sub(l.max, l.min);
    (d.x, d.y)
  }

  /** `Limits::span` on integer boxes. */
  function ISpan(l: Limits<int>): (r: (int, int))
    ensures l.min.x + r.0 == l.max.x && l.min.y + r.1 == l.max.y
    ensures l.min.x <= l.max.x ==> r.0 >= 0
    ensures l.min.y <= l.max.y ==> r.1 >= 0
    ensures l.min == l.max ==> r == (0, 0)
  {
    var d := ISub(l.max, l.min);
    (d.x, d.y)
  }

  /** `Limits::contains`: inclusive on both ends of both axes. */
  predicate Contains(l: Limits<real>, p: Point<real>) {
    l.min.x <= p.x <= l.max.x && l.min.y <= p.y <= l.max.y
  }

  predicate IContains(l: Limits<int>, p: Point<int>) {
    l.min.x <= p.x <= l.max.x && l.min.y <= p.y <= l.max.y
  }

  /** The real box with the same corners as an integer box. */
  function ToRealLimits(l: Limits<int>): Limits<real> {
    Limits(ToReal(l.min), ToReal(l.max))
  }

  // ---------------------------------------------------------------------
  // Integer points of a box (`Point::limit_range`, `Point::range`).

  /** The column `x` from `ylo` to `yhi` inclusive, bottom to top. */
  function Column(x: int, ylo: int, yhi: int): (r: seq<Point<int>>)
    ensures |r| == if ylo <= yhi then yhi - ylo + 1 else 0
    ensures forall i :: 0 <= i < |r| ==> r[i] == Point(x, ylo + i)
  {
    if ylo <= yhi then seq(yhi - ylo + 1, i => Point(x, ylo + i)) else []
  }

  /** Every integer point of the box, column by column from left to right,
      each column from bottom to top. */
  function LimitRange(l: Limits<int>): (r: seq<Point<int>>)
    decreases l.max.x - l.min.x
  {
    if l.min.x > l.max.x then []
    else Column(l.min.x, l.min.y, l.max.y)
         + LimitRange(Limits(Point(l.min.x + 1, l.min.y), l.max))
  }

  /** The straight inclusive run from `a` to `b`: the points of their box. */
  function Range(a: Point<int>, b: Point<int>): seq<Point<int>> {
    LimitRange(Limits(a, b))
  }

  /** A point is produced exactly when it lies in the box. */
  lemma {:induction false} LimitRangeMembers(l: Limits<int>, p: Point<int>)
    ensures p in LimitRange(l) <==> IContains(l, p)
    decreases l.max.x - l.min.x
  {
    if l.min.x <= l.max.x {
      var rest := Limits(Point(l.min.x + 1, l.min.y), l.max);
      LimitRangeMembers(rest, p);
      var col := Column(l.min.x, l.min.y, l.max.y);
      assert p in col <==> p.x == l.min.x && l.min.y <= p.y <= l.max.y by {
        if p.x == l.min.x && l.min.y <= p.y <= l.max.y {
          assert col[p.y - l.min.y] == p;
        }
      }
    }
  }

  /** The box has `(w + 1) * (h + 1)` integer points when its corners are
      ordered, and none otherwise. */
  lemma {:induction false} LimitRangeCount(l: Limits<int>)
    ensures |LimitRange(l)| ==
      if l.min.x <= l.max.x && l.min.y <= l.max.y
      then (l.max.x - l.min.x + 1) * (l.max.y - l.min.y + 1) else 0
    decreases l.max.x - l.min.x
  {
    if l.min.x <= l.max.x {
      LimitRangeCount(Limits(Point(l.min.x + 1, l.min.y), l.max));
    }
  }

  /** No integer point is produced twice. */
  lemma {:induction false} LimitRangeDistinct(l: Limits<int>)
    ensures forall i, j :: 0 <= i < j < |LimitRange(l)| ==> LimitRange(l)[i] != LimitRange(l)[j]
    decreases l.max.x - l.min.x
  {
    if l.min.x <= l.max.x {
      var rest := Limits(Point(l.min.x + 1, l.min.y), l.max);
      LimitRangeDistinct(rest);
      var col := Column(l.min.x, l.min.y, l.max.y);
      var r := LimitRange(rest);
      forall k | 0 <= k < |r| ensures r[k].x > l.min.x {
        LimitRangeMembers(rest, r[k]);
      }
      assert LimitRange(l) == col + r;
    }
  }

  /** A horizontal run from `a` to `b` visits `a.x .. b.x` in order at height `a.y`. */
  lemma RangeHorizontal(a: Point<int>, b: Point<int>)
    requires a.y == b.y && a.x <= b.x
    ensures |Range(a, b)| == b.x - a.x + 1
    ensures forall i :: 0 <= i < |Range(a, b)| ==> Range(a, b)[i] == Point(a.x + i, a.y)
  {
    RangeHorizontalFrom(a, b);
  }

  lemma {:induction false} RangeHorizontalFrom(a: Point<int>, b: Point<int>)
    requires a.y == b.y && a.x <= b.x + 1
    ensures |Range(a, b)| == b.x - a.x + 1
    ensures forall i :: 0 <= i < |Range(a, b)| ==> Range(a, b)[i] == Point(a.x + i, a.y)
    decreases b.x - a.x
  {
    if a.x <= b.x {
      RangeHorizontalFrom(Point(a.x + 1, a.y), b);
    }
  }

  /** A vertical run from `a` to `b` visits `a.y .. b.y` in order at `a.x`. */
  lemma RangeVertical(a: Point<int>, b: Point<int>)
    requires a.x == b.x && a.y <= b.y
    ensures |Range(a, b)| == b.y - a.y + 1
    ensures forall i :: 0 <= i < |Range(a, b)| ==> Range(a, b)[i] == Point(a.x, a.y + i)
  {
    var rest := Limits(Point(a.x + 1, a.y), b);
    assert LimitRange(rest) == [];
  }

  // ---------------------------------------------------------------------
  // Bounding box of a point collection (`PointCollection::limits`).

  function MinR(a: real, b: real): real { if a <= b then a else b }
  function MaxR(a: real, b: real): real { if a >= b then a else b }

  /** The smallest box holding every point, or `None` for no points. */
  function BoundingBox(ps: seq<Point<real>>): (r: Option<Limits<real>>)
    ensures r.Some? <==> |ps| > 0
    ensures r.Some? ==> forall i :: 0 <= i < |ps| ==> Contains(r.value, ps[i])
    ensures r.Some? ==> exists i :: 0 <= i < |ps| && ps[i].x == r.value.min.x
    ensures r.Some? ==> exists i :: 0 <= i < |ps| && ps[i].y == r.value.min.y
    ensures r.Some? ==> exists i :: 0 <= i < |ps| && ps[i].x == r.value.max.x
    ensures r.Some? ==> exists i :: 0 <= i < |ps| && ps[i].y == r.value.max.y
  {
    if |ps| == 0 then None
    else if |ps| == 1 then Some(Limits(ps[0], ps[0]))
    else
      var b := BoundingBox(ps[1..]).value;
      var r := Limits(Point(MinR(ps[0].x, b.min.x), MinR(ps[0].y, b.min.y)),
                      Point(MaxR(ps[0].x, b.max.x), MaxR(ps[0].y, b.max.y)));
      assert forall i :: 1 <= i < |ps| ==> ps[i] == ps[1..][i - 1];
      Some(r)
  }

  /** A box holding every point contains the bounding box: it is the smallest. */
  lemma BoundingBoxSmallest(ps: seq<Point<real>>, l: Limits<real>)
    requires |ps| > 0
    requires forall i :: 0 <= i < |ps| ==> Contains(l, ps[i])
    ensures Contains(l, BoundingBox(ps).value.min) && Contains(l, BoundingBox(ps).value.max)
  {
    var b := BoundingBox(ps).value;
    var i1 :| 0 <= i1 < |ps| && ps[i1].x == b.min.x;
    var i2 :| 0 <= i2 < |ps| && ps[i2].y == b.min.y;
    var i3 :| 0 <= i3 < |ps| && ps[i3].x == b.max.x;
    var i4 :| 0 <= i4 < |ps| && ps[i4].y == b.max.y;
    assert Contains(l, ps[i1]) && Contains(l, ps[i2]) && Contains(l, ps[i3]) && Contains(l, ps[i4]);
  }

  /** A box that holds every point and whose four sides each touch one of
      them is the bounding box: the bounding box is the only such box. */
  lemma BoundingBoxUnique(ps: seq<Point<real>>, l: Limits<real>, i1: nat, i2: nat, i3: nat, i4: nat)
    requires i1 < |ps| && i2 < |ps| && i3 < |ps| && i4 < |ps|
    requires forall p :: p in ps ==> Contains(l, p)
    requires ps[i1].x == l.min.x && ps[i2].y == l.min.y && ps[i3].x == l.max.x && ps[i4].y == l.max.y
    ensures BoundingBox(ps) == Some(l)
  {
    forall i | 0 <= i < |ps|
      ensures Contains(l, ps[i])
    {
      assert ps[i] in ps;
    }
    BoundingBoxSmallest(ps, l);
    var b := BoundingBox(ps).value;
    assert Contains(b, ps[i1]) && Contains(b, ps[i2]) && Contains(b, ps[i3]) && Contains(b, ps[i4]);
    assert b.min.x == l.min.x && b.min.y == l.min.y && b.max.x == l.max.x && b.max.y == l.max.y;
    assert b.min == l.min && b.max == l.max;
  }

  // ---------------------------------------------------------------------
  // Moving and rescaling boxes (`Limits::shift_by`, `Limits::scale_to`,
  // `Point::scale_to`), as the line and graph code use them.

  /** Both corners moved by `amount`. */
  function ShiftLimits(l: Limits<real>, amount: Point<real>): (r: Limits<real>)
    ensures Span(r) == Span(l)
    ensures Sub(r.min, amount) == l.min && Sub(r.max, amount) == l.max
  {
    Limits(Add(l.min, amount), Add(l.max, amount))
  }

  /** One coordinate rescaled from a span of `oldSpan` to one of `newSpan`;
      a zero old span sends every value to `mid`. */
  function ScaleCoord(v: real, oldSpan: real, newSpan: real, mid: real): real {
    if oldSpan == 0.0 then mid else v * (newSpan / oldSpan)
  }

  /** The midpoint of a box. */
  function Mid(l: Limits<real>): Point<real> {
    Point((l.min.x + l.max.x) / 2.0, (l.min.y + l.max.y) / 2.0)
  }

  /** `Point::scale_to`: each axis rescaled by the ratio of the spans, or
      sent to the new box's midpoint when the old span on that axis is 0. */
  function ScalePoint(p: Point<real>, src: Limits<real>, dst: Limits<real>): Point<real> {
    Point(ScaleCoord(p.x, Span(src).0, Span(dst).0, Mid(dst).x),
          ScaleCoord(p.y, Span(src).1, Span(dst).1, Mid(dst).y))
  }

  function ScaleLimits(l: Limits<real>, src: Limits<real>, dst: Limits<real>): Limits<real> {
    Limits(ScalePoint(l.min, src, dst), ScalePoint(l.max, src, dst))
  }

  /** Rescaling is linear: it sends 0 to 0 and the old span to the new one,
      and it keeps order when both spans are positive. */
  lemma ScaleCoordLinear(a: real, b: real, oldSpan: real, newSpan: real, mid: real)
    requires oldSpan != 0.0
    ensures ScaleCoord(0.0, oldSpan, newSpan, mid) == 0.0
    ensures ScaleCoord(oldSpan, oldSpan, newSpan, mid) == newSpan
    ensures ScaleCoord(b, oldSpan, newSpan, mid) - ScaleCoord(a, oldSpan, newSpan, mid)
         == (b - a) * (newSpan / oldSpan)
    ensures oldSpan > 0.0 && newSpan >= 0.0 && a <= b ==>
      ScaleCoord(a, oldSpan, newSpan, mid) <= ScaleCoord(b, oldSpan, newSpan, mid)
  {
    var f := newSpan / oldSpan;
    assert oldSpan * f == newSpan;
    assert b * f - a * f == (b - a) * f;
    if oldSpan > 0.0 && newSpan >= 0.0 && a <= b {
      assert f >= 0.0;
      assert (b - a) * f >= 0.0;
    }
  }

  /** A box that starts at the origin is carried onto the new box's span:
      its far corner lands on `(span_x, span_y)` of the new box. */
  lemma ScaleFromOrigin(src: Limits<real>, dst: Limits<real>)
    requires Span(src).0 != 0.0 && Span(src).1 != 0.0
    ensures ScalePoint(Point(0.0, 0.0), src, dst) == Point(0.0, 0.0)
    ensures ScalePoint(Point(Span(src).0, Span(src).1), src, dst) == Point(Span(dst).0, Span(dst).1)
  {
    ScaleCoordLinear(0.0, 0.0, Span(src).0, Span(dst).0, Mid(dst).x);
    ScaleCoordLinear(0.0, 0.0, Span(src).1, Span(dst).1, Mid(dst).y);
  }
}
