/** `Point`: a pair of coordinates with component-wise arithmetic. The
    floating-point coordinates of the plotting code are modelled as `real`,
    the pixel coordinates (`u32`, `i32`) as `int` with explicit saturating
    conversions. */
module Points {
  import opened Ints
  import opened Wrappers

  datatype Point<T> = Point(x: T, y: T)

  // ---------------------------------------------------------------------
  // Arithmetic on real points (`impl Add/Sub/Mul/Div for Point`).

  function Add(p: Point<real>, q: Point<real>): (r: Point<real>) {
    Point(p.x + q.x, p.y + q.y)
  }

  function Sub(p: Point<real>, q: Point<real>): (r: Point<real>) {
    Point(p.x - q.x, p.y - q.y)
  }

  function AddScalar(p: Point<real>, s: real): (r: Point<real>) {
    Point(p.x + s, p.y + s)
  }

  function SubScalar(p: Point<real>, s: real): (r: Point<real>) {
    Point(p.x - s, p.y - s)
  }

  function Mul(p: Point<real>, s: real): (r: Point<real>) {
    Point(p.x * s, p.y * s)
  }

  function Div(p: Point<real>, s: real): (r: Point<real>)
    requires s != 0.0
  {
    Point(p.x / s, p.y / s)
  }

  /** Subtracting a point undoes adding it, and the other way round. */
  lemma AddSubInverse(p: Point<real>, q: Point<real>)
    ensures Sub(Add(p, q), q) == p
    ensures Add(Sub(p, q), q) == p
  {
  }

  /** Point addition is commutative and associative. */
  lemma AddLaws(p: Point<real>, q: Point<real>, w: Point<real>)
    ensures Add(p, q) == Add(q, p)
    ensures Add(Add(p, q), w) == Add(p, Add(q, w))
  {
  }

  /** A scalar acts on both coordinates: adding `s` is adding the point `(s, s)`. */
  lemma ScalarIsDiagonal(p: Point<real>, s: real)
    ensures AddScalar(p, s) == Add(p, Point(s, s))
    ensures SubScalar(p, s) == Sub(p, Point(s, s))
    ensures SubScalar(AddScalar(p, s), s) == p
  {
  }

  /** Dividing by a non-zero scalar undoes multiplying by it. */
  lemma MulDivInverse(p: Point<real>, s: real)
    requires s != 0.0
    ensures Div(Mul(p, s), s) == p
    ensures Mul(Div(p, s), s) == p
  {
    CancelScalar(p.x, s);
    CancelScalar(p.y, s);
    var m := Mul(p, s);
    assert m.x == p.x * s && m.y == p.y * s;
    assert Div(m, s).x == p.x && Div(m, s).y == p.y;
    var d := Div(p, s);
    assert Mul(d, s).x == p.x && Mul(d, s).y == p.y;
  }

  lemma CancelScalar(a: real, s: real)
    requires s != 0.0
    ensures (a * s) / s == a && (a / s) * s == a
  {
    assert (a * s) / s * s == a * s;
    assert (a / s) * s == a;
  }

  /** Scaling distributes over point addition. */
  lemma MulDistributes(p: Point<real>, q: Point<real>, s: real)
    ensures Mul(Add(p, q), s) == Add(Mul(p, s), Mul(q, s))
  {
    var l := Mul(Add(p, q), s);
    var r := Add(Mul(p, s), Mul(q, s));
    assert l.x == (p.x + q.x) * s == p.x * s + q.x * s == r.x;
    assert l.y == (p.y + q.y) * s == p.y * s + q.y * s == r.y;
  }

  /** The worked examples beside the operators. */
  lemma PointExamples()
    ensures Add(Point(10.0, 15.5), Point(5.5, 7.5)) == Point(15.5, 23.0)
    ensures Sub(Point(10.0, 15.5), Point(5.5, 7.5)) == Point(4.5, 8.0)
    ensures AddScalar(Point(10.0, 15.5), 15.5) == Point(25.5, 31.0)
    ensures SubScalar(Point(10.0, 15.5), 15.5) == Point(-5.5, 0.0)
    ensures Mul(Point(10.0, 15.5), 3.0) == Point(30.0, 46.5)
    ensures Div(Point(10.0, 15.0), 5.0) == Point(2.0, 3.0)
  {
  }

  // ---------------------------------------------------------------------
  // Integer points.

  function IAdd(p: Point<int>, q: Point<int>): Point<int> {
    Point(p.x + q.x, p.y + q.y)
  }

  function ISub(p: Point<int>, q: Point<int>): Point<int> {
    Point(p.x - q.x, p.y - q.y)
  }

  function IAddScalar(p: Point<int>, s: int): Point<int> {
    Point(p.x + s, p.y + s)
  }

  /** `Point<u32> - u32`: plain `-` on `u32`, which panics on underflow. */
  function U32SubScalar(p: Point<int>, s: int): (r: Option<Point<int>>)
    ensures r.Some? <==> s <= p.x && s <= p.y
    ensures r.Some? ==> r.value.x + s == p.x && r.value.y + s == p.y
  {
    if s <= p.x && s <= p.y then Some(Point(p.x - s, p.y - s)) else None
  }

  /** Saturating conversion of both coordinates to `u32`. */
  function ToU32(p: Point<int>): (r: Point<int>)
    ensures 0 <= r.x <= U32_MAX && 0 <= r.y <= U32_MAX
    ensures 0 <= p.x <= U32_MAX && 0 <= p.y <= U32_MAX ==> r == p
  {
    Point(SatU32(p.x), SatU32(p.y))
  }

  /** Saturating conversion of both coordinates to `i32`. */
  function ToI32(p: Point<int>): (r: Point<int>)
    ensures I32_MIN <= r.x <= I32_MAX && I32_MIN <= r.y <= I32_MAX
    ensures I32_MIN <= p.x <= I32_MAX && I32_MIN <= p.y <= I32_MAX ==> r == p
  {
    Point(SatI32(p.x), SatI32(p.y))
  }

  /** A real point converted to `i32`: truncation toward zero, then saturation. */
  function RealToI32Point(p: Point<real>): (r: Point<int>)
    ensures I32_MIN <= r.x <= I32_MAX && I32_MIN <= r.y <= I32_MAX
  {
    Point(RealToI32(p.x), RealToI32(p.y))
  }

  /** A real point converted to `u32`: truncation toward zero, then saturation. */
  function RealToU32Point(p: Point<real>): (r: Point<int>)
    ensures 0 <= r.x <= U32_MAX && 0 <= r.y <= U32_MAX
  {
    Point(RealToU32(p.x), RealToU32(p.y))
  }

  function ToReal(p: Point<int>): (r: Point<real>)
    ensures r.x.Floor == p.x && r.y.Floor == p.y
  {
    Point(p.x as real, p.y as real)
  }

  /** `Point<f64>::floor`, both coordinates. */
  function FloorPoint(p: Point<real>): (r: Point<int>)
    ensures r.x as real <= p.x < r.x as real + 1.0
    ensures r.y as real <= p.y < r.y as real + 1.0
  {
    Point(Floor(p.x), Floor(p.y))
  }

  /** `Point<f64>::ceil`, both coordinates. */
  function CeilPoint(p: Point<real>): (r: Point<int>)
    ensures p.x <= r.x as real < p.x + 1.0
    ensures p.y <= r.y as real < p.y + 1.0
  {
    Point(Ceil(p.x), Ceil(p.y))
  }

  /** Saturation never moves two values further apart, so neighbouring
      pixels stay neighbours. */
  lemma SatU32Lipschitz(a: int, b: int)
    ensures -1 <= a - b <= 1 ==> -1 <= SatU32(a) - SatU32(b) <= 1
    ensures a <= b ==> SatU32(a) <= SatU32(b)
  {
  }

  /** Chebyshev distance of two real points (`Point::dist`). */
  function Dist(a: Point<real>, b: Point<real>): (r: real)
    ensures r >= 0.0
    ensures r == 0.0 <==> a == b
    ensures a.y == b.y ==> r == Abs(a.x - b.x)
    ensures a.x == b.x ==> r == Abs(a.y - b.y)
  {
    var dx := Abs(a.x - b.x);
    var dy := Abs(a.y - b.y);
    if dx >= dy then dx else dy
  }

  function Abs(v: real): (r: real)
    ensures r >= 0.0 && (r == v || r == -v)
  {
    if v >= 0.0 then v else -v
  }
}
