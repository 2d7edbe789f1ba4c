/** `Series`: the points of one data set together with its drawing style.
    The style is a type parameter here: it is carried along unchanged by
    every operation below. Scalar arithmetic maps over the points. */
module PlotSeries {
  import Points
  import opened Spans

  type Point = Points.Point<real>

  datatype Series<S> = Series(data: seq<Point>, style: S)

  /** Every point mapped through `f`, in order, style untouched. */
  function Map<S>(s: Series<S>, f: Point -> Point): (r: Series<S>)
    ensures |r.data| == |s.data| && r.style == s.style
    ensures forall i :: 0 <= i < |s.data| ==> r.data[i] == f(s.data[i])
  {
    Series(seq(|s.data|, i requires 0 <= i < |s.data| => f(s.data[i])), s.style)
  }

  /** `Series + f32`. */
  function Add<S>(s: Series<S>, v: real): (r: Series<S>)
    ensures |r.data| == |s.data| && r.style == s.style
    ensures forall i :: 0 <= i < |s.data| ==> r.data[i] == Points.AddScalar(s.data[i], v)
  {
    Map(s, p => Points.AddScalar(p, v))
  }

  /** `Series - f32`. */
  function Sub<S>(s: Series<S>, v: real): (r: Series<S>)
    ensures |r.data| == |s.data| && r.style == s.style
    ensures forall i :: 0 <= i < |s.data| ==> r.data[i] == Points.SubScalar(s.data[i], v)
  {
    Map(s, p => Points.SubScalar(p, v))
  }

  /** `Series * f32`. */
  function Mul<S>(s: Series<S>, v: real): (r: Series<S>)
    ensures |r.data| == |s.data| && r.style == s.style
    ensures forall i :: 0 <= i < |s.data| ==> r.data[i] == Points.Mul(s.data[i], v)
  {
    Map(s, p => Points.Mul(p, v))
  }

  /** `Series / f32`. */
  function Div<S>(s: Series<S>, v: real): (r: Series<S>)
    requires v != 0.0
    ensures |r.data| == |s.data| && r.style == s.style
    ensures forall i :: 0 <= i < |s.data| ==> r.data[i] == Points.Div(s.data[i], v)
  {
    Map(s, p requires v != 0.0 => Points.Div(p, v))
  }

  /** Subtracting a scalar undoes adding it, point by point. */
  lemma AddSubInverse<S>(s: Series<S>, v: real)
    ensures Sub(Add(s, v), v) == s
  {
    var r := Sub(Add(s, v), v);
    forall i | 0 <= i < |s.data| ensures r.data[i] == s.data[i] {
      Points.ScalarIsDiagonal(s.data[i], v);
    }
    assert r.data == s.data;
  }

  /** Dividing by a non-zero scalar undoes multiplying by it. */
  lemma MulDivInverse<S>(s: Series<S>, v: real)
    requires v != 0.0
    ensures Div(Mul(s, v), v) == s
  {
    var r := Div(Mul(s, v), v);
    forall i | 0 <= i < |s.data| ensures r.data[i] == s.data[i] {
      Points.MulDivInverse(s.data[i], v);
    }
    assert r.data == s.data;
  }

  // ---------------------------------------------------------------------
  // The `Series` operations the graph uses (`data`, `clone_with`,
  // `shift_by`, `scale_to`), defined point by point.

  /** The same style with other points. */
  function CloneWith<S>(s: Series<S>, data: seq<Point>): (r: Series<S>)
    ensures r.data == data && r.style == s.style
  {
    Series(data, s.style)
  }

  function ShiftBy<S>(s: Series<S>, amount: Point): Series<S> {
    Map(s, p => Points.Add(p, amount))
  }

  function ScaleTo<S>(s: Series<S>, src: Limits<real>, dst: Limits<real>): Series<S> {
    Map(s, p => ScalePoint(p, src, dst))
  }

  /** Shifting by `a` and then by `-a` gives back the series. */
  lemma ShiftByInverse<S>(s: Series<S>, a: Point)
    ensures ShiftBy(ShiftBy(s, a), Points.Mul(a, -1.0)) == s
  {
    var r := ShiftBy(ShiftBy(s, a), Points.Mul(a, -1.0));
    forall i | 0 <= i < |s.data| ensures r.data[i] == s.data[i] {
      assert r.data[i] == Points.Add(Points.Add(s.data[i], a), Points.Mul(a, -1.0));
    }
    assert r.data == s.data;
  }

  /** The worked example of `Series + f32` on two points. */
  lemma SeriesExample()
    ensures Add(Series([Points.Point(1.0, 2.0), Points.Point(3.0, 4.0)], ()), 0.5).data
         == [Points.Point(1.5, 2.5), Points.Point(3.5, 4.5)]
  {
    var r := Add(Series([Points.Point(1.0, 2.0), Points.Point(3.0, 4.0)], ()), 0.5);
    assert r.data[0] == Points.Point(1.5, 2.5);
    assert r.data[1] == Points.Point(3.5, 4.5);
  }
}
