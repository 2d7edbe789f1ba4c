/** The pixel compositor: a row-major RGB buffer addressed with the origin
    at the lower left, the margins around the drawable area, and the
    square marker painted at each scaled data point. */
module Canvases {
  import opened Wrappers
  import opened Bytes
  import opened Ints
  import opened Points
  import opened Spans
  import opened Colors
  import opened Masks
  import Markers
  import PS = PlotSeries
  import Graphs

  const SUB_OVERFLOW := "attempt to subtract with overflow"
  const UNWRAP_NONE := "called `Option::unwrap()` on a `None` value"

  // ---------------------------------------------------------------------
  // Margins

  /** `BufferType`; the source's `None` variant is `NoBuffer` here. */
  datatype BufferType =
    | NoBuffer
    | Uniform(width: u32)
    | TopBottom(top: u32, bottom: u32)
    | LeftRight(left: u32, right: u32)
    | TopBottomLeftRight(top: u32, bottom: u32, left: u32, right: u32)

  datatype CanvasBuffer = CanvasBuffer(left: u32, top: u32, right: u32, bottom: u32)

  /** `CanvasBuffer::new`: no margin is a uniform margin of 0, a uniform
      margin is the same on all four sides, and the other kinds are not
      implemented. */
  function NewBuffer(bt: BufferType): (r: Result<CanvasBuffer>)
    ensures r.Success? <==> bt.NoBuffer? || bt.Uniform?
    ensures bt.Uniform? ==> r.value == CanvasBuffer(bt.width, bt.width, bt.width, bt.width)
    ensures r.Failure? ==> r.error == "Not implemented"
    decreases if bt.NoBuffer? then 1 else 0
  {
    match bt
    case NoBuffer => NewBuffer(Uniform(0))
    case Uniform(x) => Success(CanvasBuffer(x, x, x, x))
    case _ => Failure("Not implemented")
  }

  /** No margin is the same as a margin of 0 on every side. */
  lemma NoBufferIsZero()
    ensures NewBuffer(NoBuffer) == NewBuffer(Uniform(0)) == Success(CanvasBuffer(0, 0, 0, 0))
  {
  }

  // ---------------------------------------------------------------------
  // The pixel buffer

  /** `Canvas`: rows of pixels, the top row first, and the box of valid
      lower-left-origin coordinates. */
  datatype Canvas = Canvas(pixels: seq<seq<Rgb>>, limits: Limits<int>)

  /** A canvas of `limits.max.x + 1` by `limits.max.y + 1` pixels whose
      limits start at the origin. */
  predicate Valid(c: Canvas) {
    c.limits.min == Point(0, 0) && |c.pixels| == c.limits.max.y + 1
    && forall row :: 0 <= row < |c.pixels| ==> |c.pixels[row]| == c.limits.max.x + 1
  }

  /** The box `(0, 0)`–`(width - 1, height - 1)`; `width - 1` on a `u32`
      of 0 underflows. */
  function CanvasLimits(width: u32, height: u32): (r: Result<Limits<int>>)
    ensures r.Success? <==> width >= 1 && height >= 1
    ensures r.Success? ==> r.value.min == Point(0, 0) && ISpan(r.value) == (width - 1, height - 1)
  {
    if width < 1 || height < 1 then Failure(SUB_OVERFLOW)
    else Success(Limits(Point(0, 0), Point(width - 1, height - 1)))
  }

  /** `Canvas::new`: `height` rows of `width` background pixels. */
  function NewCanvas(width: u32, height: u32, background: Rgb): (r: Result<Canvas>)
    ensures r.Success? <==> width >= 1 && height >= 1
    ensures r.Success? ==>
              Valid(r.value) && |r.value.pixels| == height && r.value.limits.max == Point(width - 1, height - 1)
              && forall row, col :: 0 <= row < height && 0 <= col < width ==> r.value.pixels[row][col] == background
  {
    var pixels := seq(height, _ => seq(width, _ => background));
    match CanvasLimits(width, height)
    case Failure(e) => Failure(e)
    case Success(l) => Success(Canvas(pixels, l))
  }

  /** The pixel at lower-left-origin coordinates `p`: row 0 is the top. */
  function PixelAt(c: Canvas, p: Point<int>): Rgb
    requires Valid(c) && IContains(c.limits, p)
  {
    c.pixels[c.limits.max.y - p.y][p.x]
  }

  /** `set_pixel`: a point inside the limits paints its pixel, one outside
      is skipped; no other pixel changes. */
  function SetPixel(c: Canvas, p: Point<int>, color: Rgb): (r: Canvas)
    requires Valid(c)
    ensures Valid(r) && r.limits == c.limits
    ensures !IContains(c.limits, p) ==> r == c
  {
    if IContains(c.limits, p) then
      var y := c.limits.max.y - p.y;
      c.(pixels := c.pixels[y := c.pixels[y][p.x := color]])
    else c
  }

  /** In lower-left coordinates: after painting `p`, the pixel at `p` has
      the colour and every other pixel is as it was. */
  lemma SetPixelAt(c: Canvas, p: Point<int>, color: Rgb, q: Point<int>)
    requires Valid(c) && IContains(c.limits, q)
    ensures PixelAt(SetPixel(c, p, color), q) == if q == p then color else PixelAt(c, q)
  {
  }

  /** Some point of `ps` inside the limits lands on pixel `(row, col)`. */
  predicate Painted(ps: seq<Point<int>>, l: Limits<int>, row: int, col: int) {
    exists k :: 0 <= k < |ps| && IContains(l, ps[k]) && l.max.y - ps[k].y == row && ps[k].x == col
  }

  /** `set_pixels`: each point in turn through `set_pixel`. A pixel ends up
      in the colour exactly when some point inside the limits lands on it;
      every other pixel keeps its colour. */
  method SetPixels(c: Canvas, ps: seq<Point<int>>, color: Rgb) returns (r: Canvas)
    requires Valid(c)
    ensures Valid(r) && r.limits == c.limits
    ensures forall row, col :: 0 <= row < |c.pixels| && 0 <= col < |c.pixels[row]| ==>
              r.pixels[row][col] == if Painted(ps, c.limits, row, col) then color else c.pixels[row][col]
  {
    r := c;
    var i := 0;
    while i < |ps|
      invariant 0 <= i <= |ps|
      invariant Valid(r) && r.limits == c.limits
      invariant forall row, col :: 0 <= row < |c.pixels| && 0 <= col < |c.pixels[row]| ==>
                  r.pixels[row][col] == if Painted(ps[..i], c.limits, row, col) then color else c.pixels[row][col]
    {
      var before := r;
      r := SetPixel(r, ps[i], color);
      forall row, col | 0 <= row < |c.pixels| && 0 <= col < |c.pixels[row]|
        ensures r.pixels[row][col] == if Painted(ps[..i + 1], c.limits, row, col) then color else c.pixels[row][col]
      {
        PaintedSnoc(ps, i, c.limits, row, col);
      }
      i := i + 1;
    }
    assert ps[..i] == ps;
  }

  lemma PaintedSnoc(ps: seq<Point<int>>, i: int, l: Limits<int>, row: int, col: int)
    requires 0 <= i < |ps|
    ensures Painted(ps[..i + 1], l, row, col) <==>
              Painted(ps[..i], l, row, col)
              || (IContains(l, ps[i]) && l.max.y - ps[i].y == row && ps[i].x == col)
  {
    var pre := ps[..i + 1];
    assert pre[i] == ps[i];
    if Painted(ps[..i], l, row, col) {
      var k :| 0 <= k < i && IContains(l, ps[..i][k]) && l.max.y - ps[..i][k].y == row && ps[..i][k].x == col;
      assert pre[k] == ps[..i][k];
    }
    if Painted(pre, l, row, col) {
      var k :| 0 <= k < i + 1 && IContains(l, pre[k]) && l.max.y - pre[k].y == row && pre[k].x == col;
      if k < i {
        assert ps[..i][k] == pre[k];
      }
    }
  }

  // ---------------------------------------------------------------------
  // Bytes

  /** Channel `j` of a pixel: red, green, blue for 0, 1, 2. */
  function Channel(p: Rgb, j: int): byte {
    if j == 0 then p.r else if j == 1 then p.g else p.b
  }

  /** The bytes of one row: red, green, blue per pixel. */
  function RowBytes(row: seq<Rgb>): seq<byte> {
    if |row| == 0 then [] else [row[0].r, row[0].g, row[0].b] + RowBytes(row[1..])
  }

  /** `get_bytes`: the rows top to bottom, each through `RowBytes`. */
  function GetBytes(pixels: seq<seq<Rgb>>): seq<byte> {
    if |pixels| == 0 then [] else RowBytes(pixels[0]) + GetBytes(pixels[1..])
  }

  /** Byte `3 k + j` of a row is channel `j` of its pixel `k`. */
  lemma {:induction false} RowBytesIndex(row: seq<Rgb>, k: int, j: int)
    requires 0 <= k < |row| && 0 <= j < 3
    ensures |RowBytes(row)| == 3 * |row|
    ensures RowBytes(row)[3 * k + j] == Channel(row[k], j)
  {
    RowBytesLength(row);
    if k > 0 {
      RowBytesIndex(row[1..], k - 1, j);
      assert RowBytes(row)[3 * k + j] == RowBytes(row[1..])[3 * (k - 1) + j];
    }
  }

  lemma {:induction false} RowBytesLength(row: seq<Rgb>)
    ensures |RowBytes(row)| == 3 * |row|
  {
    if |row| > 0 {
      RowBytesLength(row[1..]);
    }
  }

  lemma {:induction false} GetBytesLength(pixels: seq<seq<Rgb>>, width: nat)
    requires forall row :: 0 <= row < |pixels| ==> |pixels[row]| == width
    ensures |GetBytes(pixels)| == 3 * width * |pixels|
  {
    if |pixels| > 0 {
      RowBytesLength(pixels[0]);
      GetBytesLength(pixels[1..], width);
    }
  }

  lemma IndexBelow(stride: nat, row: nat, rows: nat, off: nat)
    requires row < rows && off < stride
    ensures stride * row + off < stride * rows
    decreases rows
  {
    assert stride * rows == stride * (rows - 1) + stride;
    if row < rows - 1 {
      IndexBelow(stride, row, rows - 1, off);
    }
  }

  lemma StrideStep(stride: int, row: int, off: int)
    ensures stride * row + off - stride == stride * (row - 1) + off
  {
  }

  /** The bytes are row-major from the top row, three per pixel: byte
      `3 (row width + col) + j` is channel `j` of `pixels[row][col]`, and
      there are `3 width height` of them. */
  lemma {:induction false} GetBytesIndex(pixels: seq<seq<Rgb>>, width: nat, row: int, col: int, j: int)
    requires forall r :: 0 <= r < |pixels| ==> |pixels[r]| == width
    requires 0 <= row < |pixels| && 0 <= col < width && 0 <= j < 3
    ensures |GetBytes(pixels)| == 3 * width * |pixels|
    ensures 3 * width * row + (3 * col + j) < |GetBytes(pixels)|
    ensures GetBytes(pixels)[3 * width * row + (3 * col + j)] == Channel(pixels[row][col], j)
  {
    GetBytesLength(pixels, width);
    IndexBelow(3 * width, row, |pixels|, 3 * col + j);
    RowBytesLength(pixels[0]);
    if row == 0 {
      RowBytesIndex(pixels[0], col, j);
    } else {
      GetBytesIndex(pixels[1..], width, row - 1, col, j);
      StrideStep(3 * width, row, 3 * col + j);
      assert 3 * col + j < 3 * width;
      assert 3 * width * (row - 1) + (3 * col + j) >= 0;
    }
  }

  // ---------------------------------------------------------------------
  // The terminal canvas

  datatype TerminalCanvas<S> = TerminalCanvas(
    canvas: Canvas, buffer: CanvasBuffer, graph: Option<Graphs.Graph<S>>, limits: Limits<int>)

  /** `TerminalCanvas::new`: a background canvas, no margins, no graph. */
  function NewTerminal<S>(width: u32, height: u32, background: Rgb): (r: Result<TerminalCanvas<S>>)
    ensures r.Success? <==> width >= 1 && height >= 1
    ensures r.Success? ==>
              NewCanvas(width, height, background) == Success(r.value.canvas)
              && r.value.limits == r.value.canvas.limits
              && r.value.buffer == CanvasBuffer(0, 0, 0, 0) && r.value.graph.None?
  {
    match NewCanvas(width, height, background)
    case Failure(e) => Failure(e)
    case Success(c) =>
      NoBufferIsZero();
      Success(TerminalCanvas(c, NewBuffer(NoBuffer).value, None, c.limits))
  }

  /** `with_buffer`: the margins are replaced, or the kind is rejected. */
  function WithBuffer<S>(tc: TerminalCanvas<S>, bt: BufferType): (r: Result<TerminalCanvas<S>>)
    ensures r.Success? <==> NewBuffer(bt).Success?
    ensures r.Success? ==> r.value == tc.(buffer := NewBuffer(bt).value)
  {
    match NewBuffer(bt)
    case Failure(e) => Failure(e)
    case Success(b) => Success(tc.(buffer := b))
  }

  /** `with_graph`: a graph without series is rejected. */
  function WithGraph<S>(tc: TerminalCanvas<S>, g: Graphs.Graph<S>): (r: Result<TerminalCanvas<S>>)
    ensures r.Success? <==> |g.data| > 0
    ensures r.Success? ==> r.value == tc.(graph := Some(g))
    ensures r.Failure? ==> r.error == "Cannot add empty graph"
  {
    if |g.data| == 0 then Failure("Cannot add empty graph") else Success(tc.(graph := Some(g)))
  }

  /** The largest marker bound over the series; `bound` is the series'
      `max(bounding_width, bounding_height)`, which is not part of this
      model. */
  function MaxBound<S>(ss: seq<PS.Series<S>>, bound: S -> u32): (r: u32)
    requires |ss| > 0
    ensures forall i :: 0 <= i < |ss| ==> bound(ss[i].style) <= r
    ensures exists i :: 0 <= i < |ss| && r == bound(ss[i].style)
  {
    if |ss| == 1 then bound(ss[0].style)
    else
      var rest := MaxBound(ss[1..], bound);
      assert forall i :: 1 <= i < |ss| ==> ss[i] == ss[1..][i - 1];
      if bound(ss[0].style) >= rest then bound(ss[0].style) else rest
  }

  /** The margin the markers need: the largest bound, or 0 without a graph. */
  function MarkerMargin<S>(tc: TerminalCanvas<S>, bound: S -> u32): int
    requires tc.graph.Some? ==> |tc.graph.value.data| > 0
  {
    if tc.graph.None? then 0 else MaxBound(tc.graph.value.data, bound)
  }

  /** `get_drawable_limits`: the canvas box shrunk by the margins and, with
      a graph, by the largest marker bound on every side. The unsigned
      subtractions fail when a margin exceeds the canvas, and `unwrap` of
      the maximum fails for a graph without series. */
  function GetDrawableLimits<S>(tc: TerminalCanvas<S>, bound: S -> u32): (r: Result<Limits<int>>)
    ensures tc.graph.Some? && |tc.graph.value.data| == 0 ==> r.Failure?
    ensures (tc.graph.None? || |tc.graph.value.data| > 0) ==>
              var m := MarkerMargin(tc, bound);
              var b := tc.buffer;
              (r.Success? <==> b.right <= tc.limits.max.x && b.top <= tc.limits.max.y
                               && 0 <= tc.limits.max.x - b.right - m && 0 <= tc.limits.max.y - b.top - m)
              && (r.Success? ==>
                    r.value.min == Point(b.left + m, b.bottom + m)
                    && r.value.max == Point(tc.limits.max.x - b.right - m, tc.limits.max.y - b.top - m))
  {
    var b := tc.buffer;
    var min := Point(b.left as int, b.bottom as int);
    if b.right > tc.limits.max.x || b.top > tc.limits.max.y then Failure(SUB_OVERFLOW)
    else
      var max := Point(tc.limits.max.x - b.right, tc.limits.max.y - b.top);
      match tc.graph
      case None => Success(Limits(min, max))
      case Some(g) =>
        if |g.data| == 0 then Failure(UNWRAP_NONE)
        else
          var m := MaxBound(g.data, bound);
          if m > max.x || m > max.y then Failure(SUB_OVERFLOW)
          else Success(Limits(IAddScalar(min, m), Point(max.x - m, max.y - m)))
  }

  /** `get_marker_mask`: a filled square of side `2 size + 1` around the
      centre, columns left to right; the lower bounds are `u32`
      subtractions, and the other marker kinds are not implemented. */
  function GetMarkerMask(center: Point<int>, style: Markers.MarkerStyle): (r: Result<seq<Mask>>)
    ensures r.Success? <==> style.FilledSquare? && style.size <= center.x && style.size <= center.y
    ensures r.Success? ==> |r.value| == 1 && r.value[0].color == style.color
    ensures r.Failure? && !style.FilledSquare? ==> r.error == "Not implemented!"
  {
    match style
    case FilledSquare(size, color) =>
      if size > center.x || size > center.y then Failure(SUB_OVERFLOW)
      else Success([Mask(LimitRange(Limits(Point(center.x - size, center.y - size), IAddScalar(center, size))), color)])
    case _ => Failure("Not implemented!")
  }

  /** The square paints exactly the points within `size` of the centre in
      both coordinates, each once, `(2 size + 1)^2` of them. */
  lemma MarkerMaskPoints(center: Point<int>, style: Markers.MarkerStyle, p: Point<int>)
    requires GetMarkerMask(center, style).Success?
    ensures var s := style.size;
            (p in GetMarkerMask(center, style).value[0].points <==>
               center.x - s <= p.x <= center.x + s && center.y - s <= p.y <= center.y + s)
            && |GetMarkerMask(center, style).value[0].points| == (2 * s + 1) * (2 * s + 1)
  {
    var s := style.size;
    var l := Limits(Point(center.x - s, center.y - s), IAddScalar(center, s));
    LimitRangeMembers(l, p);
    LimitRangeCount(l);
  }

  /** Where the source's subtraction does not underflow, the canvas' square
      is the marker's own filled-square mask. */
  lemma MarkerMaskIsMarker(center: Point<int>, style: Markers.MarkerStyle)
    requires Markers.U32Point(center) && style.FilledSquare?
    requires style.size <= center.x && style.size <= center.y
    ensures GetMarkerMask(center, style) == Success(Markers.GetMask(Markers.Marker(center, style)))
  {
  }

  /** The point of the margins: a square marker no larger than the marker
      margin, centred anywhere in the drawable area, can be drawn and
      lies entirely on the canvas. */
  lemma MarkersFitCanvas<S>(tc: TerminalCanvas<S>, bound: S -> u32, center: Point<int>,
                            style: Markers.MarkerStyle, p: Point<int>)
    requires tc.limits.min == Point(0, 0)
    requires tc.graph.Some? && |tc.graph.value.data| > 0
    requires GetDrawableLimits(tc, bound).Success?
    requires IContains(GetDrawableLimits(tc, bound).value, center)
    requires style.FilledSquare? && style.size <= MarkerMargin(tc, bound)
    ensures GetMarkerMask(center, style).Success?
    ensures p in GetMarkerMask(center, style).value[0].points ==> IContains(tc.limits, p)
  {
    MarkerMaskPoints(center, style, p);
  }

  /** A 100 by 100 canvas with a uniform buffer of 5 and no graph yet, so
      no marker margin, draws in `(5, 5)`–`(94, 94)`. */
  lemma DrawableExample(tc: TerminalCanvas<()>, bound: (()) -> u32)
    requires tc.limits == Limits(Point(0, 0), Point(99, 99)) && tc.buffer == CanvasBuffer(5, 5, 5, 5)
    requires tc.graph.None?
    ensures GetDrawableLimits(tc, bound) == Success(Limits(Point(5, 5), Point(94, 94)))
  {
  }
}
