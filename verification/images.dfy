/** Placing an image in the terminal: the cell a pixel position falls in
    (1-based row and column) and the pixel offset inside that cell, the
    centred placement, and the pixel size an image format implies. The
    window size is a parameter; drawing and cursor movement are terminal
    I/O. */
module Images {
  import opened Wrappers
  import opened Ints
  import CtrlSeq
  import opened WindowCtrl

  const DIV_ZERO := "attempt to divide by zero"
  const ADD_OVERFLOW := "attempt to add with overflow"
  const SUB_OVERFLOW := "attempt to subtract with overflow"
  const OUTSIDE_WINDOW := "PositioningOutsideTerminalWindow"

  datatype PositioningType = ExactPixel(x: u32, y: u32) | Centered

  datatype PositionDetails = PositionDetails(row: int, col: int, offsetX: int, offsetY: int)

  // ---------------------------------------------------------------------
  // Arithmetic

  lemma MulMonotone(a: int, b: int, d: nat)
    requires a <= b
    ensures a * d <= b * d
  {
    assert b * d - a * d == (b - a) * d;
    WindowCtrl.NonNegProduct(b - a, d);
  }

  /** Euclidean division is the only way to write `n` as `q d + m` with
      `0 <= m < d`. */
  lemma DivUnique(n: nat, d: nat, q: int, m: int)
    requires d > 0 && q >= 0 && 0 <= m < d && q * d + m == n
    ensures q == n / d && m == n % d
  {
    var q0, m0 := n / d, n % d;
    assert q0 * d + m0 == n;
    assert (q + 1) * d == q * d + d;
    assert (q0 + 1) * d == q0 * d + d;
    if q < q0 {
      MulMonotone(q + 1, q0, d);
      assert false;
    } else if q > q0 {
      MulMonotone(q0 + 1, q, d);
      assert false;
    }
  }

  // ---------------------------------------------------------------------
  // Cell of a pixel

  /** The row, column and offsets `display_at_position` computes for a
      pixel: `y / pix_per_row + 1`, `x / pix_per_col + 1`, and the
      remainders. A cell size of 0 divides by zero, and a `u32` row or
      column of `u32::MAX + 1` overflows. */
  function CellOf(ws: WindowSize, x: u32, y: u32): (r: Result<PositionDetails>)
    ensures r.Success? <==>
              ws.pixPerRow > 0 && ws.pixPerCol > 0
              && !(ws.pixPerRow == 1 && y == U32_MAX) && !(ws.pixPerCol == 1 && x == U32_MAX)
    ensures r.Success? ==>
              var d := r.value;
              d.row >= 1 && d.col >= 1
              && 0 <= d.offsetX < ws.pixPerCol && 0 <= d.offsetY < ws.pixPerRow
              && (d.col - 1) * ws.pixPerCol + d.offsetX == x
              && (d.row - 1) * ws.pixPerRow + d.offsetY == y
  {
    if ws.pixPerRow == 0 then Failure(DIV_ZERO)
    else if y / ws.pixPerRow + 1 > U32_MAX then Failure(ADD_OVERFLOW)
    else if ws.pixPerCol == 0 then Failure(DIV_ZERO)
    else if x / ws.pixPerCol + 1 > U32_MAX then Failure(ADD_OVERFLOW)
    else
      HalfBound(x, ws.pixPerCol);
      HalfBound(y, ws.pixPerRow);
      var (qx, mx) := Split(x, ws.pixPerCol);
      var (qy, my) := Split(y, ws.pixPerRow);
      Success(PositionDetails(qy + 1, qx + 1, mx, my))
  }

  /** Quotient and remainder of `n / d`. */
  function Split(n: nat, d: nat): (r: (nat, nat))
    requires d > 0
    ensures r.0 * d + r.1 == n && r.1 < d
    ensures r.0 == n / d && r.1 == n % d
  {
    (n / d, n % d)
  }

  /** Dividing a `u32` by at least 2 leaves room to add 1. */
  lemma HalfBound(n: u32, d: nat)
    requires d > 0
    ensures n / d + 1 > U32_MAX <==> d == 1 && n == U32_MAX
  {
    if d >= 2 {
      var q := n / d;
      assert q * d <= n by {
        assert q * d + n % d == n;
      }
      MulMonotone(2, d, q);
    }
  }

  /** The cell and offsets are the only ones that name the pixel: any
      1-based column and in-cell offset that add up to `x` are the ones
      computed, and the same for rows. */
  lemma CellOfUnique(ws: WindowSize, x: u32, y: u32, col: int, offsetX: int, row: int, offsetY: int)
    requires CellOf(ws, x, y).Success?
    requires col >= 1 && 0 <= offsetX < ws.pixPerCol && (col - 1) * ws.pixPerCol + offsetX == x
    requires row >= 1 && 0 <= offsetY < ws.pixPerRow && (row - 1) * ws.pixPerRow + offsetY == y
    ensures CellOf(ws, x, y).value == PositionDetails(row, col, offsetX, offsetY)
  {
    DivUnique(x, ws.pixPerCol, col - 1, offsetX);
    DivUnique(y, ws.pixPerRow, row - 1, offsetY);
  }

  /** `get_positioning_details`: a position beyond the window's pixel size
      is rejected, any other goes through `CellOf`. The check lets the
      position equal the width or height through. */
  function PositioningDetails(ws: WindowSize, x: u32, y: u32): (r: Result<PositionDetails>)
    ensures x > ws.xPix || y > ws.yPix ==> r == Failure(OUTSIDE_WINDOW)
    ensures x <= ws.xPix && y <= ws.yPix ==> r == CellOf(ws, x, y)
  {
    if x > ws.xPix || y > ws.yPix then Failure(OUTSIDE_WINDOW) else CellOf(ws, x, y)
  }

  /** With pixels numbered from 0, the pixel at `x = x_pix` is one past
      the right edge; the source accepts it, and in a 1600-pixel-wide
      window of 200 eight-pixel columns places it in column 201. */
  lemma EdgePixelCounterexample()
    ensures var ws := WindowSizeOf(1600, 900, 50, 200).value;
            PositioningDetails(ws, 1600, 0).Success?
            && PositioningDetails(ws, 1600, 0).value.col == 201 > ws.cols
  {
    WindowSizeExample();
    var ws := WindowSizeOf(1600, 900, 50, 200).value;
    CellOfUnique(ws, 1600, 0, 201, 0, 1, 0);
  }

  /** `get_positioning_details` with the bound made strict: only the
      window's own pixels `0 .. x_pix - 1` and `0 .. y_pix - 1` are
      accepted. */
  function PositioningDetailsCorrected(ws: WindowSize, x: u32, y: u32): (r: Result<PositionDetails>)
    ensures x >= ws.xPix || y >= ws.yPix ==> r == Failure(OUTSIDE_WINDOW)
    ensures x < ws.xPix && y < ws.yPix ==> r == CellOf(ws, x, y)
  {
    if x >= ws.xPix || y >= ws.yPix then Failure(OUTSIDE_WINDOW) else CellOf(ws, x, y)
  }

  /** With the strict bound every accepted position names a pixel of the
      window, and in a window whose pixel size is a whole number of cells
      it lands in a cell of the window. */
  lemma CorrectedStaysInWindow(xPix: u32, yPix: u32, rows: u32, cols: u32, x: u32, y: u32)
    requires WindowSizeOf(xPix, yPix, rows, cols).Success?
    requires PositioningDetailsCorrected(WindowSizeOf(xPix, yPix, rows, cols).value, x, y).Success?
    ensures var ws := WindowSizeOf(xPix, yPix, rows, cols).value;
            var d := PositioningDetailsCorrected(ws, x, y).value;
            (d.col - 1) * ws.pixPerCol + d.offsetX < xPix && (d.row - 1) * ws.pixPerRow + d.offsetY < yPix
            && (ws.pixPerCol * cols == xPix ==> d.col <= cols)
            && (ws.pixPerRow * rows == yPix ==> d.row <= rows)
  {
    var ws := WindowSizeOf(xPix, yPix, rows, cols).value;
    var d := PositioningDetailsCorrected(ws, x, y).value;
    if ws.pixPerCol * cols == xPix && d.col > cols {
      MulMonotone(cols, d.col - 1, ws.pixPerCol);
      assert false;
    }
    if ws.pixPerRow * rows == yPix && d.row > rows {
      MulMonotone(rows, d.row - 1, ws.pixPerRow);
      assert false;
    }
  }

  // ---------------------------------------------------------------------
  // Centred placement and display

  /** The top-left pixel of a centred image: half the window less half the
      image, each halved with truncation; a `u32` subtraction, so an image
      larger than the window underflows. */
  function CenteredOrigin(ws: WindowSize, width: u32, height: u32): (r: Result<(u32, u32)>)
    ensures r.Success? <==> width / 2 <= ws.xPix / 2 && height / 2 <= ws.yPix / 2
    ensures r.Success? ==> r.value.0 + width / 2 == ws.xPix / 2 && r.value.1 + height / 2 == ws.yPix / 2
  {
    if width / 2 > ws.xPix / 2 || height / 2 > ws.yPix / 2 then Failure(SUB_OVERFLOW)
    else Success((ws.xPix / 2 - width / 2, ws.yPix / 2 - height / 2))
  }

  /** For even sizes the centred image leaves equal margins on both sides. */
  lemma CenteredMarginsEqual(ws: WindowSize, width: u32, height: u32)
    requires CenteredOrigin(ws, width, height).Success?
    requires width % 2 == 0 && height % 2 == 0 && ws.xPix % 2 == 0 && ws.yPix % 2 == 0
    ensures var (x, y) := CenteredOrigin(ws, width, height).value;
            x == ws.xPix - (x + width) && y == ws.yPix - (y + height)
  {
  }

  /** The cell and offsets `display_at_position` moves the cursor to and
      sends: an exact pixel directly through `CellOf`, a centred image
      through the exact pixel of its centred origin. */
  function DisplayPosition(ws: WindowSize, width: u32, height: u32, p: PositioningType): (r: Result<PositionDetails>)
    ensures p.ExactPixel? ==> r == CellOf(ws, p.x, p.y)
    ensures p.Centered? ==>
              (r.Success? ==> CenteredOrigin(ws, width, height).Success?)
              && (CenteredOrigin(ws, width, height).Success? ==>
                    var (x, y) := CenteredOrigin(ws, width, height).value;
                    r == CellOf(ws, x, y))
    decreases p.Centered?
  {
    match p
    case ExactPixel(x, y) => CellOf(ws, x, y)
    case Centered =>
      match CenteredOrigin(ws, width, height)
      case Failure(e) => Failure(e)
      case Success((x, y)) => DisplayPosition(ws, width, height, ExactPixel(x, y))
  }

  /** An accepted position is displayed at the same cell and offsets as
      `get_positioning_details` computes: the two use one formula. */
  lemma ExactPixelAgrees(ws: WindowSize, width: u32, height: u32, x: u32, y: u32)
    requires PositioningDetails(ws, x, y).Success?
    ensures DisplayPosition(ws, width, height, ExactPixel(x, y)) == PositioningDetails(ws, x, y)
  {
  }

  // ---------------------------------------------------------------------
  // Image size

  /** The pixel size `Image::new` records. A PNG's size is read from the
      file or the bytes (`pngSize`, not part of this model) and other
      transmissions are unsupported; a bounded PNG fills its cells of the
      window (`window`, the window-size query); raw RGB and RGBA images
      carry their size. */
  function ImageSize(format: CtrlSeq.PixelFormat, transmission: CtrlSeq.Transmission,
                     window: Result<WindowSize>, pngSize: Result<(u32, u32)>): (r: Result<(int, int)>)
    ensures (format.Rgb? || format.Rgba?) ==> r == Success((format.width, format.height))
    ensures format.Png? && !(transmission.File? || transmission.Direct?) ==> r == Failure("Unsupported format")
    ensures format.Png? && (transmission.File? || transmission.Direct?) ==>
              (r.Success? <==> pngSize.Success?) && (r.Success? ==> r.value == pngSize.value)
    ensures format.PngBounded? ==>
              (r.Success? <==> window.Success?)
              && (r.Success? ==> r.value == (format.cols * window.value.pixPerCol, format.rows * window.value.pixPerRow))
  {
    match format
    case Png =>
      if transmission.File? || transmission.Direct? then
        (match pngSize
         case Failure(e) => Failure(e)
         case Success((w, h)) => Success((w, h)))
      else Failure("Unsupported format")
    case PngBounded(cols, rows) =>
      (match window
       case Failure(e) => Failure(e)
       case Success(ws) => Success((cols * ws.pixPerCol, rows * ws.pixPerRow)))
    case Rgb(w, h) => Success((w, h))
    case Rgba(w, h) => Success((w, h))
  }

  /** A bounded PNG spans exactly its cells: placed at the top-left pixel,
      its last pixel is the last pixel of cell (`rows`, `cols`). */
  lemma BoundedPngSpansCells(ws: WindowSize, cols: u32, rows: u32)
    requires ws.pixPerCol > 0 && ws.pixPerRow > 0 && cols > 0 && rows > 0
    requires cols * ws.pixPerCol < U32_MAX && rows * ws.pixPerRow < U32_MAX
    ensures var size := ImageSize(CtrlSeq.PngBounded(cols, rows), CtrlSeq.Direct, Success(ws), Failure("")).value;
            CellOf(ws, size.0 - 1, size.1 - 1)
              == Success(PositionDetails(rows, cols, ws.pixPerCol - 1, ws.pixPerRow - 1))
  {
    var w := cols * ws.pixPerCol;
    var h := rows * ws.pixPerRow;
    AtLeastOne(cols, ws.pixPerCol);
    AtLeastOne(rows, ws.pixPerRow);
    assert (cols - 1) * ws.pixPerCol + (ws.pixPerCol - 1) == w - 1;
    assert (rows - 1) * ws.pixPerRow + (ws.pixPerRow - 1) == h - 1;
    assert !(ws.pixPerCol == 1 && w - 1 == U32_MAX);
    CellOfUnique(ws, w - 1, h - 1, cols, ws.pixPerCol - 1, rows, ws.pixPerRow - 1);
  }
}
