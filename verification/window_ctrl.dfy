/** Terminal window geometry: the text area's size in pixels and in cells,
    as the terminal reports them, checked and turned into the size of one
    cell. The two queries themselves are terminal I/O; their answers are
    the parameters here. */
module WindowCtrl {
  import opened Wrappers
  import opened Ints
  import opened Strings

  datatype WindowSize = WindowSize(
    rows: u32, cols: u32, xPix: u32, yPix: u32, pixPerRow: u32, pixPerCol: u32)

  datatype WindowCtrlError = InvalidDimensions(rows: u32, cols: u32)

  const MESSAGE_HEAD := "Terminal reported invalid dimensions (rows="
  const MESSAGE_SEP := ", cols="
  const MESSAGE_TAIL := ") \U{2014} cannot render"

  /** The `Display` text of the error, naming the reported cell counts. */
  function Message(e: WindowCtrlError): string {
    MESSAGE_HEAD + (NatToString(e.rows) + (MESSAGE_SEP + (NatToString(e.cols) + MESSAGE_TAIL)))
  }

  lemma PrefixCancel(p: string, s1: string, s2: string)
    requires p + s1 == p + s2
    ensures s1 == s2
  {
    assert s1 == (p + s1)[|p|..];
    assert s2 == (p + s2)[|p|..];
  }

  /** A run of digits followed by a non-digit: its digits come first and
      the first non-digit is right after them. */
  lemma DigitsThenStop(a: string, x: string)
    requires AllDigits(a) && |x| > 0 && !IsDigit(x[0])
    ensures forall k :: 0 <= k < |a| ==> IsDigit((a + x)[k])
    ensures !IsDigit((a + x)[|a|])
  {
  }

  /** Two runs of digits each followed by a non-digit can only be equal
      texts when the runs are equal. */
  lemma DigitRunsAgree(a: string, x: string, b: string, y: string)
    requires AllDigits(a) && AllDigits(b) && a + x == b + y
    requires |x| > 0 && |y| > 0 && !IsDigit(x[0]) && !IsDigit(y[0])
    ensures a == b && x == y
  {
    DigitsThenStop(a, x);
    DigitsThenStop(b, y);
    if |a| < |b| {
      assert false;
    } else if |b| < |a| {
      assert false;
    }
    assert a == (a + x)[..|a|];
    assert b == (b + y)[..|b|];
    assert x == (a + x)[|a|..];
    assert y == (b + y)[|b|..];
  }

  /** The message names the dimensions faithfully: different reports give
      different messages. */
  lemma MessageDeterminesDimensions(e1: WindowCtrlError, e2: WindowCtrlError)
    requires Message(e1) == Message(e2)
    ensures e1 == e2
  {
    var r1, r2 := NatToString(e1.rows), NatToString(e2.rows);
    var c1, c2 := NatToString(e1.cols), NatToString(e2.cols);
    PrefixCancel(MESSAGE_HEAD, r1 + (MESSAGE_SEP + (c1 + MESSAGE_TAIL)), r2 + (MESSAGE_SEP + (c2 + MESSAGE_TAIL)));
    assert (MESSAGE_SEP + (c1 + MESSAGE_TAIL))[0] == ',';
    assert (MESSAGE_SEP + (c2 + MESSAGE_TAIL))[0] == ',';
    DigitRunsAgree(r1, MESSAGE_SEP + (c1 + MESSAGE_TAIL), r2, MESSAGE_SEP + (c2 + MESSAGE_TAIL));
    NatToStringInjective(e1.rows, e2.rows);
    PrefixCancel(MESSAGE_SEP, c1 + MESSAGE_TAIL, c2 + MESSAGE_TAIL);
    DigitRunsAgree(c1, MESSAGE_TAIL, c2, MESSAGE_TAIL);
    NatToStringInjective(e1.cols, e2.cols);
  }

  /** The validation and derivation of `get_window_size` on the reported
      pixel size and cell counts: a zero anywhere is an error naming the
      cell counts; otherwise a cell is as many whole pixels wide (high) as
      fit the width (height) that many times. */
  function WindowSizeOf(xPix: u32, yPix: u32, rows: u32, cols: u32): (r: Result<WindowSize>)
    ensures r.Failure? <==> rows == 0 || cols == 0 || xPix == 0 || yPix == 0
    ensures r.Failure? ==> r.error == Message(InvalidDimensions(rows, cols))
    ensures r.Success? ==>
              r.value.rows == rows && r.value.cols == cols && r.value.xPix == xPix && r.value.yPix == yPix
              && r.value.pixPerCol * cols <= xPix < (r.value.pixPerCol + 1) * cols
              && r.value.pixPerRow * rows <= yPix < (r.value.pixPerRow + 1) * rows
  {
    if rows == 0 || cols == 0 || xPix == 0 || yPix == 0 then
      Failure(Message(InvalidDimensions(rows, cols)))
    else
      DivBounds(xPix, cols);
      DivBounds(yPix, rows);
      Success(WindowSize(rows, cols, xPix, yPix, yPix / rows, xPix / cols))
  }

  lemma DivBounds(n: nat, d: nat)
    requires d > 0
    ensures (n / d) * d <= n < (n / d + 1) * d
    ensures n / d <= n
  {
    var q, m := n / d, n % d;
    assert n == d * q + m && 0 <= m < d;
    assert q * d == q * (d - 1) + q;
    NonNegProduct(q, d - 1);
  }

  lemma NonNegProduct(a: nat, b: nat)
    ensures a * b >= 0
  {
  }

  /** A positive count of whole cells needs at least one cell's worth. */
  lemma AtLeastOne(q: nat, d: nat)
    requires q >= 1
    ensures q * d >= d
  {
    assert q * d == (q - 1) * d + d;
    NonNegProduct(q - 1, d);
  }

  /** The cells never claim more pixels than the window has, and a window
      narrower (lower) in pixels than it is in cells gets cells 0 pixels
      wide (high). */
  lemma CellSizeBounds(xPix: u32, yPix: u32, rows: u32, cols: u32)
    requires WindowSizeOf(xPix, yPix, rows, cols).Success?
    ensures var w := WindowSizeOf(xPix, yPix, rows, cols).value;
            w.pixPerCol * w.cols <= w.xPix && w.pixPerRow * w.rows <= w.yPix
            && (w.pixPerCol == 0 <==> xPix < cols)
            && (w.pixPerRow == 0 <==> yPix < rows)
  {
    var w := WindowSizeOf(xPix, yPix, rows, cols).value;
    if w.pixPerCol >= 1 {
      AtLeastOne(w.pixPerCol, cols);
    }
    if w.pixPerRow >= 1 {
      AtLeastOne(w.pixPerRow, rows);
    }
  }

  /** A typical report: 1600 by 900 pixels in 50 rows of 200 columns gives
      cells 8 pixels wide and 18 high. */
  lemma WindowSizeExample()
    ensures WindowSizeOf(1600, 900, 50, 200) == Success(WindowSize(50, 200, 1600, 900, 18, 8))
    ensures WindowSizeOf(1600, 900, 0, 200) == Failure(Message(InvalidDimensions(0, 200)))
  {
  }
}
