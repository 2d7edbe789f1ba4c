# termplt in Dafny

This project models the core of **termplt**, a Rust program that plots data
series as bitmaps in a terminal that speaks the kitty graphics protocol. The
model covers four layers:

- **Wire formats.** The Base64 encoder (section 4 of RFC 4648), the kitty
  control-data serialisers, the chunked framing of an encoded payload into
  APC commands (section 8.3.2 of ECMA-48), and the CSI request builder
  (section 5.4 of ECMA-48).
- **Geometry.** Points, series, limits, line positionings, graph limits,
  and the graph builder with its bounding box, scaling and mask ordering.
  Axis, grid-line and label placement are modelled too. All of it is over
  Dafny `real`.
- **Rasterisers.** The integer Bresenham line with its thickness widening,
  square markers, digit glyph bitmaps, and text layout including
  significant-figure truncation.
- **Compositor and front end.** The canvas pixel buffer, window-geometry
  validation, the pixel-to-cell arithmetic for placing images, colour
  lookup, and the command-line parser with its series-style resolution.

There is one module per source file:

| module | models |
|---|---|
| `Encoding` | `encoding.rs` |
| `CtrlSeq` | `ctrl_seq.rs` |
| `KittyCmds` | `kitty_cmds.rs` |
| `CsiCmds` | `csi_cmds.rs` |
| `Points` | `point.rs`, with the integer helpers the source uses but does not show |
| `PlotSeries` | `series.rs` |
| `Spans` | `limits.rs`, `limit_range`, `range`, the bounding box and scaling arithmetic |
| `LinePositions` | `line_positioning.rs` |
| `GraphBounds` | `graph_limits.rs` |
| `Graphs` | `graph.rs` |
| `Lines` | `line.rs` |
| `Markers` | `marker.rs` |
| `Glyphs` | `numbers.rs` |
| `Texts` | `text.rs` |
| `PlotAxes` | `axes.rs` |
| `GridLineMasks` | `grid_lines.rs` |
| `Canvases` | `canvas.rs` |
| `Colors` / `ColorLookups` | `colors.rs` |
| `WindowCtrl` | `window_ctrl.rs` |
| `Images` | `terminal_commands/images.rs` |
| `Termplt` | `bin/termplt.rs` |

`Wrappers`, `Bytes`, `Ints`, `Strings` and `Masks` are shared support.
`Wrappers` holds `Option`/`Result`. `Bytes` holds the byte type and UTF-8.
`Ints` covers u32/i32 ranges, saturating conversions and float-to-int
rounding. `Strings` holds decimal rendering, split/join, trim and ASCII case.

How the source is modelled:

- A Rust panic (`panic!`, `unwrap` on `None`, `todo!`, a u32 subtraction
  that underflows in a debug build) becomes `Failure(message)`. The message
  is the one the source prints.
- Queries to the terminal, file reads, float formatting and float parsing
  are left out. Their results become parameters: the window's four numbers,
  a PNG's size, the `to_string()`/`{:e}` text of a float, a
  `string -> Option<real>` parser, and a file's parsed points.
- The helpers the source calls but does not define are written here as
  small definitions of our own:
  - `Point::limit_range`: every integer point of a box, x outer, y inner,
    inclusive.
  - `Point::range`: the limit range of the box two points span.
  - `convert_to_u32` / `convert_to_i32`: saturating conversions.
  - `Limits::new`: plain pairing.
  - `Limits::contains`: the closed box test.
  - `Point::dist`: the Chebyshev distance. It is only applied to
    axis-aligned pairs, where it equals the Euclidean one.
  - `Point::scale_to` (`Spans.ScalePoint`): each axis is multiplied by
    new span / old span. An axis whose old span is 0 goes to the midpoint
    of the new range. This rule is assumed by analogy with
    `graph_limits.rs:62-63`, which states it for the override.
  - `Limits::scale_to` (`Spans.ScaleLimits`): both corners through
    `Point::scale_to`.
  - `Limits::shift_by` (`Spans.ShiftLimits`): both corners moved by the
    amount.
  - `Series::scale_to` and `Series::shift_by` (`PlotSeries.ScaleTo`,
    `PlotSeries.ShiftBy`): the point operation applied to every point, with
    the style kept.

Where the repository's prose documentation and its code disagree, the model
follows the code: `from_number(0.2001, 2)` gives "2.0e-1" in the code,
not "0.2". See `Texts.SigFigsNegativeExponent`.

Where the code has a bug, the operation the program runs is modelled as
written, and the corrected version sits beside it under a name ending in
`Corrected`. `Graphs.Scale` rescales through the source's `scale_to`, and
`Graphs.GetMask` draws the grid at the source's placement; see "## Findings".

## Model

| member | source | states |
|---|---|---|
| Encoding.AlphabetInjective | src/kitty_graphics/encoding.rs:3-8 | The 64 alphabet characters are pairwise distinct and none of them is the padding byte `=`. |
| Encoding.Chars | src/kitty_graphics/encoding.rs:3-8 | Looking up a sequence of 6-bit values gives one alphabet character per value, in order. |
| Encoding.Sextet0 | src/kitty_graphics/encoding.rs:42-47 | The first 6-bit index of a group is the first byte's top six bits, and it is below 64. |
| Encoding.GroupSextets | src/kitty_graphics/encoding.rs:42-47 | A full group yields four indices, each below 64. |
| Encoding.GroupSextetsShifts | src/kitty_graphics/encoding.rs:42-47 | The four indices of a full group are the truncating u8 shift combinations the source writes, such as `b << 6 >> 2` equal to `(b % 4) * 16`. |
| Encoding.PadSextets | src/kitty_graphics/encoding.rs:51-69 | A one-byte tail gives two indices and two pads. A two-byte tail gives three indices and one pad. |
| Encoding.PadSextetsShifts | src/kitty_graphics/encoding.rs:54-65 | The indices of a one- or two-byte tail are the source's shift combinations, with the missing byte taken as zero. |
| Encoding.ConvertPartial | src/kitty_graphics/encoding.rs:51-69 | The tail conversion succeeds exactly when at most three bytes are left. With no bytes left it returns the buffer untouched. |
| Encoding.EncodeUnfold | src/kitty_graphics/encoding.rs:24-35 | The encoding is the first full group's four characters followed by the encoding of the rest. A one- or two-byte remainder becomes one padded group. |
| Encoding.EncodeLength | src/kitty_graphics/encoding.rs:13-19 | Output length is 4·⌈n/3⌉. It is always a multiple of 4, and it is zero exactly for empty input. |
| Encoding.EncodedLengthSplit | src/kitty_graphics/encoding.rs:13-19 | The length is four per full group plus four more when bytes remain. |
| Encoding.EncodeAppend | src/kitty_graphics/encoding.rs:24-28 | When the first part is whole groups, encoding a concatenation is concatenating the encodings. |
| Encoding.EncodeSplitAt | src/kitty_graphics/encoding.rs:24-28 | Group `i` alone decides output positions `4i..4i+4`. |
| Encoding.FillFullGroups | src/kitty_graphics/encoding.rs:13-28 | After the loop, the buffer has the final length and its prefix is the encoding of all full groups. |
| Encoding.ReadBytesToB64 | src/kitty_graphics/encoding.rs:10-38 | The encoder never returns an error, and its output is the RFC 4648 encoding of the input. |
| Encoding.SextetOfAlphabet | src/kitty_graphics/encoding.rs:3-8 | Reading an alphabet character back gives its index. |
| Encoding.DecodeFullGroup | src/kitty_graphics/encoding.rs:42-47 | Decoding the four characters of a full group gives the three bytes back. |
| Encoding.DecodePad1 | src/kitty_graphics/encoding.rs:54-59 | Decoding a `xx==` group gives the single byte back. |
| Encoding.DecodePad2 | src/kitty_graphics/encoding.rs:60-65 | Decoding a `xxx=` group gives the two bytes back. |
| Encoding.DecodeEncode | src/kitty_graphics/encoding.rs:10-69 | Round trip: decoding the output gives the input back for every byte sequence. |
| Encoding.EncodeInjective | src/kitty_graphics/encoding.rs:10-69 | Different inputs have different encodings. |
| Encoding.EncodeAlphabet | src/kitty_graphics/encoding.rs:3-8 | Every output byte is an alphabet character or `=`. `=` occurs only in the last two positions, and never when the length is a multiple of three. |
| Encoding.KnownVectors | src/kitty_graphics/encoding.rs:75-107 | "M"→"TQ==", "Ma"→"TWE=", "Man"→"TWFu", and empty→empty. |
| CsiCmds.New | src/terminal_commands/csi_cmds.rs:11-19 | The request is two bytes longer than the command's UTF-8 bytes and starts with the response start. The response end is the given terminator. |
| CsiCmds.RequestCarriesCommand | src/terminal_commands/csi_cmds.rs:3-13 | Removing the `ESC [` introducer from the request leaves exactly the command bytes. |
| CsiCmds.AsciiRequest | src/terminal_commands/csi_cmds.rs:11-13 | For an ASCII command, the request has length 2 + |command| and byte `i + 2` is character `i`. |
| CsiCmds.AsciiRequestInjective | src/terminal_commands/csi_cmds.rs:11-13 | Different ASCII commands give different requests. |
| CtrlSeq.PositioningCtrl | src/kitty_graphics/ctrl_seq.rs:83-90 | The positioning key is empty exactly for `Current`. |
| CtrlSeq.TransmissionRoundTrip | src/kitty_graphics/ctrl_seq.rs:13-20 | Parsing the `t=` key back gives the transmission medium. |
| CtrlSeq.PixelFormatRoundTrip | src/kitty_graphics/ctrl_seq.rs:31-44 | Parsing `f=100`, `f=100,c=,r=`, `f=24,s=,v=` or `f=32,s=,v=` back gives the format and its numbers. |
| CtrlSeq.PixelFormatInjective | src/kitty_graphics/ctrl_seq.rs:31-44 | Different pixel formats serialise differently. |
| CtrlSeq.ActionRoundTrip | src/kitty_graphics/ctrl_seq.rs:53-58 | `a=T` and `a=q` parse back to their actions. |
| CtrlSeq.MetadataRoundTrip | src/kitty_graphics/ctrl_seq.rs:68-74 | `i=`, `m=1`/`m=0` and `z=` parse back to their metadata. |
| CtrlSeq.PositioningRoundTrip | src/kitty_graphics/ctrl_seq.rs:83-90 | "" and `X=..,Y=..` parse back to the positioning. |
| CtrlSeq.DisplayRegionRoundTrip | src/kitty_graphics/ctrl_seq.rs:109-121 | Each region variant's key list parses back to it. |
| CtrlSeq.DisplayRegionInjective | src/kitty_graphics/ctrl_seq.rs:109-121 | Different regions serialise differently. |
| CtrlSeq.ParseEntryListRender | src/kitty_graphics/ctrl_seq.rs:13-121 | A comma-joined list of `key=value` entries parses back to the entries. |
| KittyCmds.Chunks | src/terminal_commands/kitty_cmds.rs:33-34 | Chunks are non-empty and at most the chunk size. All but the last are full. There are none exactly when the input is empty. |
| KittyCmds.ChunksFlatten | src/terminal_commands/kitty_cmds.rs:33-34 | Concatenating the chunks gives the input back. |
| KittyCmds.ChunksCount | src/terminal_commands/kitty_cmds.rs:33-34 | The chunk count is ⌈len/size⌉. |
| KittyCmds.Frames | src/terminal_commands/kitty_cmds.rs:29-51 | There is one frame per 4096-byte chunk of the Base64 encoding of the payload. |
| KittyCmds.NextFrame | src/terminal_commands/kitty_cmds.rs:37-48 | Each loop step appends `ESC _ G`, the control text, `;`, the chunk and `ESC \`. |
| KittyCmds.New | src/terminal_commands/kitty_cmds.rs:29-51 | The built command is the concatenation of all frames in order. |
| KittyCmds.FramesPayload | src/terminal_commands/kitty_cmds.rs:30-34 | Frame `i` carries chunk `i`, the chunks rebuild the encoding, and the encoding decodes to the payload. |
| KittyCmds.FramesCount | src/terminal_commands/kitty_cmds.rs:8 | The frame count is ⌈encoded length/4096⌉, zero exactly for an empty payload, and every chunk is 1..4096 bytes. |
| KittyCmds.EmptyPayload | src/terminal_commands/kitty_cmds.rs:33-49 | An empty payload yields an empty command. |
| KittyCmds.FrameSettings | src/terminal_commands/kitty_cmds.rs:38-41 | The first frame carries the caller's keys plus `m=`. Later frames carry only `m=`. `m=1` is on every frame except the last, which has `m=0`. |
| KittyCmds.ParseSerialized | src/terminal_commands/kitty_cmds.rs:43-47 | A sequence of well-formed frames splits back into its frames' chunks. |
| KittyCmds.FramesSafe | src/terminal_commands/kitty_cmds.rs:41-47 | When the control data contains no `;` or ESC, every frame is well formed. |
| KittyCmds.ReadBackNew | src/terminal_commands/kitty_cmds.rs:29-51 | A terminal that splits the command into frames, joins the chunks and decodes them recovers the payload. |
| Points.AddSubInverse | src/plotting/point.rs:15-35 | Subtracting a point undoes adding it, and the reverse. |
| Points.AddLaws | src/plotting/point.rs:15-24 | Point addition is commutative and associative. |
| Points.ScalarIsDiagonal | src/plotting/point.rs:37-57 | Adding or subtracting a scalar is adding or subtracting the point (s, s), and the two undo each other. |
| Points.MulDivInverse | src/plotting/point.rs:59-79 | Dividing by a non-zero scalar undoes multiplying by it, and the reverse. |
| Points.MulDistributes | src/plotting/point.rs:15-24 | Scaling distributes over point addition. |
| Points.PointExamples | src/plotting/point.rs:85-143 | The repository's six operator test values. |
| PlotSeries.Add | src/plotting/series.rs:8-15 | Same length and style, and point `i` is point `i` plus the scalar. |
| PlotSeries.Sub | src/plotting/series.rs:17-24 | Same length and style, and point `i` is point `i` minus the scalar. |
| PlotSeries.Mul | src/plotting/series.rs:26-33 | Same length and style, and point `i` is point `i` times the scalar. |
| PlotSeries.Div | src/plotting/series.rs:35-42 | Same length and style, and point `i` is point `i` divided by the scalar. |
| PlotSeries.AddSubInverse | src/plotting/series.rs:8-24 | Subtracting a scalar undoes adding it. |
| PlotSeries.MulDivInverse | src/plotting/series.rs:26-42 | Dividing by a non-zero scalar undoes multiplying by it. |
| PlotSeries.CloneWith | src/plotting/graph.rs:186-196 | The clone has the new points and the old style. |
| PlotSeries.ShiftByInverse | src/plotting/graph.rs:288-300 | Shifting a series by `a` and then by `-a` restores it. |
| PlotSeries.SeriesExample | src/plotting/series.rs:8-15 | An illustrative instance of our own (the file has no test): adding 0.5 to the series (1,2), (3,4) gives (1.5,2.5), (3.5,4.5). |
| Spans.Span | src/plotting/limits.rs:14-17 | min + span = max per axis. The span is non-negative for an ordered box and (0, 0) for a degenerate one. |
| Spans.ISpan | src/plotting/limits.rs:14-17 | The same span facts over integers. |
| Spans.BoundingBox | src/plotting/graph.rs:139-146 | There is a box exactly when there are points. It contains every point, and each of its four bounds is attained by some point. |
| Spans.BoundingBoxSmallest | src/plotting/graph.rs:139-146 | Any box that contains all the points contains the bounding box. |
| Spans.BoundingBoxUnique | src/plotting/graph.rs:139-146 | A box that contains all the points and whose four sides each touch one of them is the bounding box. |
| Spans.LimitRangeMembers | src/plotting/marker.rs:76 | A point is in the limit range exactly when the box contains it. |
| Spans.LimitRangeCount | src/plotting/marker.rs:76 | The limit range has (w+1)·(h+1) points, or none for an inverted box. |
| Spans.LimitRangeDistinct | src/plotting/marker.rs:76 | The limit range never repeats a point. |
| Spans.RangeHorizontal | src/plotting/line.rs:134-140 | A horizontal run from `a` to `b` is `a`, `a+(1,0)`, …, `b`. |
| Spans.RangeVertical | src/plotting/line.rs:134-140 | A vertical run from `a` to `b` is `a`, `a+(0,1)`, …, `b`. |
| Spans.ShiftLimits | src/plotting/line_positioning.rs:84-95 | Shifting keeps the span and moves both corners by the amount. |
| Spans.ScaleCoordLinear | src/plotting/graph_limits.rs:46-60 | Scaling sends 0 to 0 and the old span to the new span. Differences scale by new/old, and order is kept. |
| Spans.ScaleFromOrigin | src/plotting/graph_limits.rs:46-78 | With both spans non-zero, the origin is fixed and the old span maps onto the new span. |
| LinePositions.LimitsOf | src/plotting/line_positioning.rs:15-34 | The limits start at `start`. Horizontal spans (length, 0), Vertical spans (0, length), and BetweenPoints ends at `end`. |
| LinePositions.ILimitsOf | src/plotting/line_positioning.rs:15-34 | The same limits over integers. |
| LinePositions.ConvertTo | src/plotting/line_positioning.rs:39-57 | The variant is kept and every coordinate and length is converted. |
| LinePositions.ConvertCompose | src/plotting/line_positioning.rs:39-57 | Converting twice is converting once by the composed function. |
| LinePositions.ShiftBy | src/plotting/line_positioning.rs:84-95 | The variant and length are kept. Start and end are the shifted limits' corners. |
| LinePositions.ShiftByLimits | src/plotting/line_positioning.rs:84-95 | The limits of the shifted positioning are the shifted limits. |
| LinePositions.ShiftByInverse | src/plotting/line_positioning.rs:84-95 | Shifting by `a` and then by `-a` restores the positioning. |
| LinePositions.ScaleTo | src/plotting/line_positioning.rs:66-77 | The variant is kept. Start and end are the scaled limits' corners, and the length is the distance between them. |
| LinePositions.ScaleHorizontalLength | src/plotting/line_positioning.rs:66-77 | A horizontal line's length scales by the x span ratio and the line stays horizontal. |
| GraphBounds.ShiftBy | src/plotting/graph_limits.rs:18-33 | XOnly bounds move by amount.x, YOnly by amount.y, and XY by the whole point. The variant is kept. |
| GraphBounds.ShiftByInverse | src/plotting/graph_limits.rs:18-33 | Shifting by `a` and then by `-a` restores the limits. |
| GraphBounds.ScaleTo | src/plotting/graph_limits.rs:42-79 | Bounds are multiplied by new span/old span per axis, with no translation. A zero old span sends the axis to the midpoint of the new range. The variant is kept. |
| GraphBounds.ScaleAxesIndependent | src/plotting/graph_limits.rs:42-79 | Scaling XY is scaling its x range as XOnly and its y range as YOnly. |
| GraphBounds.ConvertTo | src/plotting/graph_limits.rs:84-99 | The variant is kept and every bound is converted. |
| GraphBounds.GraphLimitsExamples | src/plotting/graph_limits.rs:117-167 | The scale_to tests with spread limits: XOnly, YOnly and XY scaling from (0,0)-(10,10) onto (0,0)-(100,100). |
| GraphBounds.GraphLimitsMidpointExamples | src/plotting/graph_limits.rs:169-225 | The three zero-span scale_to tests: an axis with no spread goes to 50, the middle of the new range. |
| GraphBounds.GraphLimitsShiftExamples | src/plotting/graph_limits.rs:227-282 | The three shift_by tests, and `convert_to` of XOnly 2.5, 7.5 as i32 giving 2, 7 with the variant kept. |
| Graphs.New | src/plotting/graph.rs:53-60 | A new graph has no series, no override, no axes and no grid, and its limits are `None`. |
| Graphs.WithSeries | src/plotting/graph.rs:62-65 | The series is appended and the earlier ones are kept in order. |
| Graphs.WithAxes | src/plotting/graph.rs:67-70 | Sets the axes and changes nothing else. |
| Graphs.WithGridLines | src/plotting/graph.rs:72-75 | Sets the grid and changes nothing else. |
| Graphs.AllDataMembers | src/plotting/graph.rs:139-146 | A point is among all data exactly when some series holds it. |
| Graphs.RangesDetermine | src/plotting/graph.rs:77-129 | An override is fully described by its x range and its y range. |
| Graphs.WithXLimits | src/plotting/graph.rs:77-102 | The x range becomes (min, max), the y range is kept, and nothing else changes. This covers the None→XOnly, XOnly→XOnly, YOnly→XY and XY→XY transitions. |
| Graphs.WithYLimits | src/plotting/graph.rs:104-129 | The symmetric transitions for y. |
| Graphs.OverrideOrderIrrelevant | src/plotting/graph.rs:77-129 | Setting x then y equals setting y then x, and equals XY. Setting the same axis twice keeps the last. |
| Graphs.Limits | src/plotting/graph.rs:139-174 | There are limits exactly when there are points. Each axis takes the override's range if there is one, and the bounding box's otherwise. |
| Graphs.LimitsAreBoundingBox | src/plotting/graph.rs:139-146 | Without an override, the limits contain every point and lie inside any box that does. |
| Graphs.LimitsExamples | src/plotting/graph.rs:309-341 | The single-series limits tests: an empty graph has none, one point gives a degenerate box, and three points give (-1,-5)-(10,15). |
| Graphs.LimitsOnePointSeriesExample | src/plotting/graph.rs:343-356 | Three one-point series give limits (-1,-5)-(10,15), the box of all their points. |
| Graphs.LimitsMultiSeriesExample | src/plotting/graph.rs:358-379 | The nine points of three series give limits (-20,-50)-(100,50). |
| Graphs.ShiftBy | src/plotting/graph.rs:288-300 | Every series and the override move by the amount. Axes and grid are unchanged. |
| Graphs.ShiftByInverse | src/plotting/graph.rs:288-300 | Shifting by `a` and then by `-a` restores the graph. |
| Graphs.ScaleThrough | src/plotting/graph.rs:250-281 | Scaling keeps the number of series, each series' style and length, and whether there is an override. |
| Graphs.ScaleThroughPoints | src/plotting/graph.rs:250-276 | Each point goes through shift by -old.min, scale, and shift by +new.min. |
| Graphs.AtOrigin | src/plotting/graph.rs:250-281 | Corrected: the target the corrected rescaling aims at is the new limits moved to the origin, with their span kept. The source passes the new limits themselves. |
| Graphs.ScaleToInside | src/plotting/graph.rs:250-281 | Corrected: a point inside the old limits lands inside the new ones. |
| Graphs.ScaleToAgreesOnSpreadAxes | src/plotting/graph.rs:250-281 | When neither old span is zero, the corrected scaling equals the source's. |
| Graphs.ZeroSpanPointCounterexample | src/plotting/graph_limits.rs:62-63 | As written: with a zero x span, a point is sent to the midpoint plus new.min, outside the target. |
| Graphs.ZeroSpanOverrideCounterexample | src/plotting/graph.rs:266-276 | As written: a zero-span override is sent outside the target in the same way. |
| Graphs.ZeroSpanOverride | src/plotting/graph.rs:266-276 | For every zero-span XOnly override, the corrected scaling gives the target midpoint and the source adds new.min again. |
| Graphs.ScaleOverrideInside | src/plotting/graph.rs:266-276 | Corrected: an override inside the old limits lands inside the new ones. |
| Graphs.PointsWithin | src/plotting/graph.rs:186-197 | The kept points are exactly the given points that lie inside the limits. |
| Graphs.SeriesWithin | src/plotting/graph.rs:186-197 | Each series is replaced by a clone holding only its points inside the limits. |
| Graphs.Scale | src/plotting/graph.rs:176-205 | An empty graph fails with "Cannot scale an empty graph". With an override, outside points are dropped, and the call fails if none survive. The rest is rescaled by the source's own `scale_to`, from the recomputed limits onto the target. |
| Graphs.ScaleKeepsPointsInside | src/plotting/graph.rs:176-205 | When the limits scaled from are spread on both axes, every point of the scaled graph lies inside the target. |
| Graphs.ScaleCounterexample | src/plotting/graph.rs:176-205 | As written: one series (5,0), (5,10) scaled onto (100,100)-(200,200) puts (5,0) at (250,100), outside the target. |
| Graphs.ScaleCorrected | src/plotting/graph.rs:176-205 | Corrected: fails exactly where the source's `scale` does. On success it is the corrected rescaling of the same graph. |
| Graphs.ScaleCorrectedKeepsPointsInside | src/plotting/graph.rs:176-205 | Corrected: every point lies inside the target, whatever the spans. |
| Graphs.ScaleCorrectedExample | src/plotting/graph.rs:176-205 | Corrected: the counterexample's point goes to (150,100), the middle of the new x range. |
| Graphs.ScaleFirstPoint | src/plotting/graph.rs:250-276 | Without an override, `scale` and its corrected version send the first point through their rescaling steps. |
| Graphs.SeriesMasksAll | src/plotting/graph.rs:231-238 | Series masks succeed exactly when every series' masks do. They come in series order and hold exactly the series' points. |
| Graphs.GetMask | src/plotting/graph.rs:218-241 | The masks are the axes masks, then the grid masks at the source's placement, then the series masks. Without limits the unwrap fails. |
| Graphs.GetMaskLayout | src/plotting/graph.rs:218-241 | With XY axes and an XY grid, masks 0-1 are the axes, 2-21 are the grid, and the series follow. |
| Graphs.GetAxesLabels | src/plotting/graph.rs:209-214 | No axes gives no labels. Otherwise the labels are the axes' labels for the graph's limits. |
| Lines.DefaultStyle | src/plotting/line.rs:21-26 | The default is solid white with thickness 0. |
| Lines.DefaultWithThickness | src/plotting/line.rs:28-33 | Solid white with the given thickness. |
| Lines.AccessorsRoundTrip | src/plotting/line.rs:35-59 | Both variants return the thickness and colour they were built with. |
| Lines.ToI32Positioning | src/plotting/line.rs:134-140 | The variant is kept and every coordinate is converted to i32 the way the source does. |
| Lines.DrawableLimits | src/plotting/line.rs:124-129 | Success exactly when the thickness fits below the start. The box is the limits widened by the thickness on every side. |
| Lines.DrawableLimitsSpan | src/plotting/line.rs:124-129 | The drawable span is the line's span plus twice the thickness. |
| Lines.VisitedShape | src/plotting/line.rs:141-173 | The Bresenham walk starts at its current point, ends at `end`, moves to a touching pixel each step, and never repeats. |
| Lines.DedupShape | src/plotting/line.rs:155-158 | Dropping consecutive repeats keeps connectivity and only keeps visited points. |
| Lines.SegmentPixelsShape | src/plotting/line.rs:134-177 | The first point is `start` and the last is `end`. Consecutive points touch and never repeat. `start = end` gives one point, and a right-to-left line has first.x ≥ last.x. |
| Lines.SegmentLoop | src/plotting/line.rs:141-173 | The imperative loop terminates in every octant and emits the points of the functional walk. |
| Lines.FlatLine | src/plotting/line.rs:182-200 | The i32 thickness negation fails only for i32::MIN. Otherwise the base points are repeated at every offset in [-t, t]. |
| Lines.GetMask | src/plotting/line.rs:181-223 | Dashed fails with "not yet implemented". Solid gives one mask in the style colour. BetweenPoints ignores the thickness. |
| Lines.SolidRunIsWiden | src/plotting/line.rs:182-206 | A solid horizontal or vertical mask is its base points widened by [-t, t]. |
| Lines.SolidRunCount | src/plotting/line.rs:182-206 | The mask has (2t+1) times the base count. |
| Lines.SolidRunMembers | src/plotting/line.rs:182-206 | A pixel is painted exactly when some offset in [-t, t] moves a base point onto it. |
| Lines.HorizontalExample | src/plotting/line.rs:372-395 | A 10-long horizontal line has 11 pixels, and 55 pixels with thickness 2. |
| Markers.DefaultStyle | src/plotting/marker.rs:30-35 | The default marker is a white filled square of size 0. |
| Markers.MarkerLimits | src/plotting/marker.rs:52-60 | min is center - size, saturating at 0. max is center + size. The box contains the centre. |
| Markers.MarkerLimitsSymmetric | src/plotting/marker.rs:52-60 | Without saturation the box is 2·size wide and high and centred. |
| Markers.GetMask | src/plotting/marker.rs:74-121 | A filled square gives one mask and a hollow square four, all in the style colour. |
| Markers.FilledSquareMask | src/plotting/marker.rs:74-81 | A filled square paints exactly the points of its limits, (w+1)·(h+1) of them. |
| Markers.SidesAreBoundary | src/plotting/marker.rs:82-121 | The four sides cover exactly the boundary of the box. |
| Markers.HollowSquareMask | src/plotting/marker.rs:82-121 | A hollow square paints exactly the boundary of its limits, a subset of the filled square. |
| Markers.MarkerExample | src/plotting/marker.rs:74-121 | For size 1 at (5,5) the box is (4,4)-(6,6) with 9 points, and the hollow square misses the centre. |
| Glyphs.LinesOfTerminated | src/plotting/numbers.rs:76-77 | Splitting newline-terminated art into lines gives the lines back. |
| Glyphs.GlyphSource | src/plotting/numbers.rs:65-71 | Art exists exactly for '0'..'3'. |
| Glyphs.Row | src/plotting/numbers.rs:78-89 | Cell `k` of a row is set exactly when character `2k` exists and is not a space. The row is padded to at least CHAR_WIDTH. |
| Glyphs.Bitmap | src/plotting/numbers.rs:76-101 | At least CHAR_HEIGHT rows. Row `k` is source line `n-1-k`, and the padding rows are blank. |
| Glyphs.GetBitmap | src/plotting/numbers.rs:64-104 | Failure exactly for characters outside '0'..'3'. Otherwise the bitmap of the character's art. |
| Glyphs.ArtShape | src/plotting/numbers.rs:64-104 | Eleven art lines, the first empty and none wider than 10, give 11 rows of width 5 with a blank top row. |
| Glyphs.GlyphShape | src/plotting/numbers.rs:3-104 | Each digit glyph is 11 rows of 5 cells with a blank top row. |
| Glyphs.OneFoot | src/plotting/numbers.rs:3-104 | The bottom row of '1' is its five-cell foot. |
| Texts.NewStyle | src/plotting/text.rs:82-92 | Fails with the source's message exactly when scale < 1, and keeps the fields otherwise. |
| Texts.DefaultStyleValid | src/plotting/text.rs:94-100 | The default style is black, scale 1, padding 1, and the constructor accepts it. |
| Texts.NewChar | src/plotting/text.rs:41-44 | Succeeds exactly for '0'..'3' with that character's bitmap. Otherwise fails naming the character. |
| Texts.GlyphChar | src/plotting/text.rs:46-52 | A digit character is 5 wide and 11 high with a rectangular bitmap. |
| Texts.CharMask | src/plotting/text.rs:58-71 | A rectangular bitmap gives one mask in the given colour. |
| Texts.CharMaskCells | src/plotting/text.rs:58-71 | A point is painted exactly when it is lower_left + (column, row) of a set cell. |
| Texts.CharMaskDistinct | src/plotting/text.rs:58-71 | One point per set cell, with no point twice. |
| Texts.NewChars | src/plotting/text.rs:124-131 | Succeeds exactly when every character is drawable, giving one glyph per character. |
| Texts.NewCharsFirstBad | src/plotting/text.rs:124-131 | On failure the error names the first undrawable character. |
| Texts.TextNew | src/plotting/text.rs:124-138 | Empty text or an undrawable character fails. Otherwise the width is the sum of the char widths and the height the maximum char height. |
| Texts.TextNewRejects | src/plotting/text.rs:124-138 | Any undrawable character makes the text fail. |
| Texts.DigitTextSize | src/plotting/text.rs:124-138 | Digit text is 5 per character wide and 11 high. |
| Texts.Mantissa | src/plotting/text.rs:165-179 | The mantissa is a prefix of the scientific string. |
| Texts.MantissaShape | src/plotting/text.rs:165-179 | Characters are kept until `n` digits are seen or 'e' is reached. |
| Texts.ExponentSuffix | src/plotting/text.rs:181-192 | The suffix is the tail from the last 'e', or the whole string when there is no 'e'. |
| Texts.SigFigShape | src/plotting/text.rs:161-192 | A long number becomes a mantissa prefix with at most `n` digits, followed by nothing or by the exponent suffix. |
| Texts.SigFigsWithExponent | src/plotting/text.rs:165-192 | 1234.5 at 3 figures is "1.23e3". |
| Texts.SigFigsNegativeExponent | src/plotting/text.rs:165-192 | 0.2001 at 2 figures is "2.0e-1". |
| Texts.SigFigsZeroExponent | src/plotting/text.rs:181-192 | An "e0" exponent is dropped: 1.2345 at 3 figures is "1.23". |
| Texts.SigFigsPlain | src/plotting/text.rs:161-163 | A short enough number, not counting the sign, is kept as written. |
| Texts.FromNumber | src/plotting/text.rs:152-195 | scale < 1 and sig_figs < 1 fail with their messages. A short number is laid out as written, and a long one as mantissa plus exponent. |
| Texts.FromNumberUndrawable | src/plotting/text.rs:152-195 | "1.23e3" cannot be drawn, because only '0'..'3' have glyphs. |
| Texts.FromNumberDigit | src/plotting/text.rs:152-195 | A single drawable digit is laid out as itself for any sig_figs ≥ 1. |
| Texts.CloneWith | src/plotting/text.rs:19-24 | The variant is kept and the anchor is replaced. |
| Texts.HalfRounding | src/plotting/text.rs:217-228 | floor(n/2) and ceil(n/2) as integers. |
| Texts.LabelLimits | src/plotting/text.rs:217-228 | LeftAligned fails. Centered succeeds exactly when half the size fits below the centre, giving a box of the text's size with the centre floor(w/2, h/2) from its min. |
| Texts.LabelMask | src/plotting/text.rs:232-252 | LeftAligned fails. Centered gives one mask per character when every bitmap is rectangular. |
| Texts.LabelMaskAt | src/plotting/text.rs:233-247 | Character `k` is drawn at centre + (-w/2 + sum of earlier widths, -h/2). |
| Texts.CharMasksAt | src/plotting/text.rs:233-247 | The running-width loop draws character `k` at the offset of the widths before it. |
| Texts.DigitTextLabel | src/plotting/text.rs:233-247 | For digit text, all masks exist and character `k` sits at x offset 5k - 5n/2 and y offset -5. |
| Texts.DigitLabelAt | src/plotting/text.rs:233-247 | The same placement for a single character. |
| PlotAxes.New | src/plotting/axes.rs:27-30 | The axes keep the positioning and use a valid default text style. |
| PlotAxes.GetMask | src/plotting/axes.rs:78-127 | XOnly is the line from (min.x, min.y - t) of length span_x. YOnly is the line from (min.x - t, min.y) of length span_y. XY is the horizontal masks then the vertical ones. |
| PlotAxes.AxesMaskCount | src/plotting/axes.rs:78-127 | A solid style gives one mask per axis in the line colour. |
| PlotAxes.DashedAxes | src/plotting/axes.rs:78-127 | Dashed axes fail with "not yet implemented". |
| PlotAxes.XAxisBelowData | src/plotting/axes.rs:88-96 | Every pixel of the x axis lies at or below the data area's bottom edge. |
| PlotAxes.YAxisLeftOfData | src/plotting/axes.rs:97-105 | Every pixel of the y axis lies at or left of the data area's left edge. |
| PlotAxes.GetLabels | src/plotting/axes.rs:40-76 | XOnly gives one label for graph min.x to 3 figures, centred below the x axis. YOnly gives one for min.y, left of the y axis. XY gives none. |
| PlotAxes.XLabelBelowAxis | src/plotting/axes.rs:51-60 | The x label's box ends below the axis, up to rounding. |
| PlotAxes.YLabelLeftOfAxis | src/plotting/axes.rs:61-70 | The y label's box ends left of the axis, up to rounding. |
| GridLineMasks.GridLinesOf | src/plotting/grid_lines.rs:27-62 | Ten lines per direction: 10 for XOnly/YOnly and 20 for XY. |
| GridLineMasks.GridLinesStyle | src/plotting/grid_lines.rs:33-62 | Every grid line has the grid's style and is horizontal or vertical. |
| GridLineMasks.GridLinePlaces | src/plotting/grid_lines.rs:27-62 | Section `i` gives its horizontal line, its vertical line, or horizontal then vertical for XY. |
| GridLineMasks.LineMasksUniform | src/plotting/grid_lines.rs:33-62 | Lines of one style give one mask each in order, or the first line's error. |
| GridLineMasks.RunMask | src/plotting/grid_lines.rs:33-48 | A run line is drawable exactly for a solid style, as one mask in its colour. |
| GridLineMasks.GridShape | src/plotting/grid_lines.rs:18-66 | For the placement the source computes, the grid succeeds exactly for a drawable style. It gives one mask per grid line, mask `k` being line `k`'s. Dashed fails with "not yet implemented". |
| GridLineMasks.GridShapeCorrected | src/plotting/grid_lines.rs:18-66 | Corrected: the same success condition and mask count with the lines placed from the lower corner. |
| GridLineMasks.PlacedGridShape | src/plotting/grid_lines.rs:27-62 | For any placement of the lines, the grid succeeds exactly for a drawable style, with one mask per line in drawing order. |
| GridLineMasks.CorrectedEvenlySpaced | src/plotting/grid_lines.rs:27-48 | Corrected: lines are a tenth of the span apart and the last lies on the max. |
| GridLineMasks.CorrectedWithinLimits | src/plotting/grid_lines.rs:33-48 | Corrected: every line lies inside the limits. |
| GridLineMasks.PlacementsAgreeAtOrigin | src/plotting/grid_lines.rs:33-48 | The source's and the corrected placements agree exactly when the min is 0. |
| GridLineMasks.HairlinePaintsStart | src/plotting/line.rs:182-206 | A thickness-0 line paints its start pixel. |
| GridLineMasks.GridOffsetCounterexample | src/plotting/grid_lines.rs:33-40 | As written: for limits (0,50)-(100,60), the first grid line paints (0,1), outside the limits. |
| Canvases.NewBuffer | src/plotting/canvas.rs:31-42 | None gives all sides 0 and Uniform(x) all sides x. Other variants fail with "Not implemented". |
| Canvases.NoBufferIsZero | src/plotting/canvas.rs:31-42 | None is the same as Uniform(0). |
| Canvases.CanvasLimits | src/plotting/canvas.rs:52-59 | A w×h canvas spans (0,0)-(w-1,h-1). A zero size underflows. |
| Canvases.NewCanvas | src/plotting/canvas.rs:52-59 | Height rows of width pixels, all background. |
| Canvases.SetPixel | src/plotting/canvas.rs:63-73 | The canvas stays well formed, and an out-of-bounds write changes nothing. |
| Canvases.SetPixelAt | src/plotting/canvas.rs:63-73 | An in-bounds write changes only the y-flipped pixel; every other pixel is unchanged. |
| Canvases.SetPixels | src/plotting/canvas.rs:77-81 | A pixel takes the colour exactly when some in-bounds point lands on it, and keeps its colour otherwise. |
| Canvases.PaintedSnoc | src/plotting/canvas.rs:77-81 | Each further point adds exactly its own pixel to the painted set. |
| Canvases.GetBytesLength | src/plotting/canvas.rs:83-92 | The byte buffer has 3·w·h bytes. |
| Canvases.GetBytesIndex | src/plotting/canvas.rs:83-92 | Byte 3·w·row + 3·col + j is channel `j` (R, G, B) of pixel (row, col), row-major top to bottom. |
| Canvases.NewTerminal | src/plotting/canvas.rs:107-114 | A terminal canvas has a fresh canvas, zero buffer and no graph. |
| Canvases.WithBuffer | src/plotting/canvas.rs:116-119 | Replaces the buffer when the buffer type is supported, and fails otherwise. |
| Canvases.WithGraph | src/plotting/canvas.rs:121-127 | Attaches a non-empty graph. An empty one fails with "Cannot add empty graph". |
| Canvases.MaxBound | src/plotting/canvas.rs:217-227 | The margin is the largest marker bound of any series, and some series attains it. |
| Canvases.GetDrawableLimits | src/plotting/canvas.rs:211-234 | min = (left, bottom) + m and max = (w-1-right, h-1-top) - m. Failure when a subtraction would underflow or the graph is empty. |
| Canvases.GetMarkerMask | src/plotting/canvas.rs:156-173 | A filled square gives one mask in its colour. Other variants fail with "Not implemented!". |
| Canvases.MarkerMaskPoints | src/plotting/canvas.rs:156-173 | The mask is the (2s+1)² square around the centre. |
| Canvases.MarkerMaskIsMarker | src/plotting/canvas.rs:156-173 | The canvas's marker mask equals the marker's own mask. |
| Canvases.MarkersFitCanvas | src/plotting/canvas.rs:211-234 | A marker centred in the drawable limits, no larger than the margin, stays on the canvas. |
| Canvases.DrawableExample | src/plotting/canvas.rs:211-234 | A 100×100 canvas with a uniform buffer of 5 and no graph, so no marker margin, draws in (5,5)-(94,94). |
| Colors.Find | src/plotting/colors.rs:286-292 | Found exactly when some entry has the name. The result is the colour of the first such entry. |
| Colors.FromName | src/plotting/colors.rs:286-292 | The result is the colour of the table entry whose name is the upper-cased name, if there is one. |
| Colors.AllNames | src/plotting/colors.rs:295-297 | More than 100 entries, each mapping to its colour. |
| Colors.TableFacts | src/plotting/colors.rs:143-283 | The table has 139 entries with distinct upper-case names. |
| Colors.FromNameOfTableName | src/plotting/colors.rs:143-292 | Every table name maps to its own colour. |
| Colors.FromNameCaseInsensitive | src/plotting/colors.rs:286-292 | Lookup ignores ASCII case, both upper and lower. |
| Colors.FromNameUnknown | src/plotting/colors.rs:317-322 | "", "Gren" and "not_a_color" are unknown. |
| ColorLookups.FromNameBlue | src/plotting/colors.rs:304-315 | "BLUE", "blue" and "Blue" are all BLUE. |
| ColorLookups.FromNameRed | src/plotting/colors.rs:304-315 | "RED" and "red" are RED. |
| ColorLookups.FromNameDarkRed | src/plotting/colors.rs:304-315 | Underscored names match in any case. |
| WindowCtrl.WindowSizeOf | src/window_ctrl.rs:39-53 | Fails naming rows and cols exactly when any of the four numbers is 0. Otherwise the numbers pass through and the cell size is the floor of pixels per cell. |
| WindowCtrl.MessageDeterminesDimensions | src/window_ctrl.rs:9-21 | Different dimensions give different messages: the message names them faithfully. |
| WindowCtrl.CellSizeBounds | src/window_ctrl.rs:43-44 | pix_per_col·cols ≤ x_pix and pix_per_row·rows ≤ y_pix, and a cell size is 0 exactly when the window has fewer pixels than cells. |
| WindowCtrl.WindowSizeExample | src/window_ctrl.rs:39-53 | 1600×900 in 50×200 cells gives 8×18-pixel cells, and 0 rows fails. |
| Images.CellOf | src/terminal_commands/images.rs:130-133 | row, col ≥ 1, offsets below the cell size, and (col-1)·ppc + offset_x = x (the same for y). Failure for a zero cell size or a `+ 1` overflow. |
| Images.CellOfUnique | src/terminal_commands/images.rs:130-133 | Those equations have exactly one solution. |
| Images.PositioningDetails | src/terminal_commands/images.rs:123-141 | As written: errors exactly when x > x_pix or y > y_pix, and otherwise gives the cell. |
| Images.EdgePixelCounterexample | src/terminal_commands/images.rs:127-128 | As written: x = 1600 in a 1600-pixel, 200-column window gives column 201. |
| Images.PositioningDetailsCorrected | src/terminal_commands/images.rs:123-141 | Corrected: errors exactly when x ≥ x_pix or y ≥ y_pix. |
| Images.CorrectedStaysInWindow | src/terminal_commands/images.rs:127-133 | Corrected: the cell found lies inside the window. |
| Images.CenteredOrigin | src/terminal_commands/images.rs:104-107 | x = x_pix/2 - width/2, y = y_pix/2 - height/2, failing on u32 underflow. |
| Images.CenteredMarginsEqual | src/terminal_commands/images.rs:104-107 | With even sizes the image has equal margins on both sides. |
| Images.DisplayPosition | src/terminal_commands/images.rs:82-110 | ExactPixel uses the cell formulas. Centered computes the origin and then uses them. |
| Images.ExactPixelAgrees | src/terminal_commands/images.rs:85-89 | For in-window pixels, ExactPixel agrees with the positioning details. |
| Images.ImageSize | src/terminal_commands/images.rs:44-71 | Rgb/Rgba take width and height from the format. PNG reads its size for files and direct data and is unsupported otherwise. Bounded PNG uses cells times cell size. |
| Images.BoundedPngSpansCells | src/terminal_commands/images.rs:56-61 | A bounded PNG's last pixel lies in its last cell. |
| Termplt.ParseU32 | src/bin/termplt.rs:229-233 | A parsed number is the text's decimal value, allowing a leading '+' or leading zeros. |
| Termplt.ParseU32Format | src/bin/termplt.rs:229-233 | Every u32's decimal text parses back to it. |
| Termplt.SetStyle | src/bin/termplt.rs:201-267 | A style flag keeps the data source. Only a non-numeric size or thickness fails. |
| Termplt.ParseArgs | src/bin/termplt.rs:164-290 | No arguments, unknown arguments, style-first arguments and missing values give their errors. Success has at least one spec. |
| Termplt.Step | src/bin/termplt.rs:181-275 | One option fails exactly when it is a style before any data. It adds its own source, and verbose becomes set exactly when it is `-v`. |
| Termplt.ParseRendered | src/bin/termplt.rs:164-290 | Parsing rendered options is applying them one by one. |
| Termplt.ApplyAllFailure | src/bin/termplt.rs:201-267 | Applying options fails exactly when a style comes before any data. |
| Termplt.ApplyAllSources | src/bin/termplt.rs:181-200 | One spec per `--data`/`--data_file`, in order. |
| Termplt.ApplyAllVerbose | src/bin/termplt.rs:173-175 | Verbose is set exactly when some option is `-v`/`--verbose`. |
| Termplt.ParseArgsOptions | src/bin/termplt.rs:164-290 | Success exactly when no style comes first and some data is given. The specs are the data sources in order, and verbose is set exactly when `-v` occurs. |
| Termplt.ApplyAllStyles | src/bin/termplt.rs:201-267 | Style flags after a data flag all apply to that series. |
| Termplt.ParseStyleFlags | src/bin/termplt.rs:685-709 | All six style flags after `--data` land in the one spec. |
| Termplt.ParseArgsExamples | src/bin/termplt.rs:655-743 | The repository's parse_args test cases. |
| Termplt.ParsePair | src/bin/termplt.rs:310-328 | A pair without exactly two comma fields is an invalid-point error. |
| Termplt.ReadAll | src/bin/termplt.rs:307-330 | Succeeds exactly when every piece parses, giving one value per piece. |
| Termplt.ReadAllFirstError | src/bin/termplt.rs:307-330 | On failure the error is the first failing piece's. |
| Termplt.ParseInlineData | src/bin/termplt.rs:296-331 | Blank input is an error. Otherwise success exactly when every "),("-separated pair parses, with one point per pair. |
| Termplt.SplitJoinSep | src/bin/termplt.rs:303-307 | Splitting joined parts on a separator absent from them gives the parts back. |
| Termplt.PairRoundTrip | src/bin/termplt.rs:310-328 | "(x,y)" parses to the point of x and y. |
| Termplt.InlineRoundTrip | src/bin/termplt.rs:296-331 | A list of pairs rendered as "(x1,y1),(x2,y2),…" parses back to its points. |
| Termplt.InlineDataBlank | src/bin/termplt.rs:297-301 | Empty or blank inline data is an error. |
| Termplt.InlineDataThreeFields | src/bin/termplt.rs:310-318 | A three-field pair is an invalid-point error naming it. |
| Termplt.MakeMarker | src/bin/termplt.rs:39-50 | The marker constructor keeps size, colour and shape. |
| Termplt.ResolveMarkerStyle | src/bin/termplt.rs:436-450 | "none" gives no marker. Each of the four names, in any case, gives its shape. Anything else is an error. |
| Termplt.ResolveMarkerStyleIgnoresCase | src/bin/termplt.rs:436-450 | Names equal up to ASCII case resolve alike. |
| Termplt.ResolveMarkerStyleExamples | src/bin/termplt.rs:859-881 | The repository's resolve_marker_style test cases. |
| Termplt.ResolveColor | src/bin/termplt.rs:420-434 | Succeeds exactly for table names, giving their colour. Otherwise fails with the unknown-colour message. |
| Termplt.ResolveColorExamples | src/bin/termplt.rs:883-896 | The repository's resolve_color test cases. |
| Termplt.ResolveOptColor | src/bin/termplt.rs:468-480 | An absent name gives none. A present name must resolve. |
| Termplt.LineWanted | src/bin/termplt.rs:502-520 | "none" in any case gives no line. "solid" or absent gives a line. Anything else is an error. |
| Termplt.SeriesColors | src/bin/termplt.rs:462-480 | Marker colour = marker ?? line ?? palette[i mod 6], and line colour = line ?? marker ?? palette[i mod 6]. |
| Termplt.ColorsMatch | src/bin/termplt.rs:468-480 | With at most one colour given, marker and line share it. |
| Termplt.SeriesMarker | src/bin/termplt.rs:483-499 | No style gives the palette's shape. "None" gives the invisible marker. A named style gives its shape with the given or default size. |
| Termplt.SeriesLine | src/bin/termplt.rs:502-520 | "none" gives no line. Otherwise Solid in the line colour with the given or default thickness. |
| Termplt.BuildSeries | src/bin/termplt.rs:456-523 | A series succeeds exactly when its points, colours, marker and line all resolve. It then holds those, with the marker and line coloured as resolved. |
| Termplt.PaletteCycles | src/bin/termplt.rs:52-59 | Series `i` and `i + 6` are styled alike. |
| Termplt.BuildSeriesDefaults | src/bin/termplt.rs:898-940 | The first series defaults to a blue filled circle of size 2 with a thin blue line. Marker "None" gives size 0. |

## Left out

- Terminal I/O is not modelled. This covers the raw-mode response reader
  (`responses.rs`), `TermCommand::execute`, writing frames to stdout
  (`term_ctrl.rs`), the CSI queries inside `get_window_size`, and
  `Image::display*`. The answers to the queries are parameters instead.
- The PNG dimension read through the `image` crate (`images.rs:46-55`) is
  not modelled. The size is a parameter of `Images.ImageSize`.
- The demo and print wrappers (`kitty_graphics/images.rs`, `png_imgs.rs`,
  `rgb_imgs.rs`, `rgba_imgs.rs`, `main.rs`) are not modelled. They are I/O
  plumbing around one-line byte builders.
- `parse_data_file`, `print_help`, `run`, `main` and `process::exit` in
  `termplt.rs` are left out as file and process plumbing. The parsed file
  data is a parameter, and `--help` is the `Help` parse outcome.
- Circle markers (`marker.rs:122-199`) are left out because they are
  floating-point trigonometry. `Markers.GetMask` requires a square style.
- `TerminalCanvas::scale_data` (`canvas.rs:175-209`) is left out because it
  rests on an unchecked float-to-int cast. `TerminalCanvas::draw`
  (`canvas.rs:133-154`) is left out because it composes `scale_data` with
  the modelled masks and `set_pixels`.
- `get_absolute_limits` (`canvas.rs:236-238`) and the `Line` wrappers
  (`line.rs:68-120`) only return a field or forward to the positioning's
  operation, which is modelled.
- Rust's float formatting (`to_string`, `{:e}`) and f64 parsing are
  parameters rather than definitions.
- The stale sources are not modelled: `src/text/text.rs`,
  `plotting/markers.rs`, `plotting/common.rs` and `plotting/styles.rs`.
  `scripts/generate_test_data.py` is a random test-data generator and is
  not modelled either.
- `Encoding.KnownVectors` does not cover the 27-byte vector "Many hands
  make light work." (`encoding.rs:123-129`). Evaluating it symbolically
  exceeds the proof budget. The general `Encoding.DecodeEncode`,
  `Encoding.EncodeUnfold` and `Encoding.EncodeLength` pin every output,
  that vector's included.
- `Texts.FromNumber` states the truncated branch as a shape: a mantissa
  prefix with at most `n` digits, then nothing or the exponent. It does not
  give the exact characters. The `Texts.SigFigs*` lemmas pin them for the
  repository's examples.
- `Texts.TextNew`, following the source, can only draw '0'..'3'. A number
  with any other digit fails, exactly as the source panics.
- `Termplt.ParsePair` states only the field-count error in its own
  contract. `Termplt.PairRoundTrip` gives the success case, with the float
  parser as a parameter.
- `Termplt.ParseU32` states one direction: a parsed value is the text's
  value up to a '+' or leading zeros. `Termplt.ParseU32Format` gives the
  other direction.
- `Images.ImageSize` does not model u32 overflow in cols·pix_per_col; the
  product is unbounded.
- u32 additions that could overflow (`center + size`, `row + 1` elsewhere
  than in `Images.CellOf`) are unbounded. Subtractions that could
  underflow are modelled as failures.
- i32 arithmetic is unbounded and never fails. The source overflows, and
  panics in a debug build, on: the Bresenham differences and the error
  updates (`line.rs:147-171`), `convert_to_i32() + shift` when widening a
  line (`line.rs:196`), and the glyph and label offsets (`text.rs:63`,
  `text.rs:239`). Points that far out are off any canvas, and modelling
  each as a failure would add an error path the program never reaches.
- PlotSeries.Div requires a non-zero divisor. The source divides f32
  values (`series.rs:35-42`), which gives infinities or NaN for zero, and
  Dafny's `real` has no such values.
- Points.Div requires a non-zero divisor for the same reason
  (`point.rs:70-79`).
- `Limits::new` is plain pairing. A right-to-left `BetweenPoints` line
  builds limits with min > max, so no ordering is imposed.
- The source files are from mixed revisions:
  - `point.rs`/`series.rs` use f32 while the rest is generic. All are
    modelled over one `Point` type.
  - `text.rs:42` calls a two-argument `get_bitmap`, but `numbers.rs:64`
    takes one argument. The one-argument form is modelled.
  - `images.rs` uses payload-carrying `Transmission` variants. Only the
    variant matters to the model.
- A zero pixels-per-cell in `Images.CellOf` is a `Failure`. The source
  divides by zero there, which panics.

## Findings

| source | as written | input that shows it | evidently intended | confidence | as-written member | corrected member |
|---|---|---|---|---|---|---|
| src/plotting/grid_lines.rs:33-48 | Grid lines are placed at `i·span/10` without adding `min`. | Limits (0,50)-(100,60), XOnly, thickness 0: the first line is at y = 1 and paints (0,1), outside the limits. | `min + i·span/10`, the first line a tenth of the way up the box. | high, not executed | GridLineMasks.GridOffsetCounterexample | GridLineMasks.CorrectedWithinLimits |
| src/plotting/graph.rs:250-281 with src/plotting/graph_limits.rs:62-63 | The graph shifts by -old.min, scales, and then shifts by +new.min. But a zero span already maps to the midpoint of the new range, so new.min is added twice. | src (5,0)-(5,10), dst (100,100)-(200,200): the point (5,0) goes to (250,100), outside the target. | Scale onto the target moved to the origin, then shift, so every point inside the old limits lands inside the new ones. | medium (the point half rests on the assumed `Point::scale_to`; the override half is visible code), not executed | Graphs.ScaleCounterexample | Graphs.ScaleCorrectedKeepsPointsInside |
| src/terminal_commands/images.rs:127-128 | The guard rejects only `x > x_pix`, so `x = x_pix` is accepted. | A 1600×900 window with 200 columns and x = 1600: column 201 of 200. | `x >= x_pix` (same for y). | high, not executed | Images.EdgePixelCounterexample | Images.CorrectedStaysInWindow |
