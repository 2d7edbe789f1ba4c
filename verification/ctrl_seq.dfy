/** Control data of the kitty terminal graphics protocol: each setting is
    written as `key=value`, settings are separated by `,`. The serialisers
    follow `get_ctrl_seq`; the parsers are the reading side a terminal
    applies, used here to show that nothing is lost in the serialisation. */
module CtrlSeq {
  import opened Ints
  import opened Strings
  import opened Wrappers

  datatype Transmission = Direct | File | TempFile | SharedMemory

  datatype PixelFormat =
    | Png
    | PngBounded(cols: u32, rows: u32)
    | Rgb(width: u32, height: u32)
    | Rgba(width: u32, height: u32)

  datatype Action = TransmitDisplay | Query

  datatype Metadata = Id(id: u32) | MoreData(more: bool) | StackingOrder(z: u16)

  datatype Positioning = Current | WithCellOffset(offsetX: u16, offsetY: u16)

  datatype DisplayRegion =
    | Rectangle(x: u16, y: u16, width: u16, height: u16)
    | Rows(rows: u16)
    | Cols(cols: u16)
    | RowsCols(rows: u16, cols: u16)

  /** `format!("{n}")` of an unsigned field. */
  function Num(n: nat): string {
    NatToString(n)
  }

  function TransmissionCtrl(t: Transmission): (r: string)
    ensures |r| == 3
  {
    match t
    case Direct => "t=d"
    case File => "t=f"
    case TempFile => "t=t"
    case SharedMemory => "t=s"
  }

  function PixelFormatCtrl(f: PixelFormat): (r: string)
    ensures |r| >= 5
  {
    match f
    case Png => "f=100"
    case PngBounded(cols, rows) => "f=100,c=" + Num(cols) + ",r=" + Num(rows)
    case Rgb(w, h) => "f=24,s=" + Num(w) + ",v=" + Num(h)
    case Rgba(w, h) => "f=32,s=" + Num(w) + ",v=" + Num(h)
  }

  function ActionCtrl(a: Action): (r: string)
    ensures |r| == 3
  {
    match a
    case TransmitDisplay => "a=T"
    case Query => "a=q"
  }

  function MetadataCtrl(m: Metadata): (r: string)
    ensures |r| >= 3
  {
    match m
    case Id(id) => "i=" + Num(id)
    case MoreData(more) => if more then "m=1" else "m=0"
    case StackingOrder(z) => "z=" + Num(z)
  }

  function PositioningCtrl(p: Positioning): (r: string)
    ensures r == "" <==> p.Current?
  {
    match p
    case Current => ""
    case WithCellOffset(x, y) => "X=" + Num(x) + ",Y=" + Num(y)
  }

  function DisplayRegionCtrl(d: DisplayRegion): (r: string)
    ensures |r| >= 3
  {
    match d
    case Rectangle(x, y, w, h) => "x=" + Num(x) + ",y=" + Num(y) + ",w=" + Num(w) + ",h=" + Num(h)
    case Rows(rows) => "r=" + Num(rows)
    case Cols(cols) => "c=" + Num(cols)
    case RowsCols(rows, cols) => "r=" + Num(rows) + ",c=" + Num(cols)
  }

  // ---------------------------------------------------------------------
  // The reading side: `key=value` entries separated by `,`.

  /** One `key=value` setting. */
  datatype Entry = Entry(key: char, value: string)

  function RenderEntry(e: Entry): string {
    [e.key] + "=" + e.value
  }

  function RenderedList(es: seq<Entry>): (r: seq<string>)
    ensures |r| == |es|
    ensures forall i :: 0 <= i < |es| ==> r[i] == RenderEntry(es[i])
  {
    if |es| == 0 then [] else [RenderEntry(es[0])] + RenderedList(es[1..])
  }

  function RenderEntries(es: seq<Entry>): string {
    Join(RenderedList(es), ",")
  }

  /** An entry whose key and value can be told apart from the separators. */
  predicate PlainEntry(e: Entry) {
    e.key != ',' && ',' !in e.value
  }

  function ParseEntry(p: string): Option<Entry> {
    if |p| >= 2 && p[1] == '=' then Some(Entry(p[0], p[2..])) else None
  }

  function ParseEntryList(ps: seq<string>): Option<seq<Entry>> {
    if |ps| == 0 then Some([])
    else
      var e :- ParseEntry(ps[0]);
      var rest :- ParseEntryList(ps[1..]);
      Some([e] + rest)
  }

  /** The entries of a control string; the empty string has none. */
  function ParseEntries(s: string): Option<seq<Entry>> {
    if s == "" then Some([]) else ParseEntryList(Split(s, ","))
  }

  lemma {:induction false} ParseEntryListRender(es: seq<Entry>)
    ensures ParseEntryList(RenderedList(es)) == Some(es)
    decreases |es|
  {
    var ps := RenderedList(es);
    if |es| > 0 {
      ParseEntryRender(es[0]);
      assert ps[1..] == RenderedList(es[1..]);
      ParseEntryListRender(es[1..]);
      assert ParseEntryList(ps) == Some([es[0]] + es[1..]);
      assert es == [es[0]] + es[1..];
    }
  }

  /** One entry reads back from its rendering. */
  lemma ParseEntryRender(e: Entry)
    ensures ParseEntry(RenderEntry(e)) == Some(e)
  {
    var p := RenderEntry(e);
    assert p[1] == '=' && p[2..] == e.value;
  }

  /** Reading back a rendered list of plain entries gives the entries. */
  lemma ParseRenderEntries(es: seq<Entry>)
    requires forall i :: 0 <= i < |es| ==> PlainEntry(es[i])
    ensures ParseEntries(RenderEntries(es)) == Some(es)
  {
    var ps := RenderedList(es);
    if |es| > 0 {
      forall i | 0 <= i < |ps| ensures ',' !in ps[i] {
        assert ps[i] == [es[i].key] + "=" + es[i].value;
      }
      SplitJoinChar(ps, ',');
      assert |ps[0]| >= 2;
      JoinNonEmpty(ps, ",");
    }
    ParseEntryListRender(es);
  }

  lemma JoinNonEmpty(parts: seq<string>, sep: string)
    requires |parts| >= 1 && |parts[0]| >= 1
    ensures Join(parts, sep) != ""
  {
    if |parts| > 1 {
      assert Join(parts, sep)[0] == parts[0][0];
    }
  }

  /** An unsigned decimal field. */
  function ParseNum(s: string): Option<nat> {
    if |s| > 0 && AllDigits(s) then Some(DigitsValue(s)) else None
  }

  lemma ParseNumNum(n: nat)
    ensures ParseNum(Num(n)) == Some(n)
    ensures ',' !in Num(n)
  {
    NatToStringValue(n);
    var s := Num(n);
    assert forall i :: 0 <= i < |s| ==> s[i] != ',' by {
      assert AllDigits(s);
    }
  }

  function ParseU32(s: string): Option<u32> {
    var n :- ParseNum(s);
    if n <= U32_MAX then Some(n) else None
  }

  function ParseU16(s: string): Option<u16> {
    var n :- ParseNum(s);
    if n <= U16_MAX then Some(n) else None
  }

  function ParseTransmission(s: string): Option<Transmission> {
    if s == "t=d" then Some(Direct)
    else if s == "t=f" then Some(File)
    else if s == "t=t" then Some(TempFile)
    else if s == "t=s" then Some(SharedMemory)
    else None
  }

  function ParseAction(s: string): Option<Action> {
    if s == "a=T" then Some(TransmitDisplay)
    else if s == "a=q" then Some(Query)
    else None
  }

  function ParsePixelFormat(s: string): Option<PixelFormat> {
    var es :- ParseEntries(s);
    PixelFormatOf(es)
  }

  function PixelFormatOf(es: seq<Entry>): Option<PixelFormat> {
    if |es| == 1 && es[0] == Entry('f', "100") then Some(Png)
    else if |es| == 3 && es[0] == Entry('f', "100") && es[1].key == 'c' && es[2].key == 'r' then
      var c :- ParseU32(es[1].value);
      var r :- ParseU32(es[2].value);
      Some(PngBounded(c, r))
    else if |es| == 3 && es[0].key == 'f' && (es[0].value == "24" || es[0].value == "32")
            && es[1].key == 's' && es[2].key == 'v' then
      var w :- ParseU32(es[1].value);
      var h :- ParseU32(es[2].value);
      Some(if es[0].value == "24" then Rgb(w, h) else Rgba(w, h))
    else None
  }

  function ParseMetadata(s: string): Option<Metadata> {
    var es :- ParseEntries(s);
    if |es| != 1 then None
    else if es[0].key == 'i' then
      var id :- ParseU32(es[0].value);
      Some(Id(id))
    else if es[0] == Entry('m', "1") then Some(MoreData(true))
    else if es[0] == Entry('m', "0") then Some(MoreData(false))
    else if es[0].key == 'z' then
      var z :- ParseU16(es[0].value);
      Some(StackingOrder(z))
    else None
  }

  function ParsePositioning(s: string): Option<Positioning> {
    var es :- ParseEntries(s);
    if |es| == 0 then Some(Current)
    else if |es| == 2 && es[0].key == 'X' && es[1].key == 'Y' then
      var x :- ParseU16(es[0].value);
      var y :- ParseU16(es[1].value);
      Some(WithCellOffset(x, y))
    else None
  }

  function ParseDisplayRegion(s: string): Option<DisplayRegion> {
    var es :- ParseEntries(s);
    DisplayRegionOf(es)
  }

  function DisplayRegionOf(es: seq<Entry>): Option<DisplayRegion> {
    if |es| == 4 && es[0].key == 'x' && es[1].key == 'y' && es[2].key == 'w' && es[3].key == 'h' then
      var x :- ParseU16(es[0].value);
      var y :- ParseU16(es[1].value);
      var w :- ParseU16(es[2].value);
      var h :- ParseU16(es[3].value);
      Some(Rectangle(x, y, w, h))
    else if |es| == 1 && es[0].key == 'r' then
      var r :- ParseU16(es[0].value);
      Some(Rows(r))
    else if |es| == 1 && es[0].key == 'c' then
      var c :- ParseU16(es[0].value);
      Some(Cols(c))
    else if |es| == 2 && es[0].key == 'r' && es[1].key == 'c' then
      var r :- ParseU16(es[0].value);
      var c :- ParseU16(es[1].value);
      Some(RowsCols(r, c))
    else None
  }

  // ---------------------------------------------------------------------
  // Round trips: every serialised setting reads back as itself.

  lemma RenderOne(k: char, v: string)
    ensures RenderEntries([Entry(k, v)]) == [k] + "=" + v
  {
    assert RenderedList([Entry(k, v)]) == [[k] + "=" + v];
  }

  lemma RenderTwo(k1: char, v1: string, k2: char, v2: string)
    ensures RenderEntries([Entry(k1, v1), Entry(k2, v2)]) == [k1] + "=" + v1 + "," + [k2] + "=" + v2
  {
    var a, b := [k1] + "=" + v1, [k2] + "=" + v2;
    assert RenderedList([Entry(k1, v1), Entry(k2, v2)]) == [a, b];
    assert [a, b][1..] == [b];
    assert Join([a, b], ",") == a + "," + b;
  }

  lemma RenderThree(k1: char, v1: string, k2: char, v2: string, k3: char, v3: string)
    ensures RenderEntries([Entry(k1, v1), Entry(k2, v2), Entry(k3, v3)])
            == [k1] + "=" + v1 + "," + [k2] + "=" + v2 + "," + [k3] + "=" + v3
  {
    var a, b, c := [k1] + "=" + v1, [k2] + "=" + v2, [k3] + "=" + v3;
    assert RenderedList([Entry(k1, v1), Entry(k2, v2), Entry(k3, v3)]) == [a, b, c];
    assert [a, b, c][1..] == [b, c];
    assert [b, c][1..] == [c];
    assert Join([b, c], ",") == b + "," + c;
    assert Join([a, b, c], ",") == a + "," + (b + "," + c);
  }

  lemma RenderFour(k1: char, v1: string, k2: char, v2: string, k3: char, v3: string, k4: char, v4: string)
    ensures RenderEntries([Entry(k1, v1), Entry(k2, v2), Entry(k3, v3), Entry(k4, v4)])
            == [k1] + "=" + v1 + "," + [k2] + "=" + v2 + "," + [k3] + "=" + v3 + "," + [k4] + "=" + v4
  {
    var a, b, c, d := [k1] + "=" + v1, [k2] + "=" + v2, [k3] + "=" + v3, [k4] + "=" + v4;
    assert RenderedList([Entry(k1, v1), Entry(k2, v2), Entry(k3, v3), Entry(k4, v4)]) == [a, b, c, d];
    assert [a, b, c, d][1..] == [b, c, d];
    assert [b, c, d][1..] == [c, d];
    assert [c, d][1..] == [d];
    assert Join([c, d], ",") == c + "," + d;
    assert Join([b, c, d], ",") == b + "," + (c + "," + d);
    assert Join([a, b, c, d], ",") == a + "," + (b + "," + (c + "," + d));
  }

  lemma TransmissionRoundTrip(t: Transmission)
    ensures ParseTransmission(TransmissionCtrl(t)) == Some(t)
  {
  }

  lemma ActionRoundTrip(a: Action)
    ensures ParseAction(ActionCtrl(a)) == Some(a)
  {
  }

  /** The serialised form is the rendering of plain entries, hence parses back to them. */
  lemma EntriesOf(s: string, es: seq<Entry>)
    requires s == RenderEntries(es)
    requires forall i :: 0 <= i < |es| ==> PlainEntry(es[i])
    ensures ParseEntries(s) == Some(es)
  {
    ParseRenderEntries(es);
  }

  lemma ThreeFields(s: string, k1: char, v1: string, k2: char, n2: nat, k3: char, n3: nat)
    requires k1 != ',' && ',' !in v1 && k2 != ',' && k3 != ','
    requires s == [k1] + "=" + v1 + "," + [k2] + "=" + Num(n2) + "," + [k3] + "=" + Num(n3)
    ensures ParseEntries(s) == Some([Entry(k1, v1), Entry(k2, Num(n2)), Entry(k3, Num(n3))])
    ensures ParseNum(Num(n2)) == Some(n2) && ParseNum(Num(n3)) == Some(n3)
  {
    ParseNumNum(n2);
    ParseNumNum(n3);
    var es := [Entry(k1, v1), Entry(k2, Num(n2)), Entry(k3, Num(n3))];
    assert s == RenderEntries(es) by {
      RenderThree(k1, v1, k2, Num(n2), k3, Num(n3));
    }
    EntriesOf(s, es);
  }

  lemma PngBoundedRoundTrip(c: u32, r: u32)
    ensures ParsePixelFormat(PixelFormatCtrl(PngBounded(c, r))) == Some(PngBounded(c, r))
  {
    var s := PixelFormatCtrl(PngBounded(c, r));
    assert s == ['f'] + "=" + "100" + "," + ['c'] + "=" + Num(c) + "," + ['r'] + "=" + Num(r);
    ThreeFields(s, 'f', "100", 'c', c, 'r', r);
  }

  lemma RgbRoundTrip(w: u32, h: u32)
    ensures ParsePixelFormat(PixelFormatCtrl(Rgb(w, h))) == Some(Rgb(w, h))
  {
    var s := PixelFormatCtrl(Rgb(w, h));
    assert s == ['f'] + "=" + "24" + "," + ['s'] + "=" + Num(w) + "," + ['v'] + "=" + Num(h);
    ThreeFields(s, 'f', "24", 's', w, 'v', h);
  }

  lemma RgbaRoundTrip(w: u32, h: u32)
    ensures ParsePixelFormat(PixelFormatCtrl(Rgba(w, h))) == Some(Rgba(w, h))
  {
    var s := PixelFormatCtrl(Rgba(w, h));
    assert s == ['f'] + "=" + "32" + "," + ['s'] + "=" + Num(w) + "," + ['v'] + "=" + Num(h);
    ThreeFields(s, 'f', "32", 's', w, 'v', h);
  }

  lemma PixelFormatRoundTrip(f: PixelFormat)
    ensures ParsePixelFormat(PixelFormatCtrl(f)) == Some(f)
  {
    match f
    case Png =>
      RenderOne('f', "100");
      EntriesOf("f=100", [Entry('f', "100")]);
    case PngBounded(c, r) =>
      PngBoundedRoundTrip(c, r);
    case Rgb(w, h) =>
      RgbRoundTrip(w, h);
    case Rgba(w, h) =>
      RgbaRoundTrip(w, h);
  }

  /** One `key=number` entry parses back to the number. */
  lemma OneNumber(s: string, k: char, n: nat)
    requires k != ',' && s == [k] + "=" + Num(n)
    ensures ParseEntries(s) == Some([Entry(k, Num(n))])
    ensures ParseNum(Num(n)) == Some(n)
  {
    ParseNumNum(n);
    RenderOne(k, Num(n));
    EntriesOf(s, [Entry(k, Num(n))]);
  }

  /** Two `key=number` entries parse back to the numbers. */
  lemma TwoNumbers(s: string, k1: char, n1: nat, k2: char, n2: nat)
    requires k1 != ',' && k2 != ',' && s == [k1] + "=" + Num(n1) + "," + [k2] + "=" + Num(n2)
    ensures ParseEntries(s) == Some([Entry(k1, Num(n1)), Entry(k2, Num(n2))])
    ensures ParseNum(Num(n1)) == Some(n1) && ParseNum(Num(n2)) == Some(n2)
  {
    ParseNumNum(n1);
    ParseNumNum(n2);
    RenderTwo(k1, Num(n1), k2, Num(n2));
    EntriesOf(s, [Entry(k1, Num(n1)), Entry(k2, Num(n2))]);
  }

  lemma MetadataRoundTrip(m: Metadata)
    ensures ParseMetadata(MetadataCtrl(m)) == Some(m)
  {
    match m
    case Id(id) =>
      OneNumber(MetadataCtrl(m), 'i', id);
    case MoreData(more) =>
      var v := if more then "1" else "0";
      RenderOne('m', v);
      EntriesOf(MetadataCtrl(m), [Entry('m', v)]);
    case StackingOrder(z) =>
      OneNumber(MetadataCtrl(m), 'z', z);
  }

  lemma PositioningRoundTrip(p: Positioning)
    ensures ParsePositioning(PositioningCtrl(p)) == Some(p)
  {
    match p
    case Current =>
    case WithCellOffset(x, y) =>
      TwoNumbers(PositioningCtrl(p), 'X', x, 'Y', y);
  }

  lemma FourNumbers(s: string, n1: nat, n2: nat, n3: nat, n4: nat)
    requires s == ['x'] + "=" + Num(n1) + "," + ['y'] + "=" + Num(n2) + "," + ['w'] + "=" + Num(n3) + "," + ['h'] + "=" + Num(n4)
    ensures ParseEntries(s) == Some([Entry('x', Num(n1)), Entry('y', Num(n2)), Entry('w', Num(n3)), Entry('h', Num(n4))])
  {
    ParseNumNum(n1);
    ParseNumNum(n2);
    ParseNumNum(n3);
    ParseNumNum(n4);
    var es := [Entry('x', Num(n1)), Entry('y', Num(n2)), Entry('w', Num(n3)), Entry('h', Num(n4))];
    RenderFour('x', Num(n1), 'y', Num(n2), 'w', Num(n3), 'h', Num(n4));
    EntriesOf(s, es);
  }

  lemma RectangleRoundTrip(x: u16, y: u16, w: u16, h: u16)
    ensures ParseDisplayRegion(DisplayRegionCtrl(Rectangle(x, y, w, h))) == Some(Rectangle(x, y, w, h))
  {
    var s := DisplayRegionCtrl(Rectangle(x, y, w, h));
    assert s == ['x'] + "=" + Num(x) + "," + ['y'] + "=" + Num(y) + "," + ['w'] + "=" + Num(w) + "," + ['h'] + "=" + Num(h);
    FourNumbers(s, x, y, w, h);
    ParseNumNum(x);
    ParseNumNum(y);
    ParseNumNum(w);
    ParseNumNum(h);
  }

  lemma DisplayRegionRoundTrip(d: DisplayRegion)
    ensures ParseDisplayRegion(DisplayRegionCtrl(d)) == Some(d)
  {
    match d
    case Rectangle(x, y, w, h) =>
      RectangleRoundTrip(x, y, w, h);
    case Rows(r) =>
      OneNumber(DisplayRegionCtrl(d), 'r', r);
    case Cols(c) =>
      OneNumber(DisplayRegionCtrl(d), 'c', c);
    case RowsCols(r, c) =>
      TwoNumbers(DisplayRegionCtrl(d), 'r', r, 'c', c);
  }

  /** Different pixel formats are never written the same way. */
  lemma PixelFormatInjective(a: PixelFormat, b: PixelFormat)
    requires PixelFormatCtrl(a) == PixelFormatCtrl(b)
    ensures a == b
  {
    PixelFormatRoundTrip(a);
    PixelFormatRoundTrip(b);
  }

  /** Different display regions are never written the same way. */
  lemma DisplayRegionInjective(a: DisplayRegion, b: DisplayRegion)
    requires DisplayRegionCtrl(a) == DisplayRegionCtrl(b)
    ensures a == b
  {
    DisplayRegionRoundTrip(a);
    DisplayRegionRoundTrip(b);
  }
}
