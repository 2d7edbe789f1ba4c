/** The `termplt` command line: the argument state machine that turns the
    flags into one specification per data series, the splitting of inline
    data, and the marker, line and colour choices made for each series.
    Reading a number as `f64` is a parameter (`parseNum`), and the points
    of a data file are an input (`fileData`): file reading is I/O. */
module Termplt {
  import opened Wrappers
  import opened Ints
  import opened Strings
  import opened Points
  import opened Colors
  import opened Markers
  import opened Lines
  import ColorLookups
  import PS = PlotSeries

  // ---------------------------------------------------------------------
  // Arguments

  datatype DataSource = Inline(text: string) | File(path: string)

  /** `SeriesSpec`: where one series' data comes from and the style flags
      that followed it, as given. */
  datatype SeriesSpec = SeriesSpec(
    source: DataSource,
    markerStyle: Option<string>,
    markerColor: Option<string>,
    markerSize: Option<u32>,
    lineStyle: Option<string>,
    lineColor: Option<string>,
    lineThickness: Option<u32>)

  function NewSpec(source: DataSource): SeriesSpec {
    SeriesSpec(source, None, None, None, None, None, None)
  }

  datatype CliArgs = CliArgs(specs: seq<SeriesSpec>, verbose: bool)

  /** How parsing ends: with the parsed arguments, or with the help text
      for a topic, after which the process exits. */
  datatype Parsed = Run(cli: CliArgs) | Help(topic: Option<string>)

  /** The parser between arguments: the finished specifications, the one
      style flags apply to, and the verbose switch. */
  datatype ParseState = ParseState(specs: seq<SeriesSpec>, current: Option<SeriesSpec>, verbose: bool)

  const START := ParseState([], None, false)

  const MUST_FOLLOW := " must appear after --data or --data_file"
  const NO_DATA := "No data provided. Use --data or --data_file to supply data points.\nRun 'termplt --help' for usage."

  /** `u32::from_str`: an optional `+`, then at least one decimal digit,
      with a value that fits 32 bits. */
  function ParseU32(s: string): (r: Option<u32>)
    ensures r.Some? ==> NatToString(r.value) == s || (|s| > 0 && s[0] == '+') || (|s| > 1 && s[0] == '0')
  {
    var digits := if |s| > 0 && s[0] == '+' then s[1..] else s;
    if |digits| > 0 && AllDigits(digits) && DigitsValue(digits) <= U32_MAX then
      ParsedDigits(digits);
      Some(DigitsValue(digits))
    else None
  }

  /** A digit string without a leading zero is the decimal text of its value. */
  lemma ParsedDigits(s: string)
    requires |s| > 0 && AllDigits(s)
    ensures (|s| == 1 || s[0] != '0') ==> NatToString(DigitsValue(s)) == s
  {
    if |s| == 1 || s[0] != '0' {
      DigitsFormat(s);
    }
  }

  lemma {:induction false} DigitsFormat(s: string)
    requires |s| > 0 && AllDigits(s) && (|s| == 1 || s[0] != '0')
    ensures NatToString(DigitsValue(s)) == s
    decreases |s|
  {
    var n := DigitsValue(s);
    var init := s[..|s| - 1];
    var d := s[|s| - 1] as int - '0' as int;
    if |s| == 1 {
      assert init == [];
      assert DigitsValue(init) == 0;
      assert n == DigitsValue(init) * 10 + d;
      assert NatToString(n) == [DigitChar(d)];
    } else {
      assert init[0] == s[0];
      DigitsFormat(init);
      var m := DigitsValue(init);
      LeadingDigitPositive(init);
      assert n == m * 10 + d && n >= 10;
      assert n / 10 == m && n % 10 == d;
      assert NatToString(n) == NatToString(m) + [DigitChar(d)];
      assert s == init + [s[|s| - 1]];
    }
  }

  /** Digits that do not start with 0 have a positive value. */
  lemma {:induction false} LeadingDigitPositive(s: string)
    requires |s| > 0 && AllDigits(s) && s[0] != '0'
    ensures DigitsValue(s) >= 1
    decreases |s|
  {
    if |s| > 1 {
      assert s[..|s| - 1][0] == s[0];
      LeadingDigitPositive(s[..|s| - 1]);
    } else {
      assert s[..0] == [];
    }
  }

  /** Formatting and parsing a `u32` round-trip. */
  lemma ParseU32Format(n: u32)
    ensures ParseU32(NatToString(n)) == Some(n)
  {
    var s := NatToString(n);
    NatToStringValue(n);
    assert !(s[0] == '+') by {
      assert IsDigit(s[0]);
    }
  }

  predicate IsStyleFlag(a: string) {
    a == "--marker_style" || a == "--marker_color" || a == "--marker_size"
    || a == "--line_style" || a == "--line_color" || a == "--line_thickness"
  }

  predicate IsDataFlag(a: string) {
    a == "--data" || a == "--data_file"
  }

  predicate IsKnownFlag(a: string) {
    a == "--verbose" || a == "-v" || a == "--help" || a == "-h" || IsDataFlag(a) || IsStyleFlag(a)
  }

  /** The error for a flag given last, without its value. */
  function MissingValue(flag: string): string {
    if flag == "--data" then "--data requires a value, e.g. --data \"(1,2),(3,4)\""
    else if flag == "--data_file" then "--data_file requires a file path"
    else flag + " requires a value"
  }

  function UnknownArgument(a: string): string {
    "Unknown argument '" + a + "'. Run 'termplt --help' for usage."
  }

  function NotANumber(flag: string, value: string): string {
    flag + " value '" + value + "' is not a valid positive integer"
  }

  /** One style flag's value stored in the specification it follows; the
      size and thickness must read as a `u32`. */
  function SetStyle(spec: SeriesSpec, flag: string, value: string): (r: Result<SeriesSpec>)
    requires IsStyleFlag(flag)
    ensures r.Success? ==> r.value.source == spec.source
    ensures r.Failure? <==>
              (flag == "--marker_size" || flag == "--line_thickness") && ParseU32(value).None?
  {
    if flag == "--marker_style" then Success(spec.(markerStyle := Some(value)))
    else if flag == "--marker_color" then Success(spec.(markerColor := Some(value)))
    else if flag == "--line_style" then Success(spec.(lineStyle := Some(value)))
    else if flag == "--line_color" then Success(spec.(lineColor := Some(value)))
    else
      match ParseU32(value)
      case None => Failure(NotANumber(flag, value))
      case Some(n) =>
        if flag == "--marker_size" then Success(spec.(markerSize := Some(n)))
        else Success(spec.(lineThickness := Some(n)))
  }

  /** The finished specifications with the one still open. */
  function Flush(st: ParseState): seq<SeriesSpec> {
    st.specs + (if st.current.Some? then [st.current.value] else [])
  }

  /** The end of the arguments: at least one specification is required. */
  function Finish(st: ParseState): (r: Result<Parsed>)
    ensures r.Success? <==> |Flush(st)| > 0
  {
    if |Flush(st)| == 0 then Failure(NO_DATA) else Success(Run(CliArgs(Flush(st), st.verbose)))
  }

  /** The loop of `parse_args` over the arguments still unread. */
  function ParseFrom(rest: seq<string>, st: ParseState): (r: Result<Parsed>)
    ensures r.Success? && r.value.Run? ==> |r.value.cli.specs| >= 1
    decreases |rest|
  {
    if |rest| == 0 then Finish(st)
    else
      var a := rest[0];
      if a == "--verbose" || a == "-v" then ParseFrom(rest[1..], st.(verbose := true))
      else if a == "--help" || a == "-h" then Success(Help(if |rest| > 1 then Some(rest[1]) else None))
      else if IsDataFlag(a) then
        if |rest| < 2 then Failure(MissingValue(a))
        else
          var source := if a == "--data" then Inline(rest[1]) else File(rest[1]);
          ParseFrom(rest[2..], ParseState(Flush(st), Some(NewSpec(source)), st.verbose))
      else if IsStyleFlag(a) then
        if |rest| < 2 then Failure(MissingValue(a))
        else if st.current.None? then Failure(a + MUST_FOLLOW)
        else
          match SetStyle(st.current.value, a, rest[1])
          case Failure(e) => Failure(e)
          case Success(spec) => ParseFrom(rest[2..], st.(current := Some(spec)))
      else Failure(UnknownArgument(a))
  }

  /** `parse_args`. */
  function ParseArgs(args: seq<string>): (r: Result<Parsed>)
    ensures r.Success? && r.value.Run? ==> |r.value.cli.specs| >= 1
    ensures |args| == 0 ==> r == Failure(NO_DATA)
    ensures |args| > 0 && !IsKnownFlag(args[0]) ==> r == Failure(UnknownArgument(args[0]))
    ensures |args| >= 2 && IsStyleFlag(args[0]) ==> r == Failure(args[0] + MUST_FOLLOW)
    ensures |args| == 1 && (IsDataFlag(args[0]) || IsStyleFlag(args[0])) ==> r == Failure(MissingValue(args[0]))
  {
    ParseFrom(args, START)
  }

  // ---------------------------------------------------------------------
  // The arguments as a list of options

  /** One option as a user means it; `Render` spells it as arguments. */
  datatype Opt =
    | DataOpt(text: string)
    | DataFileOpt(path: string)
    | MarkerStyleOpt(name: string)
    | MarkerColorOpt(name: string)
    | MarkerSizeOpt(size: u32)
    | LineStyleOpt(name: string)
    | LineColorOpt(name: string)
    | LineThicknessOpt(thickness: u32)
    | VerboseOpt(short: bool)

  function FlagOf(o: Opt): string {
    match o
    case DataOpt(_) => "--data"
    case DataFileOpt(_) => "--data_file"
    case MarkerStyleOpt(_) => "--marker_style"
    case MarkerColorOpt(_) => "--marker_color"
    case MarkerSizeOpt(_) => "--marker_size"
    case LineStyleOpt(_) => "--line_style"
    case LineColorOpt(_) => "--line_color"
    case LineThicknessOpt(_) => "--line_thickness"
    case VerboseOpt(short) => if short then "-v" else "--verbose"
  }

  function Render(o: Opt): (r: seq<string>)
    ensures |r| >= 1 && r[0] == FlagOf(o)
  {
    match o
    case DataOpt(t) => [FlagOf(o), t]
    case DataFileOpt(p) => [FlagOf(o), p]
    case MarkerStyleOpt(n) => [FlagOf(o), n]
    case MarkerColorOpt(n) => [FlagOf(o), n]
    case MarkerSizeOpt(n) => [FlagOf(o), NatToString(n)]
    case LineStyleOpt(n) => [FlagOf(o), n]
    case LineColorOpt(n) => [FlagOf(o), n]
    case LineThicknessOpt(n) => [FlagOf(o), NatToString(n)]
    case VerboseOpt(_) => [FlagOf(o)]
  }

  function RenderAll(opts: seq<Opt>): seq<string> {
    if |opts| == 0 then [] else Render(opts[0]) + RenderAll(opts[1..])
  }

  predicate IsStyleOpt(o: Opt) {
    !(o.DataOpt? || o.DataFileOpt? || o.VerboseOpt?)
  }

  /** What an option does to a specification it applies to. */
  function ApplyStyle(spec: SeriesSpec, o: Opt): (r: SeriesSpec)
    requires IsStyleOpt(o)
    ensures r.source == spec.source
  {
    match o
    case MarkerStyleOpt(n) => spec.(markerStyle := Some(n))
    case MarkerColorOpt(n) => spec.(markerColor := Some(n))
    case MarkerSizeOpt(n) => spec.(markerSize := Some(n))
    case LineStyleOpt(n) => spec.(lineStyle := Some(n))
    case LineColorOpt(n) => spec.(lineColor := Some(n))
    case LineThicknessOpt(n) => spec.(lineThickness := Some(n))
  }

  /** The meaning of one option: a data option opens a new specification,
      a style option sets its field in the open one (an error when none is
      open), the verbose option switches verbose on. */
  function Step(st: ParseState, o: Opt): (r: Result<ParseState>)
    ensures r.Failure? <==> IsStyleOpt(o) && st.current.None?
    ensures r.Success? ==> SpecSources(Flush(r.value)) == SpecSources(Flush(st)) + SourceOf(o)
    ensures r.Success? ==> (r.value.verbose <==> st.verbose || o.VerboseOpt?)
    ensures r.Success? ==> (r.value.current.None? ==> r.value.specs == st.specs && o.VerboseOpt?)
  {
    match o
    case DataOpt(t) => Success(ParseState(Flush(st), Some(NewSpec(Inline(t))), st.verbose))
    case DataFileOpt(p) => Success(ParseState(Flush(st), Some(NewSpec(File(p))), st.verbose))
    case VerboseOpt(_) => Success(st.(verbose := true))
    case _ =>
      if st.current.None? then Failure(FlagOf(o) + MUST_FOLLOW)
      else Success(st.(current := Some(ApplyStyle(st.current.value, o))))
  }

  /** The options applied in order, stopping at the first error. */
  function ApplyAll(st: ParseState, opts: seq<Opt>): (r: Result<ParseState>)
    decreases |opts|
  {
    if |opts| == 0 then Success(st)
    else
      match Step(st, opts[0])
      case Failure(e) => Failure(e)
      case Success(next) => ApplyAll(next, opts[1..])
  }

  function FinishAll(r: Result<ParseState>): Result<Parsed> {
    match r
    case Failure(e) => Failure(e)
    case Success(st) => Finish(st)
  }

  /** The parser reads rendered options exactly as they mean: parsing the
      arguments of a list of options is applying the options. */
  lemma {:induction false} ParseRendered(opts: seq<Opt>, st: ParseState)
    ensures ParseFrom(RenderAll(opts), st) == FinishAll(ApplyAll(st, opts))
    decreases |opts|
  {
    if |opts| > 0 {
      assert RenderAll(opts) == Render(opts[0]) + RenderAll(opts[1..]);
      RenderStep(opts[0], RenderAll(opts[1..]), st);
      if Step(st, opts[0]).Success? {
        ParseRendered(opts[1..], Step(st, opts[0]).value);
      }
    }
  }

  /** Reading one rendered option does what `Step` says, then reads on. */
  lemma RenderStep(o: Opt, rest: seq<string>, st: ParseState)
    ensures Step(st, o).Failure? ==> ParseFrom(Render(o) + rest, st) == Failure(Step(st, o).error)
    ensures Step(st, o).Success? ==> ParseFrom(Render(o) + rest, st) == ParseFrom(rest, Step(st, o).value)
  {
    if o.VerboseOpt? {
      assert (Render(o) + rest)[1..] == rest;
    } else if IsStyleOpt(o) {
      RenderStyleStep(o, rest, st);
    } else {
      assert (Render(o) + rest)[2..] == rest;
    }
  }

  lemma RenderStyleStep(o: Opt, rest: seq<string>, st: ParseState)
    requires IsStyleOpt(o)
    ensures Step(st, o).Failure? ==> ParseFrom(Render(o) + rest, st) == Failure(Step(st, o).error)
    ensures Step(st, o).Success? ==> ParseFrom(Render(o) + rest, st) == ParseFrom(rest, Step(st, o).value)
  {
    var args := Render(o) + rest;
    assert args[1] == Render(o)[1];
    assert args[2..] == rest;
    if o.MarkerSizeOpt? || o.LineThicknessOpt? {
      RenderNumberStep(o, rest, st);
    }
  }

  lemma RenderNumberStep(o: Opt, rest: seq<string>, st: ParseState)
    requires o.MarkerSizeOpt? || o.LineThicknessOpt?
    ensures Step(st, o).Failure? ==> ParseFrom(Render(o) + rest, st) == Failure(Step(st, o).error)
    ensures Step(st, o).Success? ==> ParseFrom(Render(o) + rest, st) == ParseFrom(rest, Step(st, o).value)
  {
    var args := Render(o) + rest;
    assert args[1] == Render(o)[1];
    assert args[2..] == rest;
    ParseU32Format(if o.MarkerSizeOpt? then o.size else o.thickness);
  }




  function SourceOf(o: Opt): seq<DataSource> {
    match o
    case DataOpt(t) => [Inline(t)]
    case DataFileOpt(p) => [File(p)]
    case _ => []
  }

  /** The data sources the options name, in order. */
  function Sources(opts: seq<Opt>): seq<DataSource> {
    if |opts| == 0 then [] else SourceOf(opts[0]) + Sources(opts[1..])
  }

  function SpecSources(specs: seq<SeriesSpec>): (r: seq<DataSource>)
    ensures |r| == |specs| && forall k :: 0 <= k < |specs| ==> r[k] == specs[k].source
  {
    seq(|specs|, k requires 0 <= k < |specs| => specs[k].source)
  }

  /** Some style option comes before every data option. */
  predicate StyleFirst(opts: seq<Opt>) {
    exists i :: 0 <= i < |opts| && IsStyleOpt(opts[i]) && Sources(opts[..i]) == []
  }

  lemma SourcesSplit(opts: seq<Opt>, i: nat)
    requires i < |opts|
    ensures Sources(opts[..i + 1]) == Sources(opts[..i]) + SourceOf(opts[i])
  {
    SourcesAppend(opts[..i], [opts[i]]);
    assert opts[..i + 1] == opts[..i] + [opts[i]];
    assert Sources([opts[i]]) == SourceOf(opts[i]) + Sources([]);
  }

  lemma {:induction false} SourcesAppend(a: seq<Opt>, b: seq<Opt>)
    ensures Sources(a + b) == Sources(a) + Sources(b)
    decreases |a|
  {
    if |a| == 0 {
      assert a + b == b;
    } else {
      assert (a + b)[1..] == a[1..] + b;
      SourcesAppend(a[1..], b);
    }
  }

  /** A style option before any data option is the only error. */
  lemma {:induction false} ApplyAllFailure(st: ParseState, opts: seq<Opt>)
    requires st.current.Some? || st.specs == []
    ensures ApplyAll(st, opts).Failure? <==> st.current.None? && StyleFirst(opts)
    decreases |opts|
  {
    if |opts| == 0 {
      assert !StyleFirst(opts);
    } else {
      var o := opts[0];
      if IsStyleOpt(o) && st.current.None? {
        assert opts[..0] == [];
        assert Sources(opts[..0]) == [];
      } else {
        var next := Step(st, o).value;
        ApplyAllFailure(next, opts[1..]);
        if st.current.None? {
          StyleFirstShift(opts, o.VerboseOpt?);
        }
      }
    }
  }

  /** Every data option becomes one specification, in order, after those
      already made. */
  lemma {:induction false} ApplyAllSources(st: ParseState, opts: seq<Opt>)
    ensures ApplyAll(st, opts).Success? ==>
              SpecSources(Flush(ApplyAll(st, opts).value)) == SpecSources(Flush(st)) + Sources(opts)
    decreases |opts|
  {
    if |opts| == 0 {
      assert SpecSources(Flush(st)) + Sources(opts) == SpecSources(Flush(st));
    } else if Step(st, opts[0]).Success? {
      ApplyAllSources(Step(st, opts[0]).value, opts[1..]);
      assert Sources(opts) == SourceOf(opts[0]) + Sources(opts[1..]);
    }
  }

  /** Verbose ends on exactly when it was on or some option sets it. */
  lemma {:induction false} ApplyAllVerbose(st: ParseState, opts: seq<Opt>)
    ensures ApplyAll(st, opts).Success? ==>
              (ApplyAll(st, opts).value.verbose <==> st.verbose || exists i :: 0 <= i < |opts| && opts[i].VerboseOpt?)
    decreases |opts|
  {
    if |opts| > 0 && Step(st, opts[0]).Success? {
      ApplyAllVerbose(Step(st, opts[0]).value, opts[1..]);
      if exists i :: 0 <= i < |opts| && opts[i].VerboseOpt? {
        var i :| 0 <= i < |opts| && opts[i].VerboseOpt?;
        if i > 0 { assert opts[1..][i - 1].VerboseOpt?; }
      }
      if exists i :: 0 <= i < |opts[1..]| && opts[1..][i].VerboseOpt? {
        var i :| 0 <= i < |opts[1..]| && opts[1..][i].VerboseOpt?;
        assert opts[i + 1].VerboseOpt?;
      }
    }
  }

  /** Dropping a leading non-style option: a verbose one keeps the
      question open, a data option settles it. */
  lemma StyleFirstShift(opts: seq<Opt>, verbose: bool)
    requires |opts| > 0 && !IsStyleOpt(opts[0])
    requires verbose <==> opts[0].VerboseOpt?
    ensures verbose ==> (StyleFirst(opts) <==> StyleFirst(opts[1..]))
    ensures !verbose ==> !StyleFirst(opts)
  {
    if StyleFirst(opts) {
      var i :| 0 <= i < |opts| && IsStyleOpt(opts[i]) && Sources(opts[..i]) == [];
      assert i > 0;
      SourcesAppend([opts[0]], opts[1..i]);
      assert opts[..i] == [opts[0]] + opts[1..i];
      assert Sources([opts[0]]) == SourceOf(opts[0]) + Sources([]);
      assert opts[1..][..i - 1] == opts[1..i];
      assert IsStyleOpt(opts[1..][i - 1]);
    }
    if verbose && StyleFirst(opts[1..]) {
      var i :| 0 <= i < |opts[1..]| && IsStyleOpt(opts[1..][i]) && Sources(opts[1..][..i]) == [];
      SourcesAppend([opts[0]], opts[1..][..i]);
      assert opts[..i + 1] == [opts[0]] + opts[1..][..i];
      assert Sources([opts[0]]) == SourceOf(opts[0]) + Sources([]);
      assert IsStyleOpt(opts[i + 1]);
    }
  }

  /** `parse_args` on the arguments of a list of options: one
      specification per data option in order, an error exactly when a
      style option precedes every data option or there is no data option,
      and verbose exactly when a verbose option is present. */
  lemma ParseArgsOptions(opts: seq<Opt>)
    ensures ParseArgs(RenderAll(opts)).Success? <==> !StyleFirst(opts) && |Sources(opts)| > 0
    ensures ParseArgs(RenderAll(opts)).Success? ==>
              ParseArgs(RenderAll(opts)).value.Run? &&
              var cli := ParseArgs(RenderAll(opts)).value.cli;
              SpecSources(cli.specs) == Sources(opts)
              && (cli.verbose <==> exists i :: 0 <= i < |opts| && opts[i].VerboseOpt?)
  {
    ParseRendered(opts, START);
    ApplyAllFailure(START, opts);
    ApplyAllSources(START, opts);
    ApplyAllVerbose(START, opts);
    assert SpecSources(Flush(START)) == [];
    if ApplyAll(START, opts).Success? {
      var end := ApplyAll(START, opts).value;
      assert SpecSources(Flush(end)) == Sources(opts);
      assert |Flush(end)| == |Sources(opts)|;
    }
  }

  /** One `--data` or `--data_file` flag with its value. */
  lemma DataStep(rest: seq<string>, st: ParseState)
    requires |rest| >= 2 && IsDataFlag(rest[0])
    ensures ParseFrom(rest, st)
            == ParseFrom(rest[2..], ParseState(Flush(st), Some(NewSpec(if rest[0] == "--data" then Inline(rest[1]) else File(rest[1]))), st.verbose))
  {
  }

  /** The cases of the command-line tests. */
  lemma ParseArgsExamples()
    ensures ParseArgs(["--data", "(1,2),(3,4)"])
            == Success(Run(CliArgs([NewSpec(Inline("(1,2),(3,4)"))], false)))
    ensures ParseArgs(["--data", "(1,2)", "--data_file", "b.txt"])
            == Success(Run(CliArgs([NewSpec(Inline("(1,2)")), NewSpec(File("b.txt"))], false)))
    ensures ParseArgs(["-v", "--data", "(1,2)"]) == Success(Run(CliArgs([NewSpec(Inline("(1,2)"))], true)))
    ensures ParseArgs(["--marker_color", "Red"]) == Failure("--marker_color" + MUST_FOLLOW)
    ensures ParseArgs(["--bogus"]) == Failure(UnknownArgument("--bogus"))
    ensures ParseArgs(["--data"]) == Failure(MissingValue("--data"))
    ensures ParseArgs([]) == Failure(NO_DATA)
  {
    var a1 := ["--data", "(1,2),(3,4)"];
    DataStep(a1, START);
    assert a1[2..] == [];
    var st1 := ParseState([], Some(NewSpec(Inline("(1,2),(3,4)"))), false);
    assert Flush(START) == [];
    assert Flush(st1) == [NewSpec(Inline("(1,2),(3,4)"))];
    assert ParseFrom(a1, START) == ParseFrom([], st1);
    var a2 := ["--data", "(1,2)", "--data_file", "b.txt"];
    DataStep(a2, START);
    var st2 := ParseState([], Some(NewSpec(Inline("(1,2)"))), false);
    assert ParseFrom(a2, START) == ParseFrom(a2[2..], st2);
    DataStep(a2[2..], st2);
    assert a2[2..][2..] == [];
    var st3 := ParseState([NewSpec(Inline("(1,2)"))], Some(NewSpec(File("b.txt"))), false);
    assert Flush(st2) == [NewSpec(Inline("(1,2)"))];
    assert ParseFrom(a2[2..], st2) == ParseFrom([], st3);
    assert Flush(st3) == [NewSpec(Inline("(1,2)")), NewSpec(File("b.txt"))];
    var a3 := ["-v", "--data", "(1,2)"];
    assert ParseFrom(a3, START) == ParseFrom(a3[1..], START.(verbose := true));
    DataStep(a3[1..], START.(verbose := true));
    assert a3[1..][2..] == [];
    var st4 := ParseState([], Some(NewSpec(Inline("(1,2)"))), true);
    assert ParseFrom(a3[1..], START.(verbose := true)) == ParseFrom([], st4);
    assert Flush(st4) == [NewSpec(Inline("(1,2)"))];
  }

  /** A data flag followed by the five value-taking style flags other
      than `--line_style` fills in one specification with all of them,
      whatever the values are. */
  lemma ParseStyleFlags(t: string, ms: string, mc: string, size: u32, lc: string, thickness: u32)
    ensures ParseArgs(["--data", t, "--marker_style", ms, "--marker_color", mc,
                       "--marker_size", NatToString(size), "--line_color", lc, "--line_thickness", NatToString(thickness)])
            == Success(Run(CliArgs([SeriesSpec(Inline(t), Some(ms), Some(mc), Some(size), None, Some(lc), Some(thickness))], false)))
  {
    var opts := StyleFlags(t, ms, mc, size, lc, thickness);
    StyleFlagsRender(t, ms, mc, size, lc, thickness);
    StyleFlagsApply(t, ms, mc, size, lc, thickness);
    ParseRendered(opts, START);
    var spec := SeriesSpec(Inline(t), Some(ms), Some(mc), Some(size), None, Some(lc), Some(thickness));
    assert Flush(ParseState([], Some(spec), false)) == [spec];
  }

  function StyleFlags(t: string, ms: string, mc: string, size: u32, lc: string, thickness: u32): seq<Opt> {
    [DataOpt(t)] + StyleOpts(ms, mc, size, lc, thickness)
  }

  function StyleOpts(ms: string, mc: string, size: u32, lc: string, thickness: u32): seq<Opt> {
    [MarkerStyleOpt(ms), MarkerColorOpt(mc), MarkerSizeOpt(size), LineColorOpt(lc), LineThicknessOpt(thickness)]
  }

  lemma StyleOptsApply(spec: SeriesSpec, ms: string, mc: string, size: u32, lc: string, thickness: u32)
    ensures forall k :: 0 <= k < 5 ==> IsStyleOpt(StyleOpts(ms, mc, size, lc, thickness)[k])
    ensures ApplyStyles(spec, StyleOpts(ms, mc, size, lc, thickness))
            == spec.(markerStyle := Some(ms), markerColor := Some(mc), markerSize := Some(size),
                     lineColor := Some(lc), lineThickness := Some(thickness))
  {
    var r := StyleOpts(ms, mc, size, lc, thickness);
    var p1 := spec.(markerStyle := Some(ms));
    var p2 := p1.(markerColor := Some(mc));
    var p3 := p2.(markerSize := Some(size));
    var p4 := p3.(lineColor := Some(lc));
    var p5 := p4.(lineThickness := Some(thickness));
    assert r[4..][1..] == [] && r[3..][1..] == r[4..] && r[2..][1..] == r[3..] && r[1..][1..] == r[2..];
    assert ApplyStyles(p5, r[5..]) == p5;
    assert ApplyStyles(p4, r[4..]) == ApplyStyles(p5, r[5..]);
    assert ApplyStyles(p3, r[3..]) == ApplyStyles(p4, r[4..]);
    assert ApplyStyles(p2, r[2..]) == ApplyStyles(p3, r[3..]);
    assert ApplyStyles(p1, r[1..]) == ApplyStyles(p2, r[2..]);
    assert ApplyStyles(spec, r) == ApplyStyles(p1, r[1..]);
  }

  lemma StyleFlagsRender(t: string, ms: string, mc: string, size: u32, lc: string, thickness: u32)
    ensures RenderAll(StyleFlags(t, ms, mc, size, lc, thickness))
            == ["--data", t, "--marker_style", ms, "--marker_color", mc,
                "--marker_size", NatToString(size), "--line_color", lc, "--line_thickness", NatToString(thickness)]
  {
    var opts := StyleFlags(t, ms, mc, size, lc, thickness);
    assert RenderAll(opts[6..]) == [];
    assert RenderAll(opts[5..]) == ["--line_thickness", NatToString(thickness)];
    assert RenderAll(opts[4..]) == ["--line_color", lc] + RenderAll(opts[5..]);
    assert RenderAll(opts[3..]) == ["--marker_size", NatToString(size)] + RenderAll(opts[4..]);
    assert RenderAll(opts[2..]) == ["--marker_color", mc] + RenderAll(opts[3..]);
    assert RenderAll(opts[1..]) == ["--marker_style", ms] + RenderAll(opts[2..]);
  }

  lemma StyleFlagsApply(t: string, ms: string, mc: string, size: u32, lc: string, thickness: u32)
    ensures ApplyAll(START, StyleFlags(t, ms, mc, size, lc, thickness))
            == Success(ParseState([], Some(SeriesSpec(Inline(t), Some(ms), Some(mc), Some(size), None, Some(lc), Some(thickness))), false))
  {
    var styles := StyleOpts(ms, mc, size, lc, thickness);
    var opts := StyleFlags(t, ms, mc, size, lc, thickness);
    var spec := NewSpec(Inline(t));
    var s1 := ParseState([], Some(spec), false);
    assert Flush(START) == [];
    assert opts[1..] == styles;
    assert ApplyAll(START, opts) == ApplyAll(s1, styles);
    StyleOptsApply(spec, ms, mc, size, lc, thickness);
    ApplyAllStyles(s1, styles);
  }

  /** The style options applied in order to one specification. */
  function ApplyStyles(spec: SeriesSpec, opts: seq<Opt>): (r: SeriesSpec)
    requires forall k :: 0 <= k < |opts| ==> IsStyleOpt(opts[k])
    ensures r.source == spec.source
    decreases |opts|
  {
    if |opts| == 0 then spec else ApplyStyles(ApplyStyle(spec, opts[0]), opts[1..])
  }

  /** Style options after an open specification only edit that
      specification: nothing fails, nothing is finished. */
  lemma {:induction false} ApplyAllStyles(st: ParseState, opts: seq<Opt>)
    requires st.current.Some?
    requires forall k :: 0 <= k < |opts| ==> IsStyleOpt(opts[k])
    ensures ApplyAll(st, opts) == Success(st.(current := Some(ApplyStyles(st.current.value, opts))))
    decreases |opts|
  {
    if |opts| > 0 {
      var next := st.(current := Some(ApplyStyle(st.current.value, opts[0])));
      assert Step(st, opts[0]) == Success(next);
      ApplyAllStyles(next, opts[1..]);
    }
  }


  // ---------------------------------------------------------------------
  // Inline data

  const PAIR_SEP := "),("
  const EMPTY_INLINE := "Inline data string is empty"
  const NO_POINTS := "No valid data points found in inline data"

  function InvalidPoint(p: string): string {
    "Invalid point '(" + p + ")'. Expected format: (x,y)"
  }

  function NotANumberAt(axis: string, t: string): string {
    "Cannot parse " + axis + " value '" + t + "' as a number"
  }

  /** One `x,y` piece of inline data: trimmed, split at commas into exactly
      two fields, each trimmed and read as a number. */
  function ParsePair(pair: string, parseNum: string -> Option<real>): (r: Result<Point<real>>)
    ensures |Split(Trim(pair), ",")| != 2 ==> r == Failure(InvalidPoint(Trim(pair)))
  {
    var p := Trim(pair);
    var parts := Split(p, ",");
    if |parts| != 2 then Failure(InvalidPoint(p))
    else
      var xs, ys := Trim(parts[0]), Trim(parts[1]);
      match parseNum(xs)
      case None => Failure(NotANumberAt("x", xs))
      case Some(x) =>
        match parseNum(ys)
        case None => Failure(NotANumberAt("y", ys))
        case Some(y) => Success(Point(x, y))
  }

  /** The loop over the pieces: every piece must read (through `read`),
      and the first piece that does not gives the error. */
  function ReadAll<T>(pieces: seq<string>, read: string -> Result<T>): (r: Result<seq<T>>)
    ensures r.Success? <==> forall k :: 0 <= k < |pieces| ==> read(pieces[k]).Success?
    ensures r.Success? ==> |r.value| == |pieces|
                           && forall k :: 0 <= k < |pieces| ==> r.value[k] == read(pieces[k]).value
    decreases |pieces|
  {
    if |pieces| == 0 then Success([])
    else
      match read(pieces[0])
      case Failure(e) => Failure(e)
      case Success(p) =>
        var rest := ReadAll(pieces[1..], read);
        assert forall k :: 1 <= k < |pieces| ==> pieces[k] == pieces[1..][k - 1];
        match rest
        case Failure(e) => Failure(e)
        case Success(ps) => Success([p] + ps)
  }

  /** The error reported is that of the first piece that does not read. */
  lemma {:induction false} ReadAllFirstError<T>(pieces: seq<string>, read: string -> Result<T>)
    requires ReadAll(pieces, read).Failure?
    ensures exists k :: 0 <= k < |pieces| && read(pieces[k]).Failure?
                        && ReadAll(pieces, read).error == read(pieces[k]).error
                        && forall j :: 0 <= j < k ==> read(pieces[j]).Success?
    decreases |pieces|
  {
    if read(pieces[0]).Failure? {
      assert ReadAll(pieces, read).error == read(pieces[0]).error;
    } else {
      ReadAllFirstError(pieces[1..], read);
      var k :| 0 <= k < |pieces[1..]| && read(pieces[1..][k]).Failure?
               && ReadAll(pieces[1..], read).error == read(pieces[1..][k]).error
               && forall j :: 0 <= j < k ==> read(pieces[1..][j]).Success?;
      forall j | 1 <= j < k + 1 ensures read(pieces[j]).Success? {
        assert pieces[j] == pieces[1..][j - 1];
      }
      assert pieces[k + 1] == pieces[1..][k];
    }
  }

  /** The `x,y` pieces of inline data: the trimmed text without one
      leading `(` and one trailing `)`, split at `),(`. */
  function InlinePairs(s: string): (r: seq<string>)
    ensures |r| >= 1
  {
    Split(StripSuffixChar(StripPrefixChar(Trim(s), '('), ')'), PAIR_SEP)
  }

  /** `parse_inline_data`: blank text is an error; otherwise one point per
      piece, in order, or the first piece's error. The check for an empty
      result never fires: splitting yields at least one piece. */
  function ParseInlineData(s: string, parseNum: string -> Option<real>): (r: Result<seq<Point<real>>>)
    ensures Trim(s) == "" ==> r == Failure(EMPTY_INLINE)
    ensures Trim(s) != "" ==> (r.Success? <==> forall k :: 0 <= k < |InlinePairs(s)| ==> ParsePair(InlinePairs(s)[k], parseNum).Success?)
    ensures r.Success? ==> |r.value| == |InlinePairs(s)| >= 1
                           && forall k :: 0 <= k < |r.value| ==> r.value[k] == ParsePair(InlinePairs(s)[k], parseNum).value
  {
    var t := Trim(s);
    if |t| == 0 then Failure(EMPTY_INLINE)
    else
      match ReadAll(InlinePairs(s), p => ParsePair(p, parseNum))
      case Failure(e) => Failure(e)
      case Success(points) => if |points| == 0 then Failure(NO_POINTS) else Success(points)
  }

  /** The text of some coordinates that reads back unchanged: not empty,
      no whitespace at either end, and none of the separators `,` and `)`. */
  predicate NumberText(t: string) {
    |t| > 0 && !IsWhitespace(t[0]) && !IsWhitespace(t[|t| - 1]) && ',' !in t && ')' !in t
  }

  function PairText(x: string, y: string): string {
    x + "," + y
  }

  /** Points written as inline data: `(x1,y1),(x2,y2),...`. */
  function InlineText(pts: seq<(string, string)>): string {
    "(" + Join(PairTexts(pts), PAIR_SEP) + ")"
  }

  function PairTexts(pts: seq<(string, string)>): (r: seq<string>)
    ensures |r| == |pts| && forall k :: 0 <= k < |pts| ==> r[k] == PairText(pts[k].0, pts[k].1)
  {
    seq(|pts|, k requires 0 <= k < |pts| => PairText(pts[k].0, pts[k].1))
  }

  lemma TrimUnchanged(s: string)
    requires |s| > 0 && !IsWhitespace(s[0]) && !IsWhitespace(s[|s| - 1])
    ensures Trim(s) == s
  {
    assert TrimStart(s) == s;
    assert TrimEnd(s) == s;
  }

  /** A piece without the separator's first character is read in one go. */
  lemma {:induction false} SplitFromPlainSep(p: string, rest: string, sep: string, cur: string)
    requires |sep| > 0 && sep[0] !in p
    ensures SplitFrom(p + rest, sep, cur) == SplitFrom(rest, sep, cur + p)
    decreases |p|
  {
    if |p| == 0 {
      assert p + rest == rest;
      assert cur + p == cur;
    } else {
      assert (p + rest)[0] == p[0];
      assert !(sep <= p + rest);
      assert (p + rest)[1..] == p[1..] + rest;
      SplitFromPlainSep(p[1..], rest, sep, cur + [p[0]]);
      assert cur + [p[0]] + p[1..] == cur + p;
    }
  }

  lemma SplitFromAtSep(r: string, sep: string, cur: string)
    requires |sep| > 0
    ensures SplitFrom(sep + r, sep, cur) == [cur] + SplitFrom(r, sep, "")
  {
    assert sep <= sep + r;
    assert (sep + r)[|sep|..] == r;
  }

  /** Joining pieces that do not contain the separator's first character
      and splitting at the separator gives the pieces back. */
  lemma {:induction false} SplitJoinSep(parts: seq<string>, sep: string)
    requires |parts| >= 1 && |sep| > 0
    requires forall i :: 0 <= i < |parts| ==> sep[0] !in parts[i]
    ensures Split(Join(parts, sep), sep) == parts
    decreases |parts|
  {
    if |parts| == 1 {
      assert parts[0] + "" == parts[0];
      SplitFromPlainSep(parts[0], "", sep, "");
      assert "" + parts[0] == parts[0];
    } else {
      var j := Join(parts[1..], sep);
      assert Join(parts, sep) == parts[0] + (sep + j);
      SplitFromPlainSep(parts[0], sep + j, sep, "");
      assert "" + parts[0] == parts[0];
      SplitFromAtSep(j, sep, parts[0]);
      SplitJoinSep(parts[1..], sep);
      assert parts == [parts[0]] + parts[1..];
    }
  }

  /** A written pair reads back as its two numbers. */
  lemma PairRoundTrip(x: string, y: string, parseNum: string -> Option<real>)
    requires NumberText(x) && NumberText(y) && parseNum(x).Some? && parseNum(y).Some?
    ensures ParsePair(PairText(x, y), parseNum) == Success(Point(parseNum(x).value, parseNum(y).value))
  {
    var piece := PairText(x, y);
    assert piece[0] == x[0] && piece[|piece| - 1] == y[|y| - 1];
    TrimUnchanged(piece);
    assert Join([x, y], ",") == piece by {
      assert [x, y][1..] == [y];
    }
    SplitJoinChar([x, y], ',');
    TrimUnchanged(x);
    TrimUnchanged(y);
  }

  /** Inline data written from number texts reads back as those numbers,
      one point per pair, in order. */
  lemma InlineRoundTrip(pts: seq<(string, string)>, parseNum: string -> Option<real>)
    requires |pts| >= 1
    requires forall k :: 0 <= k < |pts| ==> NumberText(pts[k].0) && NumberText(pts[k].1)
    requires forall k :: 0 <= k < |pts| ==> parseNum(pts[k].0).Some? && parseNum(pts[k].1).Some?
    ensures var r := ParseInlineData(InlineText(pts), parseNum);
            r.Success? && |r.value| == |pts|
            && forall k :: 0 <= k < |pts| ==> r.value[k] == Point(parseNum(pts[k].0).value, parseNum(pts[k].1).value)
  {
    var pieces := PairTexts(pts);
    var j := Join(pieces, PAIR_SEP);
    var t := InlineText(pts);
    TrimUnchanged(t);
    assert StripPrefixChar(t, '(') == j + ")";
    assert StripSuffixChar(j + ")", ')') == j;
    forall k | 0 <= k < |pieces| ensures PAIR_SEP[0] !in pieces[k] {
      assert pieces[k] == pts[k].0 + "," + pts[k].1;
    }
    SplitJoinSep(pieces, PAIR_SEP);
    assert InlinePairs(t) == pieces;
    forall k | 0 <= k < |pts|
      ensures ParsePair(pieces[k], parseNum) == Success(Point(parseNum(pts[k].0).value, parseNum(pts[k].1).value))
    {
      PairRoundTrip(pts[k].0, pts[k].1, parseNum);
    }
  }

  /** Blank inline data is rejected. */
  lemma InlineDataBlank(parseNum: string -> Option<real>)
    ensures ParseInlineData("", parseNum) == Failure(EMPTY_INLINE)
    ensures ParseInlineData("   ", parseNum) == Failure(EMPTY_INLINE)
  {
    assert Trim("   ") == "" by {
      assert TrimStart("   ") == TrimStart("  ") == TrimStart(" ") == "";
    }
  }

  /** A point with three coordinates is rejected, naming the piece. */
  lemma InlineDataThreeFields(x: string, y: string, z: string, parseNum: string -> Option<real>)
    requires NumberText(x) && NumberText(y) && NumberText(z)
    ensures var piece := x + "," + y + "," + z;
            ParseInlineData("(" + piece + ")", parseNum) == Failure(InvalidPoint(piece))
  {
    var piece := x + "," + y + "," + z;
    var t := "(" + piece + ")";
    TrimUnchanged(t);
    assert StripPrefixChar(t, '(') == piece + ")";
    assert StripSuffixChar(piece + ")", ')') == piece;
    OnePiece(piece);
    assert InlinePairs(t) == [piece];
    ThreeFields(x, y, z);
  }

  /** Text without a closing parenthesis is one piece. */
  lemma OnePiece(piece: string)
    requires ')' !in piece
    ensures Split(piece, PAIR_SEP) == [piece]
  {
    SplitFromPlainSep(piece, "", PAIR_SEP, "");
    assert piece + "" == piece && "" + piece == piece;
  }

  /** Three number texts joined by commas split into three fields. */
  lemma ThreeFields(x: string, y: string, z: string)
    requires NumberText(x) && NumberText(y) && NumberText(z)
    ensures var piece := x + "," + y + "," + z;
            Trim(piece) == piece && |Split(piece, ",")| == 3
  {
    var piece := x + "," + y + "," + z;
    assert piece[0] == x[0] && piece[|piece| - 1] == z[|z| - 1];
    TrimUnchanged(piece);
    assert Join([x, y, z], ",") == piece by {
      assert [y, z][1..] == [z];
      assert Join([y, z], ",") == y + "," + z;
      assert [x, y, z][1..] == [y, z];
      assert x + "," + (y + "," + z) == piece;
    }
    SplitJoinChar([x, y, z], ',');
  }

  // ---------------------------------------------------------------------
  // Marker, line and colour choices

  /** The four marker shapes, by name. */
  datatype Shape = FilledCircleShape | HollowCircleShape | FilledSquareShape | HollowSquareShape

  function MakeMarker(shape: Shape, size: u32, color: Rgb): (m: MarkerStyle)
    ensures m.size == size && m.color == color && ShapeOf(m) == shape
  {
    match shape
    case FilledCircleShape => FilledCircle(size, color)
    case HollowCircleShape => HollowCircle(size, color)
    case FilledSquareShape => FilledSquare(size, color)
    case HollowSquareShape => HollowSquare(size, color)
  }

  function ShapeOf(m: MarkerStyle): Shape {
    match m
    case FilledCircle(_, _) => FilledCircleShape
    case HollowCircle(_, _) => HollowCircleShape
    case FilledSquare(_, _) => FilledSquareShape
    case HollowSquare(_, _) => HollowSquareShape
  }

  /** The lower-case name a marker style is chosen by. */
  function ShapeName(shape: Shape): string {
    match shape
    case FilledCircleShape => "filledcircle"
    case HollowCircleShape => "hollowcircle"
    case FilledSquareShape => "filledsquare"
    case HollowSquareShape => "hollowsquare"
  }

  const NO_MARKER := "none"

  /** `resolve_marker_style`: the name, ignoring ASCII case, picks one of
      the four shapes with the given size and colour, or no marker for
      "none"; any other name is an error. */
  function ResolveMarkerStyle(name: string, size: u32, color: Rgb): (r: Result<Option<MarkerStyle>>)
    ensures r == Success(None) <==> ToAsciiLower(name) == NO_MARKER
    ensures forall shape :: ToAsciiLower(name) == ShapeName(shape) ==> r == Success(Some(MakeMarker(shape, size, color)))
    ensures r.Failure? <==> ToAsciiLower(name) != NO_MARKER && forall shape :: ToAsciiLower(name) != ShapeName(shape)
  {
    var lower := ToAsciiLower(name);
    if lower == "filledcircle" then
      assert lower == ShapeName(FilledCircleShape);
      Success(Some(FilledCircle(size, color)))
    else if lower == "hollowcircle" then
      assert lower == ShapeName(HollowCircleShape);
      Success(Some(HollowCircle(size, color)))
    else if lower == "filledsquare" then
      assert lower == ShapeName(FilledSquareShape);
      Success(Some(FilledSquare(size, color)))
    else if lower == "hollowsquare" then
      assert lower == ShapeName(HollowSquareShape);
      Success(Some(HollowSquare(size, color)))
    else if lower == "none" then Success(None)
    else Failure("Unknown marker style '" + name + "'. Valid styles: FilledCircle, HollowCircle, FilledSquare, HollowSquare, None")
  }

  /** Names that differ only in ASCII case resolve alike. */
  lemma ResolveMarkerStyleIgnoresCase(a: string, b: string, size: u32, color: Rgb)
    requires EqIgnoreAsciiCase(a, b)
    ensures ResolveMarkerStyle(a, size, color).Success? == ResolveMarkerStyle(b, size, color).Success?
    ensures ResolveMarkerStyle(a, size, color).Success? ==> ResolveMarkerStyle(a, size, color) == ResolveMarkerStyle(b, size, color)
  {
  }

  /** The names of the tests. */
  lemma ResolveMarkerStyleExamples()
    ensures ResolveMarkerStyle("FilledCircle", 2, RED) == Success(Some(FilledCircle(2, RED)))
    ensures ResolveMarkerStyle("hollowcircle", 2, RED) == Success(Some(HollowCircle(2, RED)))
    ensures ResolveMarkerStyle("FILLEDSQUARE", 2, RED) == Success(Some(FilledSquare(2, RED)))
    ensures ResolveMarkerStyle("None", 2, RED) == Success(None)
    ensures ResolveMarkerStyle("Triangle", 2, RED).Failure?
  {
    assert ToAsciiLower("FilledCircle") == "filledcircle";
    assert ToAsciiLower("hollowcircle") == "hollowcircle";
    assert ToAsciiLower("FILLEDSQUARE") == "filledsquare";
    assert ToAsciiLower("None") == "none";
    assert ToAsciiLower("Triangle") == "triangle";
  }

  function UnknownColor(name: string): string {
    "Unknown color '" + name + "'. Valid colors: " + Join(PreviewNames(), ", ")
    + ", ... (run 'termplt --help colors' for full list)"
  }

  /** The first eight names of the colour table. */
  function PreviewNames(): (r: seq<string>)
    ensures |r| == 8
  {
    var names := AllNames();
    seq(8, k requires 0 <= k < 8 => names[k].0)
  }

  /** `resolve_color`: a named colour, or an error listing a few names. */
  function ResolveColor(name: string): (r: Result<Rgb>)
    ensures r.Success? <==> FromName(name).Some?
    ensures r.Success? ==> exists i :: 0 <= i < |COLOR_TABLE| && COLOR_TABLE[i] == (ToAsciiUpper(name), r.value)
    ensures r.Failure? ==> r.error == UnknownColor(name)
  {
    match FromName(name)
    case Some(c) => Success(c)
    case None => Failure(UnknownColor(name))
  }

  /** The colours of the tests. */
  lemma ResolveColorExamples()
    ensures ResolveColor("Blue") == Success(BLUE)
    ensures ResolveColor("red") == Success(RED)
    ensures ResolveColor("Gren") == Failure(UnknownColor("Gren"))
  {
    ColorLookups.FromNameBlue();
    ColorLookups.FromNameRed();
    FromNameUnknown();
  }

  /** An optional colour name resolved (`map(resolve_color).transpose()`). */
  function ResolveOptColor(name: Option<string>): (r: Result<Option<Rgb>>)
    ensures name.None? ==> r == Success(None)
    ensures name.Some? ==> (r.Success? <==> FromName(name.value).Some?)
    ensures name.Some? && r.Success? ==> r.value == FromName(name.value)
  {
    match name
    case None => Success(None)
    case Some(n) =>
      match ResolveColor(n)
      case Failure(e) => Failure(e)
      case Success(c) => Success(Some(c))
  }

  /** The colour a name stands for, if it is given. */
  function NamedColor(name: Option<string>): Option<Rgb> {
    if name.Some? then FromName(name.value) else None
  }

  /** `DEFAULT_PALETTE`: the colour and marker shape of series `i mod 6`. */
  const PALETTE: seq<(Rgb, Shape)> := [
    (BLUE, FilledCircleShape), (RED, HollowCircleShape), (LIME, FilledSquareShape),
    (ORANGE, HollowSquareShape), (CYAN, FilledCircleShape), (MAGENTA, HollowCircleShape)]

  const DEFAULT_MARKER_SIZE: u32 := 2
  const DEFAULT_LINE_THICKNESS: u32 := 0

  /** The marker that stands in for "none": a black square of size 0. */
  const INVISIBLE_MARKER := FilledSquare(0, Rgb(0, 0, 0))

  /** A series' drawing style: its marker and, unless lines are off, its
      connecting line. */
  datatype PlotStyle = PlotStyle(marker: MarkerStyle, line: Option<LineStyle>)

  /** Whether to draw connecting lines: by default and for "solid", not for
      "none", ignoring ASCII case; any other name is an error. */
  function LineWanted(style: Option<string>): (r: Result<bool>)
    ensures r == Success(false) <==> style.Some? && EqIgnoreAsciiCase(style.value, "none")
    ensures r == Success(true) <==> style.None? || EqIgnoreAsciiCase(style.value, "solid")
  {
    match style
    case None => Success(true)
    case Some(s) =>
      if EqIgnoreAsciiCase(s, "none") then Success(false)
      else if EqIgnoreAsciiCase(s, "solid") then Success(true)
      else Failure("Unknown line style '" + s + "'. Valid styles: Solid, None")
  }

  /** The points of a series: read from the inline text, or the points of
      its file as given. */
  function SeriesPoints(spec: SeriesSpec, parseNum: string -> Option<real>, fileData: Result<seq<Point<real>>>): Result<seq<Point<real>>> {
    match spec.source
    case Inline(t) => ParseInlineData(t, parseNum)
    case File(_) => fileData
  }

  /** The marker and line colours of series `index`: each is its own named
      colour, else the other's, else the palette's. */
  function SeriesColors(spec: SeriesSpec, index: nat): (r: Result<(Rgb, Rgb)>)
    ensures r.Success? <==>
              (spec.markerColor.Some? ==> FromName(spec.markerColor.value).Some?)
              && (spec.lineColor.Some? ==> FromName(spec.lineColor.value).Some?)
    ensures r.Success? ==>
              r.value.0 == NamedColor(spec.markerColor).Or(NamedColor(spec.lineColor)).GetOr(PALETTE[index % 6].0)
              && r.value.1 == NamedColor(spec.lineColor).Or(NamedColor(spec.markerColor)).GetOr(PALETTE[index % 6].0)
  {
    var defaultColor := PALETTE[index % |PALETTE|].0;
    match ResolveOptColor(spec.markerColor)
    case Failure(e) => Failure(e)
    case Success(markerColor) =>
      match ResolveOptColor(spec.lineColor)
      case Failure(e) => Failure(e)
      case Success(lineColor) =>
        Success((markerColor.Or(lineColor).GetOr(defaultColor), lineColor.Or(markerColor).GetOr(defaultColor)))
  }

  /** The marker of series `index` in colour `color`: the named style, the
      invisible marker for "none", or the palette's shape. */
  function SeriesMarker(spec: SeriesSpec, index: nat, color: Rgb): (r: Result<MarkerStyle>)
    ensures r.Success? <==> spec.markerStyle.Some? ==> ResolveMarkerStyle(spec.markerStyle.value, 0, BLACK).Success?
    ensures r.Success? ==>
              var size := spec.markerSize.GetOr(DEFAULT_MARKER_SIZE);
              (spec.markerStyle.None? ==> r.value == MakeMarker(PALETTE[index % 6].1, size, color))
              && (spec.markerStyle.Some? && ToAsciiLower(spec.markerStyle.value) == NO_MARKER ==> r.value == INVISIBLE_MARKER)
              && (spec.markerStyle.Some? && ToAsciiLower(spec.markerStyle.value) != NO_MARKER ==>
                    r.value == MakeMarker(ShapeOf(r.value), size, color)
                    && ShapeName(ShapeOf(r.value)) == ToAsciiLower(spec.markerStyle.value))
  {
    var size := spec.markerSize.GetOr(DEFAULT_MARKER_SIZE);
    if spec.markerStyle.None? then Success(MakeMarker(PALETTE[index % |PALETTE|].1, size, color))
    else
      match ResolveMarkerStyle(spec.markerStyle.value, size, color)
      case Failure(e) => Failure(e)
      case Success(m) => Success(if m.Some? then m.value else INVISIBLE_MARKER)
  }

  /** The connecting line of a series in colour `color`, unless lines are off. */
  function SeriesLine(spec: SeriesSpec, color: Rgb): (r: Result<Option<LineStyle>>)
    ensures r.Success? <==> LineWanted(spec.lineStyle).Success?
    ensures r.Success? ==>
              (r.value.None? <==> spec.lineStyle.Some? && EqIgnoreAsciiCase(spec.lineStyle.value, "none"))
              && (r.value.Some? ==> r.value.value == Solid(color, spec.lineThickness.GetOr(DEFAULT_LINE_THICKNESS)))
  {
    match LineWanted(spec.lineStyle)
    case Failure(e) => Failure(e)
    case Success(wants) =>
      Success(if wants then Some(Solid(color, spec.lineThickness.GetOr(DEFAULT_LINE_THICKNESS))) else None)
  }

  /** `build_series` for series number `index`: its points, then its
      colours, marker and line, each step's error ending the build. */
  function BuildSeries(spec: SeriesSpec, index: nat, parseNum: string -> Option<real>,
                       fileData: Result<seq<Point<real>>>): (r: Result<PS.Series<PlotStyle>>)
    ensures r.Success? <==>
              SeriesPoints(spec, parseNum, fileData).Success? && SeriesColors(spec, index).Success?
              && SeriesMarker(spec, index, BLACK).Success? && SeriesLine(spec, BLACK).Success?
    ensures r.Success? ==>
              var colors := SeriesColors(spec, index).value;
              r.value.data == SeriesPoints(spec, parseNum, fileData).value
              && r.value.style.marker == SeriesMarker(spec, index, colors.0).value
              && r.value.style.line == SeriesLine(spec, colors.1).value
  {
    match SeriesPoints(spec, parseNum, fileData)
    case Failure(e) => Failure(e)
    case Success(points) =>
      match SeriesColors(spec, index)
      case Failure(e) => Failure(e)
      case Success((markerColor, lineColor)) =>
        match SeriesMarker(spec, index, markerColor)
        case Failure(e) => Failure(e)
        case Success(marker) =>
          match SeriesLine(spec, lineColor)
          case Failure(e) => Failure(e)
          case Success(line) => Success(PS.Series(points, PlotStyle(marker, line)))
  }

  /** When only one colour is named, the marker and the line both take it;
      when none is, both take the palette's. */
  lemma ColorsMatch(spec: SeriesSpec, index: nat)
    requires SeriesColors(spec, index).Success?
    requires spec.markerColor.None? || spec.lineColor.None?
    ensures var (m, l) := SeriesColors(spec, index).value;
            m == l
            && (spec.markerColor.Some? ==> m == FromName(spec.markerColor.value).value)
            && (spec.lineColor.Some? ==> l == FromName(spec.lineColor.value).value)
            && (spec.markerColor.None? && spec.lineColor.None? ==> m == PALETTE[index % 6].0)
  {
  }

  /** The palette repeats every six series. */
  lemma PaletteCycles(spec: SeriesSpec, index: nat, parseNum: string -> Option<real>, fileData: Result<seq<Point<real>>>)
    ensures BuildSeries(spec, index + 6, parseNum, fileData) == BuildSeries(spec, index, parseNum, fileData)
  {
    PaletteEntryCycles(index);
    assert SeriesColors(spec, index + 6) == SeriesColors(spec, index);
    match SeriesColors(spec, index)
    case Failure(_) =>
    case Success((m, _)) =>
      assert SeriesMarker(spec, index + 6, m) == SeriesMarker(spec, index, m);
  }

  lemma PaletteEntryCycles(index: nat)
    ensures PALETTE[(index + 6) % |PALETTE|] == PALETTE[index % |PALETTE|]
  {
    assert (index + 6) % 6 == index % 6;
  }

  /** A series with no style flags: the first palette entry, a blue filled
      circle of size 2 joined by a blue line of thickness 0; and with the
      marker switched off, the invisible marker of size 0. */
  lemma BuildSeriesDefaults(source: DataSource, points: seq<Point<real>>, parseNum: string -> Option<real>)
    requires SeriesPoints(NewSpec(source), parseNum, Success(points)) == Success(points)
    ensures BuildSeries(NewSpec(source), 0, parseNum, Success(points))
            == Success(PS.Series(points, PlotStyle(FilledCircle(2, BLUE), Some(Solid(BLUE, 0)))))
    ensures var r := BuildSeries(NewSpec(source).(markerStyle := Some("None")), 0, parseNum, Success(points));
            r.Success? && r.value.style.marker.size == 0
  {
    var spec := NewSpec(source);
    assert SeriesColors(spec, 0) == Success((BLUE, BLUE));
    assert SeriesMarker(spec, 0, BLUE) == Success(FilledCircle(2, BLUE));
    assert SeriesLine(spec, BLUE) == Success(Some(Solid(BLUE, 0)));
    var off := spec.(markerStyle := Some("None"));
    NoneIsNoMarker();
    assert SeriesColors(off, 0) == Success((BLUE, BLUE));
    assert SeriesMarker(off, 0, BLUE) == Success(INVISIBLE_MARKER);
  }

  lemma NoneIsNoMarker()
    ensures ToAsciiLower("None") == NO_MARKER
  {
  }
}
