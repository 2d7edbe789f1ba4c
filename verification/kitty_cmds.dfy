/** `KittyCommand`: a payload is base64-encoded, cut into chunks of at most
    4096 bytes, and each chunk is sent as one APC string (section 8.3.2 of
    ECMA-48) `ESC _ G <control data> ; <chunk> ESC \`. The caller's control
    data rides on the first frame only; every frame carries `m=1` when more
    frames follow and `m=0` on the last one. */
module KittyCmds {
  import opened Bytes
  import opened Strings
  import opened Wrappers
  import opened Encoding
  import opened CtrlSeq

  const CMD_START: seq<byte> := [ESC, 0x5F, 0x47]  // ESC '_' 'G'
  const CMD_SEP: seq<byte> := [0x3B]               // ';'
  const CMD_END: seq<byte> := [ESC, 0x5C]          // ESC '\'
  const MAX_PAYLOAD_SIZE: nat := 4096
  const ESC_CHAR: char := 0x1B as char

  datatype KittyCommand = KittyCommand(cmd: seq<byte>)
  {
    /** `get_request`: the bytes built by `new`. */
    function Request(): (r: seq<byte>)
      ensures r == cmd
    {
      cmd
    }

    /** `get_response_start`: a terminal reply opens like a command. */
    function ResponseStart(): (r: seq<byte>)
      ensures r == [ESC, '_' as int as byte, 'G' as int as byte]
    {
      CMD_START
    }

    /** `get_response_end`: the string terminator. */
    function ResponseEnd(): (r: seq<byte>)
      ensures r == [ESC, '\\' as int as byte]
    {
      CMD_END
    }
  }

  // ---------------------------------------------------------------------
  // `slice::chunks`

  /** `s.chunks(n)`: consecutive pieces of `n` elements, the last one shorter. */
  function Chunks(s: seq<byte>, n: nat): (r: seq<seq<byte>>)
    requires n > 0
    ensures forall i :: 0 <= i < |r| ==> 0 < |r[i]| <= n
    ensures forall i :: 0 <= i < |r| - 1 ==> |r[i]| == n
    ensures |r| == 0 <==> |s| == 0
    decreases |s|
  {
    if |s| == 0 then []
    else if |s| <= n then [s]
    else [s[..n]] + Chunks(s[n..], n)
  }

  /** Concatenation of a sequence of pieces. */
  function Flatten(xs: seq<seq<byte>>): seq<byte> {
    if |xs| == 0 then [] else xs[0] + Flatten(xs[1..])
  }

  /** The chunks put back together are the input. */
  lemma {:induction false} ChunksFlatten(s: seq<byte>, n: nat)
    requires n > 0
    ensures Flatten(Chunks(s, n)) == s
    decreases |s|
  {
    if |s| > n {
      var r := Chunks(s, n);
      assert r[1..] == Chunks(s[n..], n);
      ChunksFlatten(s[n..], n);
      assert s[..n] + s[n..] == s;
    } else if |s| > 0 {
      assert Flatten([s]) == s + Flatten([]);
    }
  }

  /** There are ⌈|s|/n⌉ chunks: just enough to hold `s`, and not one more. */
  lemma {:induction false} ChunksCount(s: seq<byte>, n: nat)
    requires n > 0
    ensures |s| <= |Chunks(s, n)| * n
    ensures |s| > 0 ==> (|Chunks(s, n)| - 1) * n < |s|
    decreases |s|
  {
    if |s| > n {
      var k := |Chunks(s[n..], n)|;
      ChunksCount(s[n..], n);
      assert |Chunks(s, n)| == k + 1;
      assert (k + 1) * n == k * n + n;
    }
  }

  /** Every element of a chunk is an element of the input. */
  lemma {:induction false} ChunksElements(s: seq<byte>, n: nat, i: nat, j: nat)
    requires n > 0 && i < |Chunks(s, n)| && j < |Chunks(s, n)[i]|
    ensures Chunks(s, n)[i][j] in s
    decreases |s|
  {
    if |s| > n && i > 0 {
      var r := Chunks(s, n);
      assert r[i] == Chunks(s[n..], n)[i - 1];
      ChunksElements(s[n..], n, i - 1, j);
    }
  }

  // ---------------------------------------------------------------------
  // Frames

  /** One APC string: its control data and its slice of the encoded payload. */
  datatype Frame = Frame(ctrl: string, chunk: seq<byte>)

  function FrameBytes(f: Frame): seq<byte> {
    CMD_START + Utf8(f.ctrl) + CMD_SEP + f.chunk + CMD_END
  }

  /** The control data of frame `i` out of `count`: the caller's data on the
      first frame only, then the continuation key. */
  function FrameCtrl(ctrlData: seq<string>, i: nat, count: nat): string {
    Join((if i == 0 then ctrlData else []) + [MetadataCtrl(MoreData(i != count - 1))], ",")
  }

  /** The frames `KittyCommand::new` emits for a payload. */
  function Frames(payload: seq<byte>, ctrlData: seq<string>): (r: seq<Frame>)
    ensures |r| == |Chunks(Encode(payload), MAX_PAYLOAD_SIZE)|
  {
    var chunks := Chunks(Encode(payload), MAX_PAYLOAD_SIZE);
    seq(|chunks|, i requires 0 <= i < |chunks| => Frame(FrameCtrl(ctrlData, i, |chunks|), chunks[i]))
  }

  /** The command bytes: the frames one after another. */
  function Serialize(fs: seq<Frame>): seq<byte> {
    if |fs| == 0 then [] else FrameBytes(fs[0]) + Serialize(fs[1..])
  }

  lemma {:induction false} SerializeSnoc(fs: seq<Frame>, f: Frame)
    ensures Serialize(fs + [f]) == Serialize(fs) + FrameBytes(f)
    decreases |fs|
  {
    if |fs| == 0 {
      assert fs + [f] == [f];
    } else {
      assert (fs + [f])[1..] == fs[1..] + [f];
      SerializeSnoc(fs[1..], f);
    }
  }

  /** One more iteration of `new` appends the next frame. */
  lemma NextFrame(payload: seq<byte>, ctrlData: seq<string>, ind: nat)
    requires ind < |Frames(payload, ctrlData)|
    ensures Serialize(Frames(payload, ctrlData)[..ind + 1])
         == Serialize(Frames(payload, ctrlData)[..ind]) + CMD_START
            + Utf8(FrameCtrl(ctrlData, ind, |Frames(payload, ctrlData)|)) + CMD_SEP
            + Chunks(Encode(payload), MAX_PAYLOAD_SIZE)[ind] + CMD_END
  {
    var frames := Frames(payload, ctrlData);
    var f := frames[ind];
    assert f == Frame(FrameCtrl(ctrlData, ind, |frames|), Chunks(Encode(payload), MAX_PAYLOAD_SIZE)[ind]);
    assert frames[..ind + 1] == frames[..ind] + [f];
    SerializeSnoc(frames[..ind], f);
    AppendFrame(Serialize(frames[..ind]), f);
  }

  lemma AppendFrame(prefix: seq<byte>, f: Frame)
    ensures prefix + FrameBytes(f) == prefix + CMD_START + Utf8(f.ctrl) + CMD_SEP + f.chunk + CMD_END
  {
  }

  /** `KittyCommand::new`, loop for loop. The base64 step cannot fail
      (`ReadBytesToB64` always succeeds), so the `unwrap` is total. */
  method New(payload: seq<byte>, ctrlData: seq<string>) returns (k: KittyCommand)
    ensures k.cmd == Serialize(Frames(payload, ctrlData))
  {
    var encoded := ReadBytesToB64(payload);
    var b64 := encoded.value;
    assert b64 == Encode(payload);
    var chunks := Chunks(b64, MAX_PAYLOAD_SIZE);
    var numChunks := |chunks|;
    ghost var frames := Frames(payload, ctrlData);
    var pending := ctrlData;
    var cmd: seq<byte> := [];
    for ind := 0 to numChunks
      invariant cmd == Serialize(frames[..ind])
      invariant pending == if ind == 0 then ctrlData else []
    {
      var isLast := ind == numChunks - 1;
      pending := pending + [MetadataCtrl(MoreData(!isLast))];
      var ctrlBytes := Join(pending, ",");
      pending := [];
      assert ctrlBytes == FrameCtrl(ctrlData, ind, numChunks);
      NextFrame(payload, ctrlData, ind);
      cmd := cmd + CMD_START + Utf8(ctrlBytes) + CMD_SEP + chunks[ind] + CMD_END;
    }
    assert frames[..numChunks] == frames;
    return KittyCommand(cmd);
  }

  // ---------------------------------------------------------------------
  // Properties of the frames

  /** The chunks of the frames are the base64 encoding of the payload, so
      the payload decodes back from them. */
  lemma FramesPayload(payload: seq<byte>, ctrlData: seq<string>)
    ensures Flatten(Chunks(Encode(payload), MAX_PAYLOAD_SIZE)) == Encode(payload)
    ensures forall i :: 0 <= i < |Frames(payload, ctrlData)| ==>
      Frames(payload, ctrlData)[i].chunk == Chunks(Encode(payload), MAX_PAYLOAD_SIZE)[i]
    ensures Decode(Flatten(Chunks(Encode(payload), MAX_PAYLOAD_SIZE))) == Some(payload)
  {
    ChunksFlatten(Encode(payload), MAX_PAYLOAD_SIZE);
    DecodeEncode(payload);
  }

  /** There are ⌈4⌈n/3⌉/4096⌉ frames, none for an empty payload, and each
      chunk holds between 1 and 4096 bytes. */
  lemma FramesCount(payload: seq<byte>, ctrlData: seq<string>)
    ensures EncodedLength(|payload|) <= |Frames(payload, ctrlData)| * MAX_PAYLOAD_SIZE
    ensures |payload| > 0 ==> (|Frames(payload, ctrlData)| - 1) * MAX_PAYLOAD_SIZE < EncodedLength(|payload|)
    ensures |Frames(payload, ctrlData)| == 0 <==> |payload| == 0
    ensures forall i :: 0 <= i < |Frames(payload, ctrlData)| ==>
      0 < |Frames(payload, ctrlData)[i].chunk| <= MAX_PAYLOAD_SIZE
  {
    EncodeLength(payload);
    ChunksCount(Encode(payload), MAX_PAYLOAD_SIZE);
  }

  /** An empty payload produces no bytes at all. */
  lemma EmptyPayload(ctrlData: seq<string>)
    ensures Serialize(Frames([], ctrlData)) == []
  {
    FramesCount([], ctrlData);
  }

  lemma JoinSnoc(xs: seq<string>, m: string, sep: string)
    ensures |xs| == 0 ==> Join(xs + [m], sep) == m
    ensures |xs| > 0 ==> Join(xs + [m], sep) == Join(xs, sep) + sep + m
    decreases |xs|
  {
    if |xs| == 0 {
      assert xs + [m] == [m];
    } else if |xs| == 1 {
      assert xs + [m] == [xs[0], m];
      assert [xs[0], m][1..] == [m];
    } else {
      assert (xs + [m])[1..] == xs[1..] + [m];
      JoinSnoc(xs[1..], m, sep);
    }
  }

  lemma RenderedListSnoc(es: seq<Entry>, e: Entry)
    ensures RenderedList(es + [e]) == RenderedList(es) + [RenderEntry(e)]
  {
  }

  /** The continuation entry of frame `i`. */
  function MoreEntry(i: nat, count: nat): (e: Entry)
    ensures e.key == 'm'
  {
    Entry('m', if i < count - 1 then "1" else "0")
  }

  /** When the caller's control data is a list of settings `es`, the first
      frame announces exactly `es` and then the continuation flag, every
      later frame only the flag; the flag is `1` on all frames but the last. */
  lemma FrameSettings(payload: seq<byte>, ctrlData: seq<string>, es: seq<Entry>, i: nat)
    requires forall k :: 0 <= k < |es| ==> PlainEntry(es[k])
    requires (|ctrlData| == 0 && |es| == 0) || (|es| > 0 && Join(ctrlData, ",") == RenderEntries(es))
    requires i < |Frames(payload, ctrlData)|
    ensures i == 0 ==>
      ParseEntries(Frames(payload, ctrlData)[i].ctrl) == Some(es + [MoreEntry(i, |Frames(payload, ctrlData)|)])
    ensures i > 0 ==>
      ParseEntries(Frames(payload, ctrlData)[i].ctrl) == Some([MoreEntry(i, |Frames(payload, ctrlData)|)])
  {
    var n := |Frames(payload, ctrlData)|;
    var m := MoreEntry(i, n);
    var flag := MetadataCtrl(MoreData(i != n - 1));
    assert flag == RenderEntry(m);
    var c := Frames(payload, ctrlData)[i].ctrl;
    if i == 0 && |es| > 0 {
      JoinSnoc(ctrlData, flag, ",");
      RenderedListSnoc(es, m);
      JoinSnoc(RenderedList(es), RenderEntry(m), ",");
      assert c == RenderEntries(es + [m]);
      ParseRenderEntries(es + [m]);
    } else {
      var pre := if i == 0 then ctrlData else [];
      assert pre + [flag] == [flag];
      assert c == RenderEntries([m]) by {
        assert RenderedList([m]) == [flag];
      }
      ParseRenderEntries([m]);
      if i == 0 {
        assert es + [m] == [m];
      }
    }
  }

  // ---------------------------------------------------------------------
  // Reading a command back

  /** Index of the first occurrence of `x` in `s`. */
  function FirstIndex(s: seq<byte>, x: byte): (r: Option<nat>)
    ensures r.Some? ==> r.value < |s| && s[r.value] == x && x !in s[..r.value]
    ensures r.None? ==> x !in s
  {
    if |s| == 0 then None
    else if s[0] == x then Some(0)
    else
      match FirstIndex(s[1..], x)
      case None => None
      case Some(k) => Some(k + 1)
  }

  lemma {:induction false} FirstIndexAfter(a: seq<byte>, b: seq<byte>, x: byte)
    requires x !in a && |b| > 0 && b[0] == x
    ensures FirstIndex(a + b, x) == Some(|a|)
    decreases |a|
  {
    if |a| == 0 {
      assert a + b == b;
    } else {
      assert (a + b)[1..] == a[1..] + b;
      FirstIndexAfter(a[1..], b, x);
    }
  }

  /** Control bytes and chunk of one `ESC _ G … ; … ESC \` string. */
  function ParseFrame(b: seq<byte>): Option<(seq<byte>, seq<byte>)> {
    if |b| >= |CMD_START| + |CMD_END| && b[..3] == CMD_START && b[|b| - 2..] == CMD_END then
      var inner := b[3..|b| - 2];
      var k :- FirstIndex(inner, 0x3B);
      Some((inner[..k], inner[k + 1..]))
    else None
  }

  /** Split a command into frames: each ends at the first `ESC` after its start. */
  function ParseCommand(b: seq<byte>): Option<seq<(seq<byte>, seq<byte>)>>
    decreases |b|
  {
    if |b| == 0 then Some([])
    else
      var j :- FirstIndex(b[1..], ESC);
      if j + 3 <= |b| then
        var part :- ParseFrame(b[..j + 3]);
        var rest :- ParseCommand(b[j + 3..]);
        Some([part] + rest)
      else None
  }

  function FlattenChunks(parts: seq<(seq<byte>, seq<byte>)>): seq<byte> {
    if |parts| == 0 then [] else parts[0].1 + FlattenChunks(parts[1..])
  }

  /** What a terminal reassembles: the decoded concatenation of all chunks. */
  function ReadBack(b: seq<byte>): Option<seq<byte>> {
    var parts :- ParseCommand(b);
    Decode(FlattenChunks(parts))
  }

  /** A frame whose parts avoid `;` and `ESC`, as in every command built here. */
  predicate SafeFrame(f: Frame) {
    ';' !in f.ctrl && ESC_CHAR !in f.ctrl && 0x3B !in f.chunk && ESC !in f.chunk
  }

  /** UTF-8 never produces an ASCII byte for a character other than itself. */
  lemma {:induction false} Utf8Avoids(s: string, c: char)
    requires c as int < 0x80 && c !in s
    ensures (c as int as byte) !in Utf8(s)
    decreases |s|
  {
    if |s| > 0 {
      Utf8Avoids(s[1..], c);
      var u := Utf8Char(s[0]);
      if s[0] as int >= 0x80 {
        forall k | 0 <= k < |u| ensures u[k] as int >= 0x80 {
        }
      }
      assert Utf8(s) == u + Utf8(s[1..]);
    }
  }

  lemma ParseFrameBytes(f: Frame)
    requires SafeFrame(f)
    ensures ParseFrame(FrameBytes(f)) == Some((Utf8(f.ctrl), f.chunk))
  {
    var u := Utf8(f.ctrl);
    Utf8Avoids(f.ctrl, ';');
    var b := FrameBytes(f);
    assert b[..3] == CMD_START;
    assert b[|b| - 2..] == CMD_END;
    var inner := b[3..|b| - 2];
    assert inner == u + ([0x3B] + f.chunk);
    FirstIndexAfter(u, [0x3B] + f.chunk, 0x3B);
    assert inner[..|u|] == u;
    assert inner[|u| + 1..] == f.chunk;
  }

  /** A safe frame ends at its first `ESC` after the opening one. */
  lemma FrameEnd(f: Frame, rest: seq<byte>)
    requires SafeFrame(f)
    ensures |FrameBytes(f)| >= 5
    ensures FirstIndex((FrameBytes(f) + rest)[1..], ESC) == Some(|FrameBytes(f)| - 3)
  {
    var u := Utf8(f.ctrl);
    Utf8Avoids(f.ctrl, ESC_CHAR);
    var head := [0x5F, 0x47] + u + [0x3B] + f.chunk;
    assert (FrameBytes(f) + rest)[1..] == head + ([ESC, 0x5C] + rest);
    FirstIndexAfter(head, [ESC, 0x5C] + rest, ESC);
  }

  lemma {:induction false} ParseSerialized(fs: seq<Frame>)
    requires forall i :: 0 <= i < |fs| ==> SafeFrame(fs[i])
    ensures ParseCommand(Serialize(fs)).Some?
    ensures FlattenChunks(ParseCommand(Serialize(fs)).value) == Flatten(seq(|fs|, i requires 0 <= i < |fs| => fs[i].chunk))
    decreases |fs|
  {
    var chunks := seq(|fs|, i requires 0 <= i < |fs| => fs[i].chunk);
    if |fs| > 0 {
      var fb := FrameBytes(fs[0]);
      var rest := Serialize(fs[1..]);
      var b := fb + rest;
      FrameEnd(fs[0], rest);
      assert b[..|fb|] == fb;
      assert b[|fb|..] == rest;
      ParseFrameBytes(fs[0]);
      ParseSerialized(fs[1..]);
      var tail := seq(|fs[1..]|, i requires 0 <= i < |fs[1..]| => fs[1..][i].chunk);
      assert chunks[1..] == tail;
    }
  }

  lemma FramesSafe(payload: seq<byte>, ctrlData: seq<string>, i: nat)
    requires forall k :: 0 <= k < |ctrlData| ==> ';' !in ctrlData[k] && ESC_CHAR !in ctrlData[k]
    requires i < |Frames(payload, ctrlData)|
    ensures SafeFrame(Frames(payload, ctrlData)[i])
  {
    var n := |Frames(payload, ctrlData)|;
    var parts := (if i == 0 then ctrlData else []) + [MetadataCtrl(MoreData(i != n - 1))];
    JoinAvoids(parts, ",", ';');
    JoinAvoids(parts, ",", ESC_CHAR);
    var e := Encode(payload);
    var chunk := Frames(payload, ctrlData)[i].chunk;
    EncodeAlphabet(payload);
    forall j | 0 <= j < |chunk| ensures chunk[j] != 0x3B && chunk[j] != ESC {
      ChunksElements(e, MAX_PAYLOAD_SIZE, i, j);
    }
  }

  lemma {:induction false} JoinAvoids(parts: seq<string>, sep: string, c: char)
    requires c !in sep
    requires forall k :: 0 <= k < |parts| ==> c !in parts[k]
    ensures c !in Join(parts, sep)
    decreases |parts|
  {
    if |parts| > 1 {
      JoinAvoids(parts[1..], sep, c);
    }
  }

  /** Reading back the bytes of `new` gives the payload: the framing loses
      nothing, provided the caller's control data contains no `;` or `ESC`. */
  lemma ReadBackNew(payload: seq<byte>, ctrlData: seq<string>)
    requires forall k :: 0 <= k < |ctrlData| ==> ';' !in ctrlData[k] && ESC_CHAR !in ctrlData[k]
    ensures ReadBack(Serialize(Frames(payload, ctrlData))) == Some(payload)
  {
    var fs := Frames(payload, ctrlData);
    forall i | 0 <= i < |fs| ensures SafeFrame(fs[i]) {
      FramesSafe(payload, ctrlData, i);
    }
    ParseSerialized(fs);
    FramesPayload(payload, ctrlData);
    var chunks := seq(|fs|, i requires 0 <= i < |fs| => fs[i].chunk);
    assert chunks == Chunks(Encode(payload), MAX_PAYLOAD_SIZE);
  }
}
