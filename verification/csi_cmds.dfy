/** `CsiCommand`: a control sequence introduced by `ESC [` (section 5.4 of
    ECMA-48), with the byte string that ends the terminal's reply. */
module CsiCmds {
  import opened Bytes
  import opened Wrappers

  const CMD_START: seq<byte> := [ESC, 0x5B]  // ESC '['

  datatype CsiCommand = CsiCommand(cmd: seq<byte>, cmdEnd: seq<byte>)
  {
    /** `get_request`. */
    function Request(): (r: seq<byte>)
      ensures r == cmd
    {
      cmd
    }

    /** `get_response_start`: replies open with the same introducer. */
    function ResponseStart(): (r: seq<byte>)
      ensures r == [ESC, '[' as int as byte]
    {
      CMD_START
    }

    /** `get_response_end`. */
    function ResponseEnd(): (r: seq<byte>)
      ensures r == cmdEnd
    {
      cmdEnd
    }
  }

  /** `CsiCommand::new(command, command_end)`. */
  function New(command: string, commandEnd: string): (c: CsiCommand)
    ensures |c.Request()| == 2 + |Utf8(command)|
    ensures c.Request()[..2] == c.ResponseStart()
    ensures c.ResponseEnd() == Utf8(commandEnd)
  {
    CsiCommand(CMD_START + Utf8(command), Utf8(commandEnd))
  }

  /** The reading side: the bytes after the introducer, if it is there. */
  function StripIntroducer(b: seq<byte>): Option<seq<byte>> {
    if |b| >= 2 && b[..2] == CMD_START then Some(b[2..]) else None
  }

  /** The request is the introducer followed by exactly the command's bytes. */
  lemma RequestCarriesCommand(command: string, commandEnd: string)
    ensures StripIntroducer(New(command, commandEnd).Request()) == Some(Utf8(command))
  {
    var r := New(command, commandEnd).Request();
    assert r[2..] == Utf8(command);
  }

  /** For an ASCII command the request is `ESC [` and one byte per character. */
  lemma AsciiRequest(command: string, commandEnd: string)
    requires IsAscii(command)
    ensures |New(command, commandEnd).Request()| == 2 + |command|
    ensures forall i :: 0 <= i < |command| ==>
      New(command, commandEnd).Request()[i + 2] as int == command[i] as int
  {
    Utf8OfAscii(command);
  }

  /** Different ASCII commands give different requests. */
  lemma AsciiRequestInjective(a: string, b: string, endA: string, endB: string)
    requires IsAscii(a) && IsAscii(b)
    requires New(a, endA).Request() == New(b, endB).Request()
    ensures a == b
  {
    AsciiRequest(a, endA);
    AsciiRequest(b, endB);
    assert |a| == |b|;
    forall i | 0 <= i < |a| ensures a[i] == b[i] {
      assert New(a, endA).Request()[i + 2] == New(b, endB).Request()[i + 2];
    }
  }
}
