/** The transmitting engine (`Tx`): turns a command into a command line and writes it to the port. */
module ClideTx {
  import opened ClideTypes
  import opened ClideOption
  import opened ClideParameter
  import opened ClideCommand
  import opened Encoding

  class Tx {
    /** The number of commands sent so far. */
    var packetCount: int
    /** Every string written to the port, in order. */
    var written: seq<string>

    /** Nothing sent, nothing written. */
    constructor ()
      ensures packetCount == 0 && written == []
    {
      packetCount := 0;
      written := [];
    }

    /** Writes the command's line followed by CR LF and counts one more packet sent. */
    method SendCommand(cmd: Command)
      modifies this`written, this`packetCount
      ensures written == old(written) + [CommandLine(cmd) + "\r\n"]
      ensures packetCount == old(packetCount) + 1
    {
      var cmdString := BuildString(cmd);
      written := written + [cmdString + "\r\n"];
      packetCount := packetCount + 1;
    }

    /**
     * The command's name, then a space and the value of each parameter, then for each option
     * to be sent " -" and its name, with a space and its value when it takes one.
     */
    static method BuildString(cmd: Command) returns (cmdLineString: string)
      ensures cmdLineString == CommandLine(cmd)
    {
      cmdLineString := cmd.name;
      cmdLineString := AddParams(cmdLineString, cmd.paramList);
      cmdLineString := AddOptions(cmdLineString, cmd.optionList);
    }
  }

  /** What the encoder reads of each option, in order. */
  function OptionsOut(os: seq<Option>): (r: seq<OptionOut>)
    reads os`value, os`toSend
    ensures |r| == |os|
    ensures forall i :: 0 <= i < |os| ==>
      r[i] == OptionOut(os[i].name, os[i].hasValue, os[i].value, os[i].toSend)
  {
    if os == [] then []
    else [OptionOut(os[0].name, os[0].hasValue, os[0].value, os[0].toSend)] + OptionsOut(os[1..])
  }

  /** The command line of a command as it stands. */
  function CommandLine(cmd: Command): string
    reads cmd, cmd.paramList, cmd.optionList
  {
    Encode(cmd.name, ValuesOf(cmd.paramList), OptionsOut(cmd.optionList))
  }

  /** The parameter loop of `BuildString`: appends a space and the value of each parameter. */
  method AddParams(start: string, params: seq<Parameter>) returns (s: string)
    ensures s == start + ParamsText(ValuesOf(params))
  {
    ghost var vs := ValuesOf(params);
    s := start;
    var x := 0;
    while x < |params|
      invariant 0 <= x <= |params|
      invariant s == start + ParamsText(vs[..x])
    {
      ParamPiece(vs[..x], vs[x], start, s, " " + TextOf(params[x].value));
      assert vs[..x + 1] == vs[..x] + [vs[x]];
      s := s + (" " + TextOf(params[x].value));
      x := x + 1;
    }
    assert vs[..x] == vs;
  }

  /**
   * The option loop of `BuildString`: appends " -" and the name of each option to be sent,
   * with a space and its value when it takes one.
   */
  method AddOptions(start: string, options: seq<Option>) returns (s: string)
    ensures s == start + OptionsText(OptionsOut(options))
  {
    ghost var os := OptionsOut(options);
    s := start;
    var x := 0;
    while x < |options|
      invariant 0 <= x <= |options|
      invariant s == start + OptionsText(os[..x])
    {
      var piece := "";
      if options[x].toSend {
        piece := " -" + options[x].name;
        if options[x].hasValue {
          piece := piece + (" " + options[x].value);
        }
      }
      OptionPiece(os[..x], os[x], start, s, piece);
      assert os[..x + 1] == os[..x] + [os[x]];
      s := s + piece;
      x := x + 1;
    }
    assert os[..x] == os;
  }

  /** Appending one parameter's text extends the parameters' text by that parameter. */
  lemma ParamPiece(done: seq<Nullable<string>>, v: Nullable<string>, prefix: string, s: string, piece: string)
    requires s == prefix + ParamsText(done) && piece == ParamText(v)
    ensures s + piece == prefix + ParamsText(done + [v])
  {
    ParamsTextAppend(done, [v]);
    assert [v][1..] == [];
    assert ParamsText([v]) == ParamText(v) + "";
    Reassociate(prefix, ParamsText(done), piece);
  }

  /** Appending one option's text extends the options' text by that option. */
  lemma OptionPiece(done: seq<OptionOut>, o: OptionOut, prefix: string, s: string, piece: string)
    requires s == prefix + OptionsText(done) && piece == OptionText(o)
    ensures s + piece == prefix + OptionsText(done + [o])
  {
    OptionsTextSnoc(done, o);
    Reassociate(prefix, OptionsText(done), piece);
  }

  /** The options' text with one more option at the end. */
  lemma OptionsTextSnoc(done: seq<OptionOut>, o: OptionOut)
    ensures OptionsText(done + [o]) == OptionsText(done) + OptionText(o)
  {
    OptionsTextAppend(done, [o]);
    assert [o][1..] == [];
    assert OptionsText([o]) == OptionText(o) + "";
  }

  lemma Reassociate(a: string, b: string, c: string)
    ensures a + b + c == a + (b + c)
  {
  }
}
