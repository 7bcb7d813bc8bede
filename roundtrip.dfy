/**
 * What the receiving decoder makes of a line written by the transmitter: a command line
 * built by `Tx.BuildString` and framed by `Tx.SendCommand` with CR LF decodes, on a decoder
 * whose end character is the carriage return, to the command it names with the parameter
 * values it carries.
 */
module RoundTrip {
  import opened ClideTypes
  import opened Encoding
  import Tokenizer
  import opened OptionParser
  import opened Framing

  /** A word the line carries unchanged: a plain word without a carriage return. */
  predicate IsWireWord(w: string)
  {
    Tokenizer.IsPlainWord(w) && '\r' !in w
  }

  /** Parameter values that are all set, to the words ws. */
  function Words(ws: seq<string>): (r: seq<Nullable<string>>)
    ensures |r| == |ws| && forall i :: 0 <= i < |ws| ==> r[i] == NonNull(ws[i])
  {
    if ws == [] then [] else [NonNull(ws[0])] + Words(ws[1..])
  }

  /** The line a command named name with parameter values ws and no option to send is written as. */
  function Line(name: string, ws: seq<string>): string
  {
    if ws == [] then name else name + " " + Tokenizer.JoinSpaces(ws)
  }

  /** The parameters' text of set values is a space, then the values joined by single spaces. */
  lemma {:induction false} ParamsTextOfWords(ws: seq<string>)
    requires ws != []
    ensures ParamsText(Words(ws)) == " " + Tokenizer.JoinSpaces(ws)
  {
    assert Words(ws)[1..] == Words(ws[1..]);
    if |ws| > 1 {
      ParamsTextOfWords(ws[1..]);
      var j := Tokenizer.JoinSpaces(ws[1..]);
      assert ParamsText(Words(ws)) == " " + ws[0] + (" " + j);
      assert Tokenizer.JoinSpaces(ws) == ws[0] + " " + j;
    }
  }

  /** With no option to send, the encoder writes the name and the values, separated by single spaces. */
  lemma EncodeIsLine(name: string, ws: seq<string>, os: seq<OptionOut>)
    requires forall i :: 0 <= i < |os| ==> !os[i].toSend
    ensures Encode(name, Words(ws), os) == Line(name, ws)
  {
    OptionsTextNoneSent(os);
    if ws != [] {
      ParamsTextOfWords(ws);
    }
  }

  /** A character that is not a space and is in none of the words is not in their join. */
  lemma {:induction false} JoinSpacesAvoids(ws: seq<string>, c: char)
    requires c != ' ' && forall k :: 0 <= k < |ws| ==> c !in ws[k]
    ensures c !in Tokenizer.JoinSpaces(ws)
  {
    if |ws| > 1 {
      JoinSpacesAvoids(ws[1..], c);
      assert Tokenizer.JoinSpaces(ws) == ws[0] + " " + Tokenizer.JoinSpaces(ws[1..]);
    }
  }

  /** The index of c at or after from is r when s holds c at r and not between from and r. */
  lemma IndexOfAt(s: string, c: char, from: nat, r: nat)
    requires from <= r < |s| && s[r] == c
    requires forall j :: from <= j < r ==> s[j] != c
    ensures IndexOf(s, c, from) == r
  {
  }

  /** Stripping drops leading characters that are not letters or digits and stops at the first one that is. */
  lemma {:induction false} StripJunk(junk: string, t: string)
    requires forall i :: 0 <= i < |junk| ==> !IsLetterOrDigit(junk[i])
    requires t != [] && IsLetterOrDigit(t[0])
    ensures StripLeading(junk + t) == t
  {
    if junk == [] {
      assert junk + t == t;
    } else {
      assert (junk + t)[0] == junk[0];
      assert (junk + t)[1..] == junk[1..] + t;
      StripJunk(junk[1..], t);
    }
  }

  /** Command k is the first one registered under its name. */
  ghost predicate FirstNamed(cmds: seq<CmdShape>, k: nat)
  {
    k < |cmds| && forall i :: 0 <= i < k ==> cmds[i].name != cmds[k].name
  }

  /** The first command under the name of command k is command k. */
  lemma FindFirstNamed(cmds: seq<CmdShape>, k: nat)
    requires FirstNamed(cmds, k)
    ensures FindCommand(cmds, cmds[k].name) == k
  {
  }

  /** The command name and the argument text of a line. */
  lemma LineParts(name: string, ws: seq<string>)
    requires IsWireWord(name)
    ensures CommandName(Line(name, ws)) == name
    ensures LinearArgs(Line(name, ws)) == Tokenizer.JoinSpaces(ws)
  {
    var line := Line(name, ws);
    if ws == [] {
      assert IndexOf(line, ' ', 0) == -1;
    } else {
      IndexOfAt(line, ' ', 0, |name|);
      assert line[..|name|] == name;
      assert line[|name| + 1..] == Tokenizer.JoinSpaces(ws);
    }
  }

  /**
   * A line for the first command under its name, followed by plain words, decodes, whatever
   * character ends it, to that command with those words parsed against its options.
   */
  lemma DecodeLineTokens(cmds: seq<CmdShape>, k: nat, toks: seq<string>, e: char)
    requires FirstNamed(cmds, k) && IsWireWord(cmds[k].name)
    requires forall j :: 0 <= j < |toks| ==> Tokenizer.IsPlainWord(toks[j])
    ensures DecodeCmd(cmds, Line(cmds[k].name, toks) + [e]) == Matched(k, Parse(cmds[k].options, toks))
  {
    var line := Line(cmds[k].name, toks);
    var frame := line + [e];
    assert Body(frame) == line;
    LineParts(cmds[k].name, toks);
    FindFirstNamed(cmds, k);
    Tokenizer.TokensOfPlainWords(toks);
    DecodeCmdAt(cmds, frame, k, Tokenizer.JoinSpaces(toks));
  }

  /**
   * A line for the first command under its name, whose parameter values are plain words none
   * of which is one of its flags, decodes, whatever character ends it, to that command with
   * those values as positionals and no option detected.
   */
  lemma DecodeLine(cmds: seq<CmdShape>, k: nat, ws: seq<string>, e: char)
    requires FirstNamed(cmds, k) && IsWireWord(cmds[k].name)
    requires forall j :: 0 <= j < |ws| ==> Tokenizer.IsPlainWord(ws[j]) && Lookup(cmds[k].options, ws[j]) < 0
    ensures DecodeCmd(cmds, Line(cmds[k].name, ws) + [e]) == Matched(k, Parsed(ws, {}, map[]))
  {
    DecodeLineTokens(cmds, k, ws, e);
    ParseWithoutFlags(cmds[k].options, ws);
  }

  /** No carriage return in a line of wire words. */
  lemma LineAvoidsReturn(name: string, ws: seq<string>)
    requires IsWireWord(name) && forall j :: 0 <= j < |ws| ==> IsWireWord(ws[j])
    ensures '\r' !in Line(name, ws)
  {
    if ws != [] {
      JoinSpacesAvoids(ws, '\r');
    }
  }

  /**
   * A decoder with no start character and no header, whose end character is the carriage
   * return, finds in a line sent with CR LF the frame that ends at the carriage return.
   */
  lemma FrameOfSentLine(v: RxView, cfg: Config, cmds: seq<CmdShape>, line: string, s: string)
    requires Resumable(v) && v.state == Idle
    requires forall i :: 0 <= i < |v.buffer| ==> !IsLetterOrDigit(v.buffer[i])
    requires line != [] && IsLetterOrDigit(line[0]) && '\r' !in line
    requires s == line + "\r\n"
    requires !cfg.isStartChar && !cfg.isHeader && cfg.endChar == '\r' && |s| < cfg.flushLimit
    ensures Run(v, cfg, cmds, line + "\r\n") == FromDecode(s, 0, |line|, v.packetCount, cmds)
    ensures s[0..|line| + 1] == line + "\r"
  {
    StripJunk(v.buffer, s);
    assert v.buffer + (line + "\r\n") == v.buffer + s;
    IndexOfAt(s, '\r', 1, |line|);
  }

  /** The frame of a line for command k followed by wire words decodes to command k with those words parsed: what remains is the parameter count check. */
  lemma ReceiveLineTokens(v: RxView, cfg: Config, cmds: seq<CmdShape>, k: nat, toks: seq<string>)
    requires FirstNamed(cmds, k) && IsWireWord(cmds[k].name) && IsLetterOrDigit(cmds[k].name[0])
    requires forall j :: 0 <= j < |toks| ==> IsWireWord(toks[j])
    requires Resumable(v) && v.state == Idle
    requires forall i :: 0 <= i < |v.buffer| ==> !IsLetterOrDigit(v.buffer[i])
    requires !cfg.isStartChar && !cfg.isHeader && cfg.endChar == '\r'
    requires |Line(cmds[k].name, toks)| + 2 < cfg.flushLimit
    ensures var line := Line(cmds[k].name, toks);
      Run(v, cfg, cmds, line + "\r\n") ==
        FromDecoded(line + "\r\n", 0, |line|, v.packetCount, cmds, Matched(k, Parse(cmds[k].options, toks)))
  {
    var line := Line(cmds[k].name, toks);
    var s := line + "\r\n";
    LineAvoidsReturn(cmds[k].name, toks);
    FrameOfSentLine(v, cfg, cmds, line, s);
    DecodeLineTokens(cmds, k, toks, '\r');
  }

  /** The frame of a line for command k decodes to command k with the line's values: what remains is the parameter count check. */
  lemma ReceiveLine(v: RxView, cfg: Config, cmds: seq<CmdShape>, k: nat, ws: seq<string>)
    requires FirstNamed(cmds, k) && IsWireWord(cmds[k].name) && IsLetterOrDigit(cmds[k].name[0])
    requires forall j :: 0 <= j < |ws| ==> IsWireWord(ws[j]) && Lookup(cmds[k].options, ws[j]) < 0
    requires Resumable(v) && v.state == Idle
    requires forall i :: 0 <= i < |v.buffer| ==> !IsLetterOrDigit(v.buffer[i])
    requires !cfg.isStartChar && !cfg.isHeader && cfg.endChar == '\r'
    requires |Line(cmds[k].name, ws)| + 2 < cfg.flushLimit
    ensures var line := Line(cmds[k].name, ws);
      Run(v, cfg, cmds, line + "\r\n") ==
        FromDecoded(line + "\r\n", 0, |line|, v.packetCount, cmds, Matched(k, Parsed(ws, {}, map[])))
  {
    ReceiveLineTokens(v, cfg, cmds, k, ws);
    ParseWithoutFlags(cmds[k].options, ws);
  }

  /**
   * The transmitter-to-receiver round trip. Take a command line as `Tx.BuildString` writes it
   * and `Tx.SendCommand` frames it: command k's name, which starts with a letter or digit,
   * followed by parameter values that are wire words and not flags of the command, with no
   * option to send. A decoder waiting in Idle that holds only characters it strips, with no
   * start character, no header and the carriage return as end character, decodes it in one
   * call to command k with those values: the frame passes when their number is the command's
   * number of parameters, invoking its callback with them and counting one more packet, and
   * is dropped as a wrong parameter count otherwise. Only the line feed stays in the buffer.
   */
  lemma SendReceive(v: RxView, cfg: Config, cmds: seq<CmdShape>, k: nat, ws: seq<string>, os: seq<OptionOut>)
    requires FirstNamed(cmds, k) && IsWireWord(cmds[k].name) && IsLetterOrDigit(cmds[k].name[0])
    requires forall j :: 0 <= j < |ws| ==> IsWireWord(ws[j]) && Lookup(cmds[k].options, ws[j]) < 0
    requires forall i :: 0 <= i < |os| ==> !os[i].toSend
    requires Resumable(v) && v.state == Idle
    requires forall i :: 0 <= i < |v.buffer| ==> !IsLetterOrDigit(v.buffer[i])
    requires !cfg.isStartChar && !cfg.isHeader && cfg.endChar == '\r'
    requires |Line(cmds[k].name, ws)| + 2 < cfg.flushLimit
    ensures var line := Line(cmds[k].name, ws);
      var o := Run(v, cfg, cmds, Encode(cmds[k].name, Words(ws), os) + "\r\n");
      && o.attempt == Matched(k, Parsed(ws, {}, map[]))
      && o.view.buffer == "\n" && o.view.state == Idle
      && (|ws| == cmds[k].paramCount ==>
            o.status == PacketDecodingPassed && o.view.packetCount == v.packetCount + 1
            && o.calls == CallOf(cmds[k], ws))
      && (|ws| != cmds[k].paramCount ==>
            o.status == IncorrectNumParam && o.view.packetCount == v.packetCount && o.calls == [])
  {
    var line := Line(cmds[k].name, ws);
    EncodeIsLine(cmds[k].name, ws, os);
    ReceiveLine(v, cfg, cmds, k, ws);
    assert (line + "\r\n")[|line| + 1..] == "\n";
  }

  /**
   * With the line feed as end character instead, the carriage return stays in the frame's
   * data: a command sent without parameters or options is looked up under its name followed
   * by a carriage return, and so is unrecognised unless a command is registered under that.
   */
  lemma LineFeedEndKeepsReturn(cmds: seq<CmdShape>, name: string, os: seq<OptionOut>)
    requires IsWireWord(name) && forall i :: 0 <= i < |os| ==> !os[i].toSend
    requires forall i :: 0 <= i < |cmds| ==> cmds[i].name != name + "\r"
    ensures DecodeCmd(cmds, Encode(name, [], os) + "\r\n") == Unrecognised
  {
    EncodeBare(name, os);
    var frame := name + "\r\n";
    assert Body(frame) == name + "\r";
    assert IndexOf(name + "\r", ' ', 0) == -1;
    DecodeCmdAt(cmds, frame, FindCommand(cmds, name + "\r"), LinearArgs(Body(frame)));
  }
}
