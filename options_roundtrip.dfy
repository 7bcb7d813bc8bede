/**
 * The transmitter-to-receiver round trip for command lines that carry options: the flags and
 * values `Tx.BuildString` writes after the parameters are found again by the receiver's
 * parser, so that the options detected are exactly the options sent, each with the value
 * it was sent with.
 */
module OptionRoundTrip {
  import opened ClideTypes
  import opened Encoding
  import Tokenizer
  import opened OptionParser
  import opened Framing
  import opened RoundTrip

  /** The tokens an option puts on the line: its flag, then its value when it carries one; none when it is not sent. */
  function OptionTokens(o: OptionOut): seq<string>
  {
    if !o.toSend then [] else [Flag(o.name)] + (if o.hasValue then [o.value] else [])
  }

  /** The tokens of options j and later, in order. */
  function OptionsTokensFrom(os: seq<OptionOut>, j: nat): seq<string>
    decreases |os| - j
  {
    if j >= |os| then [] else OptionTokens(os[j]) + OptionsTokensFrom(os, j + 1)
  }

  /** The tokens, each preceded by one space. */
  function SpaceLed(ts: seq<string>): string
  {
    if ts == [] then "" else " " + ts[0] + SpaceLed(ts[1..])
  }

  lemma {:induction false} SpaceLedAppend(a: seq<string>, b: seq<string>)
    ensures SpaceLed(a + b) == SpaceLed(a) + SpaceLed(b)
  {
    if a == [] {
      assert a + b == b;
    } else {
      assert (a + b)[1..] == a[1..] + b;
      SpaceLedAppend(a[1..], b);
    }
  }

  lemma {:induction false} SpaceLedJoin(ts: seq<string>)
    requires ts != []
    ensures SpaceLed(ts) == " " + Tokenizer.JoinSpaces(ts)
  {
    if |ts| > 1 {
      SpaceLedJoin(ts[1..]);
      LeadRegroup(ts[0], Tokenizer.JoinSpaces(ts[1..]));
    }
  }

  lemma Regroup(a: string, b: string, c: string)
    ensures a + b + c == a + (b + c)
  {
  }

  lemma LeadRegroup(h: string, j: string)
    ensures " " + h + (" " + j) == " " + (h + " " + j)
  {
  }

  /** An option's text is its tokens, each after a space. */
  lemma OptionTextTokens(o: OptionOut)
    ensures OptionText(o) == SpaceLed(OptionTokens(o))
  {
    if o.toSend {
      var flag := [Flag(o.name)];
      assert SpaceLed(flag) == " " + Flag(o.name) + "";
      assert " " + Flag(o.name) == " -" + o.name;
      if o.hasValue {
        assert SpaceLed([o.value]) == " " + o.value + "";
        SpaceLedAppend(flag, [o.value]);
      }
    }
  }

  /** The options' text from option j on is their tokens, each after a space. */
  lemma {:induction false} OptionsTextTokens(os: seq<OptionOut>, j: nat)
    requires j <= |os|
    ensures OptionsText(os[j..]) == SpaceLed(OptionsTokensFrom(os, j))
    decreases |os| - j
  {
    if j < |os| {
      OptionsTextFrom(os, j);
      OptionTextTokens(os[j]);
      OptionsTextTokens(os, j + 1);
      SpaceLedAppend(OptionTokens(os[j]), OptionsTokensFrom(os, j + 1));
    } else {
      assert os[j..] == [];
    }
  }

  /** The parameters' text of set values is the values, each after a space. */
  lemma ParamsTextSpaceLed(ws: seq<string>)
    ensures ParamsText(Words(ws)) == SpaceLed(ws)
  {
    if ws != [] {
      ParamsTextOfWords(ws);
      SpaceLedJoin(ws);
    }
  }

  /** A line is the name followed by its words, each after a space. */
  lemma LineSpaceLed(name: string, ts: seq<string>)
    ensures Line(name, ts) == name + SpaceLed(ts)
  {
    if ts != [] {
      SpaceLedJoin(ts);
      assert name + " " + Tokenizer.JoinSpaces(ts) == name + (" " + Tokenizer.JoinSpaces(ts));
    }
  }

  /**
   * The encoder writes a command line with set parameter values ws and options os as the
   * name followed by the values and then the sent options' flags and values, separated by
   * single spaces.
   */
  lemma EncodeIsLineWithOptions(name: string, ws: seq<string>, os: seq<OptionOut>)
    ensures Encode(name, Words(ws), os) == Line(name, ws + OptionsTokensFrom(os, 0))
  {
    var toks := OptionsTokensFrom(os, 0);
    ParamsTextSpaceLed(ws);
    assert os[0..] == os;
    OptionsTextTokens(os, 0);
    SpaceLedAppend(ws, toks);
    LineSpaceLed(name, ws + toks);
    Regroup(name, SpaceLed(ws), SpaceLed(toks));
  }

  /** The receiver's options match the sender's: same names, same value flags, same order. */
  predicate Registered(opts: seq<OptShape>, os: seq<OptionOut>)
  {
    |opts| == |os| && forall i :: 0 <= i < |os| ==> opts[i] == OptShape(os[i].name, os[i].hasValue)
  }

  /** Every option that is sent is the first of its name, so that its flag stands for it. */
  ghost predicate SentFirst(opts: seq<OptShape>, os: seq<OptionOut>)
  {
    forall i :: 0 <= i < |os| && os[i].toSend ==> FirstOfName(opts, i)
  }

  /** A sent option's flag, and its value when it carries one, are wire words. */
  predicate WireOption(o: OptionOut)
  {
    o.toSend ==> IsWireWord(Flag(o.name)) && (o.hasValue ==> IsWireWord(o.value))
  }

  /** The indices of the sent options below j. */
  function SentBelow(os: seq<OptionOut>, j: nat): set<nat>
    requires j <= |os|
  {
    set i: nat | i < j && os[i].toSend
  }

  /** The values of the sent, value-carrying options below j, by index. */
  function SentValuesBelow(os: seq<OptionOut>, j: nat): map<nat, string>
    requires j <= |os|
  {
    map i: nat | i < j && os[i].toSend && os[i].hasValue :: os[i].value
  }

  /**
   * What the receiver should find in a line with values ws and options os: ws as the
   * positionals, the sent options detected, and each sent value-carrying option's value.
   */
  function Expected(ws: seq<string>, os: seq<OptionOut>): Parsed
  {
    Parsed(ws, SentBelow(os, |os|), SentValuesBelow(os, |os|))
  }

  lemma FlagsDiffer(a: string, b: string)
    ensures Flag(a) == Flag(b) ==> a == b
  {
    assert Flag(a)[1..] == a;
    assert Flag(b)[1..] == b;
  }

  /** The flag of the first option of a name stands for that option. */
  lemma LookupFirst(opts: seq<OptShape>, k: nat)
    requires FirstOfName(opts, k)
    ensures Lookup(opts, Flag(opts[k].name)) == k
  {
    forall j | 0 <= j < k
      ensures Flag(opts[j].name) != Flag(opts[k].name)
    {
      FlagsDiffer(opts[j].name, opts[k].name);
    }
  }

  /** Option j joins the sent options when it is sent. */
  lemma SentBelowStep(os: seq<OptionOut>, j: nat)
    requires j < |os|
    ensures SentBelow(os, j + 1) == if os[j].toSend then SentBelow(os, j) + {j} else SentBelow(os, j)
  {
  }

  /** Option j's value joins the sent values when it is sent and carries one. */
  lemma SentValuesBelowStep(os: seq<OptionOut>, j: nat)
    requires j < |os|
    ensures SentValuesBelow(os, j + 1)
         == if os[j].toSend && os[j].hasValue then SentValuesBelow(os, j)[j := os[j].value] else SentValuesBelow(os, j)
  {
  }

  /** Parsing the tokens of option j moves its findings into those of the options before it. */
  lemma ParseOneOption(opts: seq<OptShape>, os: seq<OptionOut>, ws: seq<string>, j: nat)
    requires Registered(opts, os) && SentFirst(opts, os) && j < |os|
    ensures ParseFrom(opts, OptionsTokensFrom(os, j), 0, Parsed(ws, SentBelow(os, j), SentValuesBelow(os, j)))
         == ParseFrom(opts, OptionsTokensFrom(os, j + 1), 0, Parsed(ws, SentBelow(os, j + 1), SentValuesBelow(os, j + 1)))
  {
    var rest := OptionsTokensFrom(os, j + 1);
    var acc := Parsed(ws, SentBelow(os, j), SentValuesBelow(os, j));
    SentBelowStep(os, j);
    SentValuesBelowStep(os, j);
    if !os[j].toSend {
      assert OptionTokens(os[j]) == [];
      assert OptionsTokensFrom(os, j) == rest;
    } else {
      LookupFirst(opts, j);
      if os[j].hasValue {
        assert OptionsTokensFrom(os, j) == [Flag(opts[j].name), os[j].value] + rest;
        FlagValueStep(opts, j, os[j].value, rest, acc);
      } else {
        assert OptionsTokensFrom(os, j) == [Flag(opts[j].name)] + rest;
        FlagStep(opts, j, rest, acc);
      }
    }
  }

  /** Parsing the tokens of options j and later adds those options' findings to those of the options before j. */
  lemma {:induction false} ParseOptionTokens(opts: seq<OptShape>, os: seq<OptionOut>, ws: seq<string>, j: nat)
    requires Registered(opts, os) && SentFirst(opts, os) && j <= |os|
    ensures ParseFrom(opts, OptionsTokensFrom(os, j), 0, Parsed(ws, SentBelow(os, j), SentValuesBelow(os, j)))
         == Expected(ws, os)
    decreases |os| - j
  {
    if j < |os| {
      ParseOneOption(opts, os, ws, j);
      ParseOptionTokens(opts, os, ws, j + 1);
    }
  }

  /**
   * Parsing a line's values followed by its options' tokens, against the options registered
   * as they were sent, gives the values as positionals, detects exactly the sent options and
   * takes each sent value-carrying option's value.
   */
  lemma ParseSentLine(opts: seq<OptShape>, ws: seq<string>, os: seq<OptionOut>)
    requires Registered(opts, os) && SentFirst(opts, os)
    requires forall j :: 0 <= j < |ws| ==> Lookup(opts, ws[j]) < 0
    ensures Parse(opts, ws + OptionsTokensFrom(os, 0)) == Expected(ws, os)
  {
    ParseFromPositionals(opts, ws, OptionsTokensFrom(os, 0), NothingParsed);
    assert NothingParsed.positionals + ws == ws;
    assert SentBelow(os, 0) == {};
    assert SentValuesBelow(os, 0) == map[];
    ParseOptionTokens(opts, os, ws, 0);
  }

  lemma {:induction false} OptionsTokensWire(os: seq<OptionOut>, j: nat)
    requires forall i :: j <= i < |os| ==> WireOption(os[i])
    ensures forall t :: 0 <= t < |OptionsTokensFrom(os, j)| ==> IsWireWord(OptionsTokensFrom(os, j)[t])
    decreases |os| - j
  {
    if j < |os| {
      OptionsTokensWire(os, j + 1);
    }
  }

  /**
   * The round trip with options. Take a command line as `Tx.BuildString` writes it and
   * `Tx.SendCommand` frames it, for command k, whose name starts with a letter or digit,
   * with parameter values that are wire words and not flags of the command, and with options
   * registered on the receiver as on the sender, where every sent option is the first of its
   * name and sends a flag and, when it carries one, a value that are wire words. A decoder
   * waiting in Idle that holds only characters it strips, with no start character, no header
   * and the carriage return as end character, decodes it in one call to command k with the
   * values as positionals, exactly the sent options detected and their values taken; the frame
   * passes when the number of values is the command's number of parameters, and is dropped as
   * a wrong parameter count otherwise. Only the line feed stays in the buffer.
   */
  lemma SendReceiveOptions(v: RxView, cfg: Config, cmds: seq<CmdShape>, k: nat, ws: seq<string>, os: seq<OptionOut>)
    requires FirstNamed(cmds, k) && IsWireWord(cmds[k].name) && IsLetterOrDigit(cmds[k].name[0])
    requires forall j :: 0 <= j < |ws| ==> IsWireWord(ws[j]) && Lookup(cmds[k].options, ws[j]) < 0
    requires Registered(cmds[k].options, os) && SentFirst(cmds[k].options, os)
    requires forall i :: 0 <= i < |os| ==> WireOption(os[i])
    requires Resumable(v) && v.state == Idle
    requires forall i :: 0 <= i < |v.buffer| ==> !IsLetterOrDigit(v.buffer[i])
    requires !cfg.isStartChar && !cfg.isHeader && cfg.endChar == '\r'
    requires |Encode(cmds[k].name, Words(ws), os)| + 2 < cfg.flushLimit
    ensures var o := Run(v, cfg, cmds, Encode(cmds[k].name, Words(ws), os) + "\r\n");
      && o.attempt == Matched(k, Expected(ws, os))
      && o.view.buffer == "\n" && o.view.state == Idle
      && (|ws| == cmds[k].paramCount ==>
            o.status == PacketDecodingPassed && o.view.packetCount == v.packetCount + 1
            && o.calls == CallOf(cmds[k], ws))
      && (|ws| != cmds[k].paramCount ==>
            o.status == IncorrectNumParam && o.view.packetCount == v.packetCount && o.calls == [])
  {
    var toks := ws + OptionsTokensFrom(os, 0);
    var line := Line(cmds[k].name, toks);
    EncodeIsLineWithOptions(cmds[k].name, ws, os);
    OptionsTokensWire(os, 0);
    assert forall t :: 0 <= t < |toks| ==> IsWireWord(toks[t]);
    ParseSentLine(cmds[k].options, ws, os);
    ReceiveLineTokens(v, cfg, cmds, k, toks);
    assert (line + "\r\n")[|line| + 1..] == "\n";
  }

  /** Two runs "-v" and "-w" with two separators between them split into those two tokens. */
  lemma SplitDoubleSeparator(m: string)
    requires m == ['-', 'v', Tokenizer.Separator, Tokenizer.Separator, '-', 'w']
    ensures Tokenizer.Split(m) == ["-v", "-w"]
  {
    var sep := Tokenizer.Separator;
    var tail := m[4..];
    assert tail == ['-', 'w'];
    assert Tokenizer.RunLength(tail) == 2 by {
      assert Tokenizer.RunLength(tail[1..]) == 1;
    }
    assert Tokenizer.Split(tail) == ["-w"] by {
      assert tail[..2] == tail && tail[2..] == [];
    }
    var gap := m[2..];
    assert gap[0] == sep && gap[1..][0] == sep && gap[1..][1..] == tail;
    assert Tokenizer.Split(gap) == Tokenizer.Split(gap[1..]) == Tokenizer.Split(tail);
    assert Tokenizer.RunLength(m) == 2 by {
      assert Tokenizer.RunLength(m[1..]) == 1;
    }
    assert m[..2] == "-v" && m[2..] == gap;
  }

  /** The argument text "-v  -w", with two spaces, splits into two tokens. */
  lemma TokensOfDoubleSpace()
    ensures Tokenizer.Tokens("-v  -w") == ["-v", "-w"]
  {
    var sep := Tokenizer.Separator;
    Tokenizer.QuoteFreeMasked("-v  -w");
    assert Tokenizer.Spaced("-v  -w") == ['-', 'v', sep, sep, '-', 'w'];
    SplitDoubleSeparator(['-', 'v', sep, sep, '-', 'w']);
  }

  /** Option v sent with the empty value, then option w, is written as "-v", an empty token and "-w". */
  lemma EncodeEmptyValue(os: seq<OptionOut>)
    requires os == [OptionOut("v", true, "", true), OptionOut("w", false, "", true)]
    ensures Encode("go", [], os) == Line("go", ["-v", "", "-w"])
    ensures Tokenizer.JoinSpaces(["-v", "", "-w"]) == "-v  -w"
  {
    assert Flag("v") == "-v" && Flag("w") == "-w";
    assert OptionsTokensFrom(os, 2) == [];
    assert OptionsTokensFrom(os, 1) == ["-w"];
    assert OptionsTokensFrom(os, 0) == ["-v", ""] + ["-w"] == ["-v", "", "-w"];
    EncodeIsLineWithOptions("go", [], os);
    assert Words([]) == [];
    var empty: seq<string> := [];
    assert empty + OptionsTokensFrom(os, 0) == ["-v", "", "-w"];
  }

  /**
   * Why a sent option's value must not be empty: the encoder still writes the space before
   * the empty value, the tokenizer drops the empty token, and the parser takes the next
   * option's flag as the value. Here option v, sent with the empty value, receives "-w" as
   * its value, and option w, which was sent, is not detected.
   */
  lemma EmptyValueTakesNextFlag()
    ensures var cmds := [CmdShape("go", 0, [OptShape("v", true), OptShape("w", false)], Null)];
      var os := [OptionOut("v", true, "", true), OptionOut("w", false, "", true)];
      DecodeCmd(cmds, Encode("go", [], os) + "\r") == Matched(0, Parsed([], {0}, map[0 := "-w"]))
  {
    var opts := [OptShape("v", true), OptShape("w", false)];
    var cmds := [CmdShape("go", 0, opts, Null)];
    var os := [OptionOut("v", true, "", true), OptionOut("w", false, "", true)];
    var toks := ["-v", "", "-w"];
    EncodeEmptyValue(os);
    var line := Line("go", toks);
    assert Body(line + "\r") == line;
    LineParts("go", toks);
    TokensOfDoubleSpace();
    DecodeCmdAt(cmds, line + "\r", 0, "-v  -w");
    assert Lookup(opts, "-v") == 0;
    assert Parse(opts, ["-v", "-w"]) == Parsed([], {0}, map[0 := "-w"]);
  }
}
