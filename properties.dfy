/**
 * What one call of `Rx.Run` does, stated as properties of the decoder function `Framing.Run`:
 * which status comes with which change of the buffer, of the packet count and of the
 * callbacks, and how the command of a frame is looked up.
 */
module RxProperties {
  import opened ClideTypes
  import opened OptionParser
  import opened Framing

  /** The buffer after the leading characters that are not letters or digits are stripped. */
  function Stripped(v: RxView, chunk: string): string
  {
    StripLeading(v.buffer + chunk)
  }

  /**
   * The packet count, the attempt and the callbacks of an outcome, for a call that started
   * with the packet count count: a frame passes exactly when its command was found and the
   * number of its positional values is the command's number of parameters, and only then is
   * the packet counted and the command's callback invoked; a wrong number of values is
   * reported as such and an unknown command as a failed decoding.
   */
  ghost predicate Accounted(o: Outcome, count: int, cmds: seq<CmdShape>)
  {
    && o.view.packetCount == (if o.status == PacketDecodingPassed then count + 1 else count)
    && (o.status == PacketDecodingFailed <==> o.attempt == Unrecognised)
    && (o.status == IncorrectNumParam <==>
          o.attempt.Matched? && o.attempt.index < |cmds|
          && cmds[o.attempt.index].paramCount != |o.attempt.parsed.positionals|)
    && (o.status == PacketDecodingPassed <==>
          o.attempt.Matched? && o.attempt.index < |cmds|
          && cmds[o.attempt.index].paramCount == |o.attempt.parsed.positionals|)
    && o.calls == (if o.status == PacketDecodingPassed
                   then CallOf(cmds[o.attempt.index], o.attempt.parsed.positionals) else [])
  }

  /**
   * The buffer of an outcome, given the stripped buffer s the call worked on. A frame that was
   * decoded (whatever became of it) runs from the start position to the first end character
   * after it, holds no second start character and carries the header when one is configured;
   * it leaves the buffer together with everything before it. A truncated frame
   * leaves the buffer up to the second start character found before its end character. A
   * header mismatch and an overflow clear the buffer. A call that ends with Ok either empties
   * the buffer or keeps all of s.
   */
  ghost predicate BufferAfter(o: Outcome, s: string, count: int, cfg: Config)
  {
    var sp, ep := o.view.startPos, o.view.endPos;
    match o.status
    case PacketDecodingFailed | IncorrectNumParam | PacketDecodingPassed =>
      && o.view.state == Idle
      && 0 <= sp < ep < |s| && s[ep] == cfg.endChar
      && (forall j :: sp < j < ep ==> s[j] != cfg.endChar)
      && (cfg.isStartChar ==> forall j :: sp < j < ep ==> s[j] != cfg.startChar)
      && (cfg.isHeader ==> HeaderMatches(s, sp, cfg.dataIdString))
      && o.view.buffer == s[ep + 1..]
    case PacketUnexpectedlyTruncated =>
      var n := |s| - |o.view.buffer|;
      && o.view.state == Idle && cfg.isStartChar
      && 0 <= sp < n < ep < |s| && s[ep] == cfg.endChar && s[n] == cfg.startChar
      && (forall j :: sp < j < n ==> s[j] != cfg.startChar)
      && o.view.buffer == s[n..]
    case DataIdDidNotMatch =>
      cfg.isHeader && o.view == RxView([], Idle, 0, 0, count)
    case RxBufferOverflow =>
      o.view == RxView([], Idle, 0, 0, count)
    case Ok =>
      o.view.buffer == [] || o.view.buffer == s
  }

  // ---------------------------------------------------------------------------
  // Accounting: the packet count, the statuses and the callbacks
  // ---------------------------------------------------------------------------

  lemma FromDecodedAccounted(s: string, sp: nat, ep: nat, count: int, cmds: seq<CmdShape>, a: Attempt)
    requires ep < |s| && a.Matched? && a.index < |cmds|
    ensures Accounted(FromDecoded(s, sp, ep, count, cmds, a), count, cmds)
  {
  }

  lemma FromDecodeAccounted(s: string, sp: nat, ep: nat, count: int, cmds: seq<CmdShape>)
    requires sp < ep < |s|
    ensures Accounted(FromDecode(s, sp, ep, count, cmds), count, cmds)
  {
    var a := DecodeCmd(cmds, s[sp..ep + 1]);
    if a.Matched? {
      FromDecodedAccounted(s, sp, ep, count, cmds, a);
    }
  }

  lemma FromFrameAccounted(s: string, sp: nat, ep: nat, count: int, cfg: Config, cmds: seq<CmdShape>)
    requires sp < ep < |s|
    ensures Accounted(FromFrame(s, sp, ep, count, cfg, cmds), count, cmds)
  {
    var next := if cfg.isStartChar then IndexOf(s, cfg.startChar, sp + 1) else -1;
    if !(cfg.isStartChar && next > 0 && next < ep) && !(cfg.isHeader && !HeaderMatches(s, sp, cfg.dataIdString)) {
      FromDecodeAccounted(s, sp, ep, count, cmds);
    }
  }

  lemma FromStartAccounted(s: string, sp: nat, count: int, cfg: Config, cmds: seq<CmdShape>)
    requires sp < |s|
    ensures Accounted(FromStart(s, sp, count, cfg, cmds), count, cmds)
  {
    var ep := IndexOf(s, cfg.endChar, sp + 1);
    if ep > sp {
      FromFrameAccounted(s, sp, ep, count, cfg, cmds);
    }
  }

  /**
   * One call resolves at most one frame: the packet count goes up by one exactly when the
   * status is PacketDecodingPassed, and the callback of the frame's command, if it has one, is
   * the only callback invoked, and only then. The status is IncorrectNumParam exactly when the
   * command was found and its number of parameters differs from the number of positional values.
   */
  lemma RunAccounted(v: RxView, cfg: Config, cmds: seq<CmdShape>, chunk: string)
    requires Resumable(v)
    ensures Accounted(Run(v, cfg, cmds, chunk), v.packetCount, cmds)
  {
    var s := StripLeading(v.buffer + chunk);
    if s != [] && |s| < cfg.flushLimit {
      var sp := StartPosition(v, cfg, s);
      if sp >= 0 {
        FromStartAccounted(s, sp, v.packetCount, cfg, cmds);
      }
    }
  }

  // ---------------------------------------------------------------------------
  // The buffer after a call
  // ---------------------------------------------------------------------------

  lemma FromDecodedBuffer(s: string, sp: nat, ep: nat, count: int, cfg: Config, cmds: seq<CmdShape>, a: Attempt)
    requires sp < ep < |s| && s[ep] == cfg.endChar && (forall j :: sp < j < ep ==> s[j] != cfg.endChar)
    requires cfg.isStartChar ==> forall j :: sp < j < ep ==> s[j] != cfg.startChar
    requires cfg.isHeader ==> HeaderMatches(s, sp, cfg.dataIdString)
    requires a.Matched? && a.index < |cmds|
    ensures BufferAfter(FromDecoded(s, sp, ep, count, cmds, a), s, count, cfg)
  {
  }

  lemma FromDecodeBuffer(s: string, sp: nat, ep: nat, count: int, cfg: Config, cmds: seq<CmdShape>)
    requires sp < ep < |s| && s[ep] == cfg.endChar && (forall j :: sp < j < ep ==> s[j] != cfg.endChar)
    requires cfg.isStartChar ==> forall j :: sp < j < ep ==> s[j] != cfg.startChar
    requires cfg.isHeader ==> HeaderMatches(s, sp, cfg.dataIdString)
    ensures BufferAfter(FromDecode(s, sp, ep, count, cmds), s, count, cfg)
  {
    var a := DecodeCmd(cmds, s[sp..ep + 1]);
    if a.Matched? {
      FromDecodedBuffer(s, sp, ep, count, cfg, cmds, a);
    }
  }

  lemma FromFrameBuffer(s: string, sp: nat, ep: nat, count: int, cfg: Config, cmds: seq<CmdShape>)
    requires sp < ep < |s| && s[ep] == cfg.endChar && (forall j :: sp < j < ep ==> s[j] != cfg.endChar)
    ensures BufferAfter(FromFrame(s, sp, ep, count, cfg, cmds), s, count, cfg)
  {
    var next := if cfg.isStartChar then IndexOf(s, cfg.startChar, sp + 1) else -1;
    if cfg.isStartChar && next > 0 && next < ep {
      var o := FromFrame(s, sp, ep, count, cfg, cmds);
      assert o.view.buffer == s[next..];
      assert |s| - |o.view.buffer| == next;
    } else if !(cfg.isHeader && !HeaderMatches(s, sp, cfg.dataIdString)) {
      FromDecodeBuffer(s, sp, ep, count, cfg, cmds);
    }
  }

  lemma FromStartBuffer(s: string, sp: nat, count: int, cfg: Config, cmds: seq<CmdShape>)
    requires sp < |s|
    ensures BufferAfter(FromStart(s, sp, count, cfg, cmds), s, count, cfg)
  {
    var ep := IndexOf(s, cfg.endChar, sp + 1);
    if ep > sp {
      FromFrameBuffer(s, sp, ep, count, cfg, cmds);
    }
  }

  /**
   * Every status comes with its change of the buffer: a frame that was decoded, passed or not,
   * is dropped with everything before it; a truncated frame is dropped up to the second start
   * character; a header mismatch and an overflow clear the buffer; Ok empties it or keeps it.
   */
  lemma RunBuffer(v: RxView, cfg: Config, cmds: seq<CmdShape>, chunk: string)
    requires Resumable(v)
    ensures BufferAfter(Run(v, cfg, cmds, chunk), Stripped(v, chunk), v.packetCount, cfg)
  {
    var s := StripLeading(v.buffer + chunk);
    if s != [] && |s| < cfg.flushLimit {
      var sp := StartPosition(v, cfg, s);
      if sp >= 0 {
        FromStartBuffer(s, sp, v.packetCount, cfg, cmds);
      }
    }
  }

  // ---------------------------------------------------------------------------
  // The calls that end with Ok
  // ---------------------------------------------------------------------------

  /**
   * After stripping, the buffer is empty or starts with a letter or digit, and only
   * characters that are not letters or digits were removed.
   */
  lemma StrippedStartsWord(v: RxView, chunk: string)
    ensures var s := Stripped(v, chunk);
      && (s == [] || IsLetterOrDigit(s[0]))
      && |s| <= |v.buffer + chunk| && s == (v.buffer + chunk)[|v.buffer + chunk| - |s|..]
      && forall j :: 0 <= j < |v.buffer + chunk| - |s| ==> !IsLetterOrDigit((v.buffer + chunk)[j])
  {
    StripLeadingSuffix(v.buffer + chunk);
  }

  /** With a start character configured and none in the stripped buffer, the buffer is cleared and the status is Ok. */
  lemma RunNoStartChar(v: RxView, cfg: Config, cmds: seq<CmdShape>, chunk: string)
    requires Resumable(v) && v.state == Idle && cfg.isStartChar
    requires var s := Stripped(v, chunk);
      s != [] && |s| < cfg.flushLimit && forall j :: 0 <= j < |s| ==> s[j] != cfg.startChar
    ensures Run(v, cfg, cmds, chunk) == Outcome(Cleared(v), Ok, NotAttempted, [])
  {
  }

  /**
   * When no end character follows the start position, the call waits for more text: the
   * stripped buffer is kept, the state is StartCharFound and the status is Ok.
   */
  lemma RunWaiting(v: RxView, cfg: Config, cmds: seq<CmdShape>, chunk: string)
    requires Resumable(v)
    requires var s := Stripped(v, chunk);
      && s != [] && |s| < cfg.flushLimit
      && 0 <= StartPosition(v, cfg, s) < |s|
      && forall j :: StartPosition(v, cfg, s) < j < |s| ==> s[j] != cfg.endChar
    ensures var s := Stripped(v, chunk);
      Run(v, cfg, cmds, chunk) ==
        Outcome(RxView(s, StartCharFound, StartPosition(v, cfg, s), -1, v.packetCount), Ok, NotAttempted, [])
  {
  }

  // ---------------------------------------------------------------------------
  // Text that arrives in pieces
  // ---------------------------------------------------------------------------

  /** Once stripping has reached a letter or digit, text appended later is kept as it is. */
  lemma {:induction false} StripLeadingAppend(t: string, b: string)
    requires StripLeading(t) != []
    ensures StripLeading(t + b) == StripLeading(t) + b
  {
    if !IsLetterOrDigit(t[0]) {
      assert (t + b)[1..] == t[1..] + b;
      StripLeadingAppend(t[1..], b);
    }
  }

  /** A character found in s is found at the same index in s followed by more text. */
  lemma {:induction false} IndexOfExtends(s: string, b: string, c: char, from: nat)
    requires from <= |s| && IndexOf(s, c, from) >= 0
    ensures IndexOf(s + b, c, from) == IndexOf(s, c, from)
    decreases |s| - from
  {
    if s[from] != c {
      IndexOfExtends(s, b, c, from + 1);
    }
  }

  /** A call whose stripped buffer s is below the flush limit and holds a start position goes on to the end character search. */
  lemma RunAtStart(v: RxView, cfg: Config, cmds: seq<CmdShape>, chunk: string, s: string, sp: int)
    requires Resumable(v) && s == Stripped(v, chunk) && s != [] && |s| < cfg.flushLimit
    requires sp == StartPosition(v, cfg, s) && 0 <= sp < |s|
    ensures Run(v, cfg, cmds, chunk) == FromStart(s, sp, v.packetCount, cfg, cmds)
  {
  }

  /**
   * A call that ends waiting in StartCharFound had a non-empty stripped buffer below the flush
   * limit and a start position in it, found no end character after it, and kept the buffer.
   */
  lemma RunWaited(v: RxView, cfg: Config, cmds: seq<CmdShape>, chunk: string)
    requires Resumable(v) && Run(v, cfg, cmds, chunk).view.state == StartCharFound
    ensures var s := Stripped(v, chunk);
      var sp := StartPosition(v, cfg, s);
      && s != [] && |s| < cfg.flushLimit && 0 <= sp < |s|
      && Run(v, cfg, cmds, chunk) == Outcome(RxView(s, StartCharFound, sp, -1, v.packetCount), Ok, NotAttempted, [])
  {
    var s := Stripped(v, chunk);
    var sp := StartPosition(v, cfg, s);
    if s != [] && |s| < cfg.flushLimit && 0 <= sp {
      var ep := IndexOf(s, cfg.endChar, sp + 1);
      if ep > sp {
        FromFrameIdle(s, sp, ep, v.packetCount, cfg, cmds);
      }
    }
  }

  /**
   * A frame may reach the port in two pieces: when the call that reads the first piece stops
   * waiting for the end character, the call that reads the second piece does exactly what one
   * call reading both pieces at once would have done (same state, status, frame and callbacks),
   * provided the whole text stays below the flush limit.
   */
  lemma ChunkedRun(v: RxView, cfg: Config, cmds: seq<CmdShape>, a: string, b: string)
    requires Resumable(v)
    requires Run(v, cfg, cmds, a).view.state == StartCharFound
    requires |Stripped(v, a + b)| < cfg.flushLimit
    ensures Resumable(Run(v, cfg, cmds, a).view)
    ensures Run(Run(v, cfg, cmds, a).view, cfg, cmds, b) == Run(v, cfg, cmds, a + b)
  {
    RunWaited(v, cfg, cmds, a);
    var s := Stripped(v, a);
    var sp := StartPosition(v, cfg, s);
    var w := RxView(s, StartCharFound, sp, -1, v.packetCount);
    StripLeadingAppend(v.buffer + a, b);
    assert v.buffer + (a + b) == (v.buffer + a) + b;
    StripKeeps(s + b);
    if v.state != StartCharFound && cfg.isStartChar {
      IndexOfExtends(s, b, cfg.startChar, 0);
    }
    RunAtStart(w, cfg, cmds, b, s + b, sp);
    RunAtStart(v, cfg, cmds, a + b, s + b, sp);
  }

  /**
   * A start character that is not a letter or digit is itself stripped when it heads the
   * buffer: if it occurs nowhere else, the call clears the buffer and reports Ok, and the
   * frame it opened is never decoded.
   */
  lemma LeadingStartCharStripped(v: RxView, cfg: Config, cmds: seq<CmdShape>, chunk: string)
    requires Resumable(v) && v.state == Idle && cfg.isStartChar && !IsLetterOrDigit(cfg.startChar)
    requires var t := v.buffer + chunk;
      |t| < cfg.flushLimit && forall j :: 0 < j < |t| ==> t[j] != cfg.startChar
    ensures var o := Run(v, cfg, cmds, chunk);
      o.status == Ok && o.view.buffer == [] && o.attempt == NotAttempted && o.calls == []
      && o.view.packetCount == v.packetCount
  {
    var t := v.buffer + chunk;
    var s := Stripped(v, chunk);
    StripLeadingSuffix(t);
    if s != [] {
      forall j | 0 <= j < |s|
        ensures s[j] != cfg.startChar
      {
        assert s[j] == t[|t| - |s| + j];
      }
      RunNoStartChar(v, cfg, cmds, chunk);
    }
  }

  /**
   * The frame "<move 10 20 -f>" followed by CR LF, on an empty decoder with '<' as start
   * character and '>' as end character, is stripped of its start character and dropped.
   */
  lemma AngleBracketFrameDropped(cmds: seq<CmdShape>, count: int)
    ensures var v := RxView([], Idle, 0, 0, count);
      var o := Run(v, Config(true, '<', false, "", '>', 10000), cmds, "<move 10 20 -f>\r\n");
      o.status == Ok && o.view.buffer == [] && o.calls == [] && o.view.packetCount == count
  {
    var v := RxView([], Idle, 0, 0, count);
    var chunk := "<move 10 20 -f>\r\n";
    assert v.buffer + chunk == chunk;
    LeadingStartCharStripped(v, Config(true, '<', false, "", '>', 10000), cmds, chunk);
  }

  // ---------------------------------------------------------------------------
  // Command lookup
  // ---------------------------------------------------------------------------

  /**
   * A frame names the command registered first under the text before the first space of its
   * data (all of the data when there is no space or it starts with one); a frame naming no
   * registered command is unrecognised. A recognised frame is parsed against its command's options.
   */
  lemma DecodeLooksUpFirst(cmds: seq<CmdShape>, frame: string)
    requires |frame| > 0
    ensures var name := CommandName(Body(frame));
      var a := DecodeCmd(cmds, frame);
      && (a.Unrecognised? <==> forall i :: 0 <= i < |cmds| ==> cmds[i].name != name)
      && (a.Matched? ==>
            && cmds[a.index].name == name
            && (forall i :: 0 <= i < a.index ==> cmds[i].name != name)
            && a.parsed == Parse(cmds[a.index].options, Tokenizer.Tokens(LinearArgs(Body(frame)))))
  {
    var name := CommandName(Body(frame));
    DecodeCmdAt(cmds, frame, FindCommand(cmds, name), LinearArgs(Body(frame)));
  }
}
