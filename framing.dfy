/**
 * The receive decoder of `Rx.Run`, stated as a function from the decoder's state before a
 * call, its configuration, the registered commands and the newly read text to the state
 * after the call, the status it reports and what it did with the frame it found.
 */
module Framing {
  import opened ClideTypes
  import Tokenizer
  import opened OptionParser

  /** The states of the decode state machine. */
  datatype DecodeState = Idle | StartCharFound | EndCharFound | IdFound | Decoded | RunCallBackFunc | Finished

  /** The status identifiers `Run` reports. */
  datatype Status =
    | Ok
    | PacketDecodingPassed
    | DataIdDidNotMatch
    | RxBufferOverflow
    | PacketDecodingFailed
    | PacketUnexpectedlyTruncated
    | IncorrectNumParam

  /** The message-format configuration of a decoder. */
  datatype Config = Config(
    isStartChar: bool,
    startChar: char,
    isHeader: bool,
    dataIdString: string,
    endChar: char,
    flushLimit: int)

  /** The decoder's state between calls: buffer, machine state, markers and decoded-packet count. */
  datatype RxView = RxView(buffer: string, state: DecodeState, startPos: int, endPos: int, packetCount: int)

  /** What the decoder needs of a registered command. */
  datatype CmdShape = CmdShape(name: string, paramCount: nat, options: seq<OptShape>, callBack: Nullable<Handler>)

  /** One invocation of a command callback, with the positional values it was given. */
  datatype Invocation = Invocation(handler: Handler, args: seq<string>)

  /** What happened to the frame: no command lookup, an unknown command, or a match and its parse. */
  datatype Attempt = NotAttempted | Unrecognised | Matched(index: nat, parsed: Parsed)

  /** The result of one call, with the callbacks it invoked. */
  datatype Outcome = Outcome(view: RxView, status: Status, attempt: Attempt, calls: seq<Invocation>)

  /**
   * The states a call can leave the decoder in. A call that stops waiting for an end
   * character leaves the state at StartCharFound, with the start position inside a buffer
   * that begins with a letter or digit.
   */
  ghost predicate Resumable(v: RxView)
  {
    && (v.state == Idle || v.state == StartCharFound)
    && (v.state == StartCharFound ==> 0 <= v.startPos < |v.buffer| && IsLetterOrDigit(v.buffer[0]))
  }

  // ---------------------------------------------------------------------------
  // String operations the decoder uses
  // ---------------------------------------------------------------------------

  /** s without its leading characters that are not letters or digits. */
  function StripLeading(s: string): (r: string)
    ensures r == [] || IsLetterOrDigit(r[0])
  {
    if s == [] || IsLetterOrDigit(s[0]) then s else StripLeading(s[1..])
  }

  /** Stripping removes exactly the longest prefix of characters that are not letters or digits. */
  lemma {:induction false} StripLeadingSuffix(s: string)
    ensures var r := StripLeading(s);
      && |r| <= |s| && r == s[|s| - |r|..]
      && forall j :: 0 <= j < |s| - |r| ==> !IsLetterOrDigit(s[j])
  {
    if s != [] && !IsLetterOrDigit(s[0]) {
      StripLeadingSuffix(s[1..]);
    }
  }

  /** `String.IndexOf(c, from)`: the first index at or after from that holds c, or -1. */
  function IndexOf(s: string, c: char, from: nat): (r: int)
    requires from <= |s|
    ensures r == -1 || from <= r < |s|
    ensures r >= 0 ==> s[r] == c && forall j :: from <= j < r ==> s[j] != c
    ensures r < 0 ==> forall j :: from <= j < |s| ==> s[j] != c
    decreases |s| - from
  {
    if from == |s| then -1
    else if s[from] == c then from
    else IndexOf(s, c, from + 1)
  }

  /**
   * `String.Compare(buffer, startPos + 1, id, 0, id.Length) == 0`: the text after the start
   * position, cut at the length of id or at the end of the buffer, equals id.
   */
  function HeaderMatches(buffer: string, startPos: nat, id: string): bool
    requires startPos + 1 <= |buffer|
  {
    var end := if startPos + 1 + |id| <= |buffer| then startPos + 1 + |id| else |buffer|;
    buffer[startPos + 1..end] == id
  }

  /** The data string without its final character, the end character. */
  function Body(frame: string): string
    requires |frame| > 0
  {
    frame[..|frame| - 1]
  }

  /** The command name: the text before the first space, or all of d when d has no space or starts with one. */
  function CommandName(d: string): string
  {
    var firstSpace := IndexOf(d, ' ', 0);
    if firstSpace <= 0 then d else d[..firstSpace]
  }

  /** The argument text: everything after the first space, or "" when there is no space. */
  function LinearArgs(d: string): string
  {
    var firstSpace := IndexOf(d, ' ', 0);
    if firstSpace != -1 then d[firstSpace + 1..] else ""
  }

  /** The first command at index j or later whose name is name, or -1. */
  function FindCommandFrom(cmds: seq<CmdShape>, name: string, j: nat): (k: int)
    requires j <= |cmds|
    ensures k == -1 || j <= k < |cmds|
    ensures k >= 0 ==> cmds[k].name == name && forall i :: j <= i < k ==> cmds[i].name != name
    ensures k < 0 ==> forall i :: j <= i < |cmds| ==> cmds[i].name != name
    decreases |cmds| - j
  {
    if j == |cmds| then -1
    else if cmds[j].name == name then j
    else FindCommandFrom(cmds, name, j + 1)
  }

  /** The first registered command named name, or -1. */
  function FindCommand(cmds: seq<CmdShape>, name: string): int
  {
    FindCommandFrom(cmds, name, 0)
  }

  /** What `DecodeCmdString` makes of a frame (start position to end character, inclusive). */
  function DecodeCmd(cmds: seq<CmdShape>, frame: string): (a: Attempt)
    requires |frame| > 0
    ensures !a.NotAttempted? && (a.Matched? ==> a.index < |cmds|)
  {
    var d := Body(frame);
    var k := FindCommand(cmds, CommandName(d));
    if k < 0 then Unrecognised
    else Matched(k, Parse(cmds[k].options, Tokenizer.Tokens(LinearArgs(d))))
  }

  /** DecodeCmd given the command index and the argument text of the frame. */
  lemma DecodeCmdAt(cmds: seq<CmdShape>, frame: string, k: int, linearArgs: string)
    requires |frame| > 0
    requires k == FindCommand(cmds, CommandName(Body(frame)))
    requires linearArgs == LinearArgs(Body(frame))
    ensures k < 0 ==> DecodeCmd(cmds, frame) == Unrecognised
    ensures k >= 0 ==> k < |cmds| && DecodeCmd(cmds, frame) == Matched(k, Parse(cmds[k].options, Tokenizer.Tokens(linearArgs)))
  {
  }

  // ---------------------------------------------------------------------------
  // One call of Run
  // ---------------------------------------------------------------------------

  /**
   * Where the frame search starts in the stripped buffer s: the kept start position when a
   * previous call stopped waiting for the end character, otherwise the first start character
   * (-1 if there is none) or index 0 when no start character is configured.
   */
  function StartPosition(v: RxView, cfg: Config, s: string): int
  {
    if v.state == StartCharFound then v.startPos
    else if cfg.isStartChar then IndexOf(s, cfg.startChar, 0)
    else 0
  }

  /** A state with an empty buffer, both markers at 0 and the machine idle. */
  function Cleared(v: RxView): RxView
  {
    RxView([], Idle, 0, 0, v.packetCount)
  }

  /** The callback invocation, if the command has a callback, for a frame with positional values args. */
  function CallOf(c: CmdShape, args: seq<string>): seq<Invocation>
  {
    if c.callBack.NonNull? then [Invocation(c.callBack.value, args)] else []
  }

  /** The result of one call of `Run` that reads chunk from the port. */
  ghost function Run(v: RxView, cfg: Config, cmds: seq<CmdShape>, chunk: string): Outcome
    requires Resumable(v)
  {
    var s := StripLeading(v.buffer + chunk);
    if s == [] then
      Outcome(v.(buffer := []), Ok, NotAttempted, [])
    else if |s| >= cfg.flushLimit then
      Outcome(Cleared(v), RxBufferOverflow, NotAttempted, [])
    else
      var sp := StartPosition(v, cfg, s);
      if sp < 0 then
        Outcome(Cleared(v), Ok, NotAttempted, [])
      else
        FromStart(s, sp, v.packetCount, cfg, cmds)
  }

  /** The rest of a call once the start position sp in the buffer s is known: the end character is searched for. */
  ghost function FromStart(s: string, sp: nat, count: int, cfg: Config, cmds: seq<CmdShape>): Outcome
    requires sp < |s|
  {
    var ep := IndexOf(s, cfg.endChar, sp + 1);
    if ep <= sp then
      Outcome(RxView(s, StartCharFound, sp, ep, count), Ok, NotAttempted, [])
    else
      FromFrame(s, sp, ep, count, cfg, cmds)
  }

  /** The rest of a call once a frame from sp to ep is found: truncation and the header are checked. */
  ghost function FromFrame(s: string, sp: nat, ep: nat, count: int, cfg: Config, cmds: seq<CmdShape>): Outcome
    requires sp < ep < |s|
  {
    var next := if cfg.isStartChar then IndexOf(s, cfg.startChar, sp + 1) else -1;
    if cfg.isStartChar && next > 0 && next < ep then
      Outcome(RxView(s[next..], Idle, sp, ep, count), PacketUnexpectedlyTruncated, NotAttempted, [])
    else if cfg.isHeader && !HeaderMatches(s, sp, cfg.dataIdString) then
      Outcome(RxView([], Idle, 0, 0, count), DataIdDidNotMatch, NotAttempted, [])
    else
      FromDecode(s, sp, ep, count, cmds)
  }

  /**
   * The rest of a call once the frame from sp to ep is accepted: its command is decoded and
   * its parameters counted; the frame and everything before it leave the buffer.
   */
  ghost function FromDecode(s: string, sp: nat, ep: nat, count: int, cmds: seq<CmdShape>): Outcome
    requires sp < ep < |s|
  {
    var a := DecodeCmd(cmds, s[sp..ep + 1]);
    if a.Unrecognised? then
      Outcome(RxView(s[ep + 1..], Idle, sp, ep, count), PacketDecodingFailed, a, [])
    else
      FromDecoded(s, sp, ep, count, cmds, a)
  }

  /**
   * The rest of a call once the frame from sp to ep decoded to the attempt a: a frame whose
   * number of positional values differs from the command's number of parameters is dropped;
   * otherwise the callback is invoked and the frame counts. Either way the frame leaves the buffer.
   */
  ghost function FromDecoded(s: string, sp: nat, ep: nat, count: int, cmds: seq<CmdShape>, a: Attempt): Outcome
    requires ep < |s| && a.Matched? && a.index < |cmds|
  {
    var rest := RxView(s[ep + 1..], Idle, sp, ep, count);
    if cmds[a.index].paramCount != |a.parsed.positionals| then
      Outcome(rest, IncorrectNumParam, a, [])
    else
      Outcome(rest.(packetCount := count + 1), PacketDecodingPassed, a, CallOf(cmds[a.index], a.parsed.positionals))
  }

  // ---------------------------------------------------------------------------
  // The state machine of Run, one pass of its loop at a time
  // ---------------------------------------------------------------------------

  /** The decoder while the loop of `Run` works: its state, the frame attempt and the callbacks so far. */
  datatype Machine = Machine(
    buffer: string,
    state: DecodeState,
    startPos: int,
    endPos: int,
    packetCount: int,
    attempt: Attempt,
    calls: seq<Invocation>)

  /** Whether a pass of the loop ends the call, and with which status. */
  datatype Phase = Running | Done(status: Status)

  /** The number of passes at most left before the loop ends. */
  function Rank(st: DecodeState): nat
  {
    match st
    case Idle => 6
    case StartCharFound => 5
    case EndCharFound => 4
    case IdFound => 3
    case Decoded => 2
    case RunCallBackFunc => 1
    case Finished => 0
  }

  /**
   * What each state relies on: a non-empty buffer to search, the positions found so far,
   * and after decoding, the command matched.
   */
  ghost predicate Wf(m: Machine, cmds: seq<CmdShape>)
  {
    && (m.state == Idle ==> m.buffer != [])
    && (m.state == StartCharFound ==> 0 <= m.startPos < |m.buffer|)
    && (Rank(m.state) <= Rank(EndCharFound) ==>
          0 <= m.startPos < m.endPos < |m.buffer|)
    && (Rank(m.state) <= Rank(Decoded) ==>
          m.attempt.Matched? && m.attempt.index < |cmds|)
  }

  /** The view of a machine. */
  function ViewOf(m: Machine): RxView
  {
    RxView(m.buffer, m.state, m.startPos, m.endPos, m.packetCount)
  }

  /** State Idle: the start character is searched for; without one the frame starts at 0. */
  function StepIdle(m: Machine, cfg: Config): (Machine, Phase)
  {
    if cfg.isStartChar then
      var sp := IndexOf(m.buffer, cfg.startChar, 0);
      if sp >= 0 then (m.(startPos := sp, state := StartCharFound), Running)
      else if |m.buffer| > 0 then (m.(buffer := [], startPos := 0, endPos := 0), Done(Ok))
      else (m.(startPos := sp), Done(Ok))
    else (m.(startPos := 0, state := StartCharFound), Running)
  }

  /** State StartCharFound: the end character is searched for after the start position. */
  function StepStart(m: Machine, cfg: Config): (Machine, Phase)
    requires 0 <= m.startPos < |m.buffer|
  {
    var ep := IndexOf(m.buffer, cfg.endChar, m.startPos + 1);
    if ep > m.startPos then (m.(endPos := ep, state := EndCharFound), Running)
    else (m.(endPos := ep), Done(Ok))
  }

  /** State EndCharFound: a second start character inside the frame truncates it; the header is checked. */
  function StepEnd(m: Machine, cfg: Config): (Machine, Phase)
    requires 0 <= m.startPos < |m.buffer|
  {
    var next := if cfg.isStartChar then IndexOf(m.buffer, cfg.startChar, m.startPos + 1) else -1;
    if cfg.isStartChar && next > 0 && next < m.endPos then
      (m.(state := Idle, buffer := m.buffer[next..]), Done(PacketUnexpectedlyTruncated))
    else if cfg.isHeader && !HeaderMatches(m.buffer, m.startPos, cfg.dataIdString) then
      (m.(buffer := [], startPos := 0, endPos := 0, state := Idle), Done(DataIdDidNotMatch))
    else (m.(state := IdFound), Running)
  }

  /** State IdFound: the frame is decoded; an unknown command drops it. */
  function StepDecode(m: Machine, cmds: seq<CmdShape>): (Machine, Phase)
    requires 0 <= m.startPos < m.endPos < |m.buffer|
  {
    StepDecoded(m, DecodeCmd(cmds, m.buffer[m.startPos..m.endPos + 1]))
  }

  /** StepDecode decodes the frame between the start and the end positions. */
  lemma StepDecodeOf(m: Machine, cmds: seq<CmdShape>, frame: string)
    requires 0 <= m.startPos < m.endPos < |m.buffer| && frame == m.buffer[m.startPos..m.endPos + 1]
    ensures StepDecode(m, cmds) == StepDecoded(m, DecodeCmd(cmds, frame))
  {
  }

  /** State IdFound, once the frame decoded to a. */
  function StepDecoded(m: Machine, a: Attempt): (Machine, Phase)
    requires 0 <= m.endPos < |m.buffer|
  {
    if a.Matched? then (m.(attempt := a, state := Decoded), Running)
    else (m.(attempt := a, buffer := m.buffer[m.endPos + 1..], state := Idle), Done(PacketDecodingFailed))
  }

  /** State Decoded: a frame with the wrong number of positional values is dropped. */
  function StepCount(m: Machine, cmds: seq<CmdShape>): (Machine, Phase)
    requires 0 <= m.endPos < |m.buffer| && m.attempt.Matched? && m.attempt.index < |cmds|
  {
    if cmds[m.attempt.index].paramCount == |m.attempt.parsed.positionals| then
      (m.(state := RunCallBackFunc), Running)
    else (m.(buffer := m.buffer[m.endPos + 1..], state := Idle), Done(IncorrectNumParam))
  }

  /** State RunCallBackFunc: the callback of the command is invoked. */
  function StepCallBack(m: Machine, cmds: seq<CmdShape>): (Machine, Phase)
    requires m.attempt.Matched? && m.attempt.index < |cmds|
  {
    var c := CallOf(cmds[m.attempt.index], m.attempt.parsed.positionals);
    (m.(calls := m.calls + c, state := Finished), Running)
  }

  /** State Finished: the frame counts as decoded and leaves the buffer. */
  function StepFinish(m: Machine): (Machine, Phase)
    requires 0 <= m.endPos < |m.buffer|
  {
    (m.(packetCount := m.packetCount + 1, buffer := m.buffer[m.endPos + 1..], state := Idle),
     Done(PacketDecodingPassed))
  }

  /** One pass of the loop of `Run`: the action of the current state. */
  function StepM(m: Machine, cfg: Config, cmds: seq<CmdShape>): (r: (Machine, Phase))
    requires Wf(m, cmds)
    ensures r.1.Running? ==> Wf(r.0, cmds) && Rank(r.0.state) < Rank(m.state)
  {
    match m.state
    case Idle => StepIdle(m, cfg)
    case StartCharFound => StepStart(m, cfg)
    case EndCharFound => StepEnd(m, cfg)
    case IdFound => StepDecode(m, cmds)
    case Decoded => StepCount(m, cmds)
    case RunCallBackFunc => StepCallBack(m, cmds)
    case Finished => StepFinish(m)
  }

  /** The outcome of running the loop of `Run` from m until a pass ends it. */
  ghost function Continue(m: Machine, cfg: Config, cmds: seq<CmdShape>): Outcome
    requires Wf(m, cmds)
    decreases Rank(m.state)
  {
    var r := StepM(m, cfg, cmds);
    if r.1.Done? then Outcome(ViewOf(r.0), r.1.status, r.0.attempt, r.0.calls)
    else Continue(r.0, cfg, cmds)
  }

  /** The machine `Run` enters its loop with, after the stripping and the overflow check. */
  function Entry(v: RxView, s: string): Machine
  {
    Machine(s, v.state, v.startPos, v.endPos, v.packetCount, NotAttempted, [])
  }

  /** A buffer that starts with a letter or digit is not stripped. */
  lemma StripKeeps(t: string)
    requires t != [] && IsLetterOrDigit(t[0])
    ensures StripLeading(t) == t
  {
  }

  /** From the state Finished, the loop counts the frame and drops it from the buffer. */
  lemma ContinueFromFinished(m: Machine, cfg: Config, cmds: seq<CmdShape>)
    requires Wf(m, cmds) && m.state == Finished
    ensures Continue(m, cfg, cmds) ==
      Outcome(RxView(m.buffer[m.endPos + 1..], Idle, m.startPos, m.endPos, m.packetCount + 1),
              PacketDecodingPassed, m.attempt, m.calls)
  {
  }

  /** From the state RunCallBackFunc, the loop invokes the callback, then counts the frame. */
  lemma {:induction false} ContinueFromCallBack(m: Machine, cfg: Config, cmds: seq<CmdShape>)
    requires Wf(m, cmds) && m.state == RunCallBackFunc
    ensures Continue(m, cfg, cmds) ==
      Outcome(RxView(m.buffer[m.endPos + 1..], Idle, m.startPos, m.endPos, m.packetCount + 1),
              PacketDecodingPassed, m.attempt, m.calls + CallOf(cmds[m.attempt.index], m.attempt.parsed.positionals))
  {
    var m1 := m.(calls := m.calls + CallOf(cmds[m.attempt.index], m.attempt.parsed.positionals), state := Finished);
    assert StepM(m, cfg, cmds) == (m1, Running);
    ContinueFromFinished(m1, cfg, cmds);
  }

  /** From the state Decoded, the loop counts the positional values, then invokes the callback. */
  lemma {:induction false} ContinueFromDecoded(m: Machine, cfg: Config, cmds: seq<CmdShape>)
    requires Wf(m, cmds) && m.state == Decoded && m.calls == []
    ensures Continue(m, cfg, cmds) == FromDecoded(m.buffer, m.startPos, m.endPos, m.packetCount, cmds, m.attempt)
  {
    if cmds[m.attempt.index].paramCount == |m.attempt.parsed.positionals| {
      var m1 := m.(state := RunCallBackFunc);
      assert StepM(m, cfg, cmds) == (m1, Running);
      ContinueFromCallBack(m1, cfg, cmds);
    }
  }

  /** From the state after a frame was found and its header checked, the loop decodes it. */
  lemma {:induction false} ContinueFromIdFound(m: Machine, cfg: Config, cmds: seq<CmdShape>)
    requires Wf(m, cmds) && m.state == IdFound && m.calls == []
    ensures Continue(m, cfg, cmds) == FromDecode(m.buffer, m.startPos, m.endPos, m.packetCount, cmds)
  {
    var a := DecodeCmd(cmds, m.buffer[m.startPos..m.endPos + 1]);
    assert StepM(m, cfg, cmds) == StepDecoded(m, a);
    if a.Matched? {
      ContinueFromDecoded(m.(attempt := a, state := Decoded), cfg, cmds);
    }
  }

  /** From the state after an end character was found, the loop checks for truncation and the header. */
  lemma {:induction false} ContinueFromEndCharFound(m: Machine, cfg: Config, cmds: seq<CmdShape>)
    requires Wf(m, cmds) && m.state == EndCharFound && m.calls == [] && m.attempt == NotAttempted
    ensures Continue(m, cfg, cmds) == FromFrame(m.buffer, m.startPos, m.endPos, m.packetCount, cfg, cmds)
  {
    var next := if cfg.isStartChar then IndexOf(m.buffer, cfg.startChar, m.startPos + 1) else -1;
    if cfg.isStartChar && next > 0 && next < m.endPos {
      assert StepM(m, cfg, cmds) == (m.(state := Idle, buffer := m.buffer[next..]), Done(PacketUnexpectedlyTruncated));
    } else if cfg.isHeader && !HeaderMatches(m.buffer, m.startPos, cfg.dataIdString) {
      assert StepM(m, cfg, cmds) ==
        (m.(buffer := [], startPos := 0, endPos := 0, state := Idle), Done(DataIdDidNotMatch));
    } else {
      var m1 := m.(state := IdFound);
      assert StepM(m, cfg, cmds) == (m1, Running);
      ContinueFromIdFound(m1, cfg, cmds);
    }
  }

  /** From the state after a start position was fixed, the loop searches for the end character. */
  lemma {:induction false} ContinueFromStartCharFound(m: Machine, cfg: Config, cmds: seq<CmdShape>)
    requires Wf(m, cmds) && m.state == StartCharFound && m.calls == [] && m.attempt == NotAttempted
    ensures Continue(m, cfg, cmds) == FromStart(m.buffer, m.startPos, m.packetCount, cfg, cmds)
  {
    var ep := IndexOf(m.buffer, cfg.endChar, m.startPos + 1);
    if ep > m.startPos {
      var m1 := m.(endPos := ep, state := EndCharFound);
      assert StepM(m, cfg, cmds) == (m1, Running);
      ContinueFromEndCharFound(m1, cfg, cmds);
    } else {
      assert StepM(m, cfg, cmds) == (m.(endPos := ep), Done(Ok));
    }
  }

  /** After the stripping and the overflow check, `Run` is its loop run from the entry machine. */
  lemma {:induction false} RunContinues(v: RxView, cfg: Config, cmds: seq<CmdShape>, chunk: string)
    requires Resumable(v)
    requires var s := StripLeading(v.buffer + chunk); s != [] && |s| < cfg.flushLimit
    ensures var s := StripLeading(v.buffer + chunk);
      Wf(Entry(v, s), cmds) && Run(v, cfg, cmds, chunk) == Continue(Entry(v, s), cfg, cmds)
  {
    var s := StripLeading(v.buffer + chunk);
    var m := Entry(v, s);
    if v.state == StartCharFound {
      StripKeeps(v.buffer + chunk);
      ContinueFromStartCharFound(m, cfg, cmds);
    } else {
      var sp := StartPosition(v, cfg, s);
      if sp >= 0 {
        var m1 := m.(startPos := sp, state := StartCharFound);
        assert Continue(m, cfg, cmds) == Continue(m1, cfg, cmds);
        ContinueFromStartCharFound(m1, cfg, cmds);
      }
    }
  }

  /** `Run` leaves the decoder in a state it can resume from. */
  lemma RunResumable(v: RxView, cfg: Config, cmds: seq<CmdShape>, chunk: string)
    requires Resumable(v)
    ensures Resumable(Run(v, cfg, cmds, chunk).view)
  {
    var s := StripLeading(v.buffer + chunk);
    if v.state == StartCharFound {
      StripKeeps(v.buffer + chunk);
    }
    if s != [] && |s| < cfg.flushLimit {
      var sp := StartPosition(v, cfg, s);
      if sp >= 0 {
        FromStartResumable(s, sp, v.packetCount, cfg, cmds);
      }
    }
  }

  /** Once a start position is known, the call stops waiting for the end character or goes back to Idle. */
  lemma FromStartResumable(s: string, sp: nat, count: int, cfg: Config, cmds: seq<CmdShape>)
    requires sp < |s| && IsLetterOrDigit(s[0])
    ensures Resumable(FromStart(s, sp, count, cfg, cmds).view)
  {
    var ep := IndexOf(s, cfg.endChar, sp + 1);
    if ep > sp {
      FromFrameIdle(s, sp, ep, count, cfg, cmds);
    }
  }

  /** Once a frame is found, the call ends in Idle whatever happens to the frame. */
  lemma FromFrameIdle(s: string, sp: nat, ep: nat, count: int, cfg: Config, cmds: seq<CmdShape>)
    requires sp < ep < |s|
    ensures FromFrame(s, sp, ep, count, cfg, cmds).view.state == Idle
  {
  }

  /** One pass of the loop either leaves the outcome to the next passes or is the outcome. */
  lemma ContinueStep(m: Machine, cfg: Config, cmds: seq<CmdShape>)
    requires Wf(m, cmds)
    ensures var r := StepM(m, cfg, cmds);
      && (r.1.Running? ==> Wf(r.0, cmds) && Continue(r.0, cfg, cmds) == Continue(m, cfg, cmds))
      && (r.1.Done? ==> Continue(m, cfg, cmds) == Outcome(ViewOf(r.0), r.1.status, r.0.attempt, r.0.calls))
  {
  }

  /**
   * What the loop of `Run` keeps, with target the outcome of the call: while it runs, the
   * machine is well formed, continuing it gives target and no frame has been attempted before
   * the decoding state; once it stops, the machine and the status are target.
   */
  ghost predicate Looping(m: Machine, finished: bool, status: Status, cfg: Config, cmds: seq<CmdShape>,
                          target: Outcome)
  {
    && (!finished ==>
          && Wf(m, cmds) && Continue(m, cfg, cmds) == target
          && (Rank(m.state) >= Rank(IdFound) ==> m.attempt == NotAttempted))
    && (finished ==> Outcome(ViewOf(m), status, m.attempt, m.calls) == target)
  }

  /** A pass of the loop as StepM gives it keeps Looping and, unless it stops, lowers the rank. */
  lemma LoopStep(m0: Machine, m1: Machine, finished: bool, status: Status, cfg: Config, cmds: seq<CmdShape>,
                 target: Outcome)
    requires Looping(m0, false, status, cfg, cmds, target)
    requires m1 == StepM(m0, cfg, cmds).0 && finished == StepM(m0, cfg, cmds).1.Done?
    requires finished ==> status == StepM(m0, cfg, cmds).1.status
    ensures Looping(m1, finished, status, cfg, cmds, target)
    ensures !finished ==> Rank(m1.state) < Rank(m0.state)
  {
    ContinueStep(m0, cfg, cmds);
  }

  /** When nothing but characters that are not letters or digits has arrived, the buffer is emptied and the status is Ok. */
  lemma RunEmpty(v: RxView, cfg: Config, cmds: seq<CmdShape>, chunk: string)
    requires Resumable(v) && StripLeading(v.buffer + chunk) == []
    ensures Run(v, cfg, cmds, chunk) == Outcome(v.(buffer := []), Ok, NotAttempted, [])
  {
  }

  /** A stripped buffer at or above the flush limit is cleared and reported as an overflow. */
  lemma RunOverflow(v: RxView, cfg: Config, cmds: seq<CmdShape>, chunk: string)
    requires Resumable(v)
    requires var s := StripLeading(v.buffer + chunk); s != [] && |s| >= cfg.flushLimit
    ensures Run(v, cfg, cmds, chunk) == Outcome(Cleared(v), RxBufferOverflow, NotAttempted, [])
  {
  }
}
