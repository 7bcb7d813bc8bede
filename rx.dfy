/**
 * The receiving engine (`Rx`): it accumulates the text read from the port, finds frames in
 * it, decodes the command a frame carries against the registered commands, checks the
 * number of parameters and invokes the command's callback.
 */
module ClideRx {
  import opened ClideTypes
  import opened OptionParser
  import Tokenizer
  import opened Framing
  import opened ClideOption
  import opened ClideCommand

  /** The buffer length at which the receive buffer is flushed, unless configured otherwise. */
  const DefaultFlushLimit := 10000

  /** n flags, all false. */
  function AllClear(n: nat): (r: seq<bool>)
    ensures |r| == n && forall i :: 0 <= i < n ==> !r[i]
  {
    seq(n, i => false)
  }

  /** The flag and the value of each option, as recorded at some point. */
  type OptionStates = map<Option, (bool, string)>

  /** The current flag and value of each option in os. */
  ghost function StatesOf(os: set<Option>): (r: OptionStates)
    reads os`isDetected, os`value
    ensures r.Keys == os
  {
    map o | o in os :: (o.isDetected, o.value)
  }

  /** snap records every option of every list. */
  ghost predicate Covers(snap: OptionStates, lists: seq<seq<Option>>)
  {
    forall j, o :: 0 <= j < |lists| && o in lists[j] ==> o in snap
  }

  /** Every option snap records, except those in ol, still holds the state snap records. */
  ghost predicate KeptFrom(snap: OptionStates, ol: seq<Option>)
    reads snap.Keys`isDetected, snap.Keys`value
  {
    forall o :: o in snap && o !in ol ==> o.isDetected == snap[o].0 && o.value == snap[o].1
  }

  /** The values snap records for the options ol, in order. */
  function ValuesIn(snap: OptionStates, ol: seq<Option>): (r: seq<string>)
    requires forall o :: o in ol ==> o in snap
    ensures |r| == |ol| && forall i :: 0 <= i < |ol| ==> r[i] == snap[ol[i]].1
  {
    if ol == [] then [] else [snap[ol[0]].1] + ValuesIn(snap, ol[1..])
  }

  /**
   * What the frame attempt a left in the command state of r, given the command index index0,
   * the parameters params0 and the option states snap before it: without an attempt nothing
   * changed; an unknown command sets the index to -1 and leaves the rest; a match sets the index
   * and the parameters, marks the options of the command matched (lists holds the option list of
   * each command) and leaves every other option as it was.
   */
  ghost predicate AttemptDone(r: Rx, a: Attempt, lists: seq<seq<Option>>, snap: OptionStates,
                              index0: int, params0: seq<string>)
    requires Covers(snap, lists)
    reads r`lastCommandIndex, r`parameters, snap.Keys`isDetected, snap.Keys`value
  {
    match a
    case NotAttempted => r.lastCommandIndex == index0 && r.parameters == params0 && KeptFrom(snap, [])
    case Unrecognised => r.lastCommandIndex == -1 && r.parameters == params0 && KeptFrom(snap, [])
    case Matched(k, p) =>
      && k < |lists| && r.lastCommandIndex == k && r.parameters == p.positionals
      && MarkedFrom(lists[k], p, AllClear(|lists[k]|), ValuesIn(snap, lists[k]))
      && KeptFrom(snap, lists[k])
  }

  /**
   * What a call of `Run` starts from, besides the buffer: the configuration, the commands and
   * their option lists, the option states, the command index, the parameters and the callback log.
   */
  datatype Context = Context(
    cfg: Framing.Config,
    shapes: seq<CmdShape>,
    lists: seq<seq<Option>>,
    snap: OptionStates,
    index0: int,
    params0: seq<string>,
    log0: seq<Invocation>)

  /** The options of every command are among OptionsOf. */
  lemma CoversAll(cmds: seq<Command>)
    ensures Covers(StatesOf(OptionsOf(cmds)), OptionListsOf(cmds))
  {
    var lists := OptionListsOf(cmds);
    forall j, o | 0 <= j < |lists| && o in lists[j]
      ensures o in OptionsOf(cmds)
    {
      OptionListsOfAt(cmds, j);
      OptionsOfHas(cmds, j);
    }
  }

  /** Clears the detected flag of every option in ol; nothing else changes. */
  method ClearDetected(ol: seq<Option>)
    modifies ol`isDetected
    ensures DetectedFlags(ol) == AllClear(|ol|)
  {
    var j := 0;
    while j < |ol|
      invariant 0 <= j <= |ol|
      invariant forall i :: 0 <= i < j ==> !ol[i].isDetected
    {
      ol[j].isDetected := false;
      j := j + 1;
    }
  }

  /**
   * The part of decoding that works on the command found: every option of cmd is cleared,
   * the argument text is split into tokens and the tokens are parsed into the options.
   * Returns the positional values.
   */
  method ParseArguments(cmd: Command, ghost ol: seq<Option>, ghost snap: OptionStates, linearArgs: string)
    returns (positionals: seq<string>)
    requires ol == cmd.optionList
    requires (forall o :: o in ol ==> o in snap) && KeptFrom(snap, [])
    modifies ol`isDetected, ol`value
    ensures var p := OptionParser.Parse(OptionShapesOf(ol), Tokenizer.Tokens(linearArgs));
      && positionals == p.positionals
      && MarkedFrom(ol, p, AllClear(|ol|), ValuesIn(snap, ol))
      && KeptFrom(snap, ol)
  {
    ghost var values0 := OptionValuesOf(ol);
    assert values0 == ValuesIn(snap, ol);
    ClearDetected(cmd.optionList);
    assert OptionValuesOf(ol) == values0;
    var arguments := Rx.SplitArguments(linearArgs);
    positionals := cmd.Parse(arguments);
  }

  class Rx {
    var isStartChar: bool
    var startChar: char
    var isHeader: bool
    /** Configurable but not used by the decoder. */
    var headerDataSeparatorChar: char
    var endIdenChar: char
    /** The number of frames decoded successfully. */
    var packetCount: int
    /** The positional values of the last decoded frame. */
    var parameters: seq<string>
    var buffFlushLimit: int
    /** The index of the command the last decoded frame named, or -1. */
    var lastCommandIndex: int
    var registeredCmds: seq<Command>
    var decodeState: DecodeState
    var startPos: int
    var endPos: int
    /** The header that must follow the start character when headers are enabled. */
    const dataIdString: string
    var rxBuffer: string
    /** The callbacks invoked so far, oldest first. */
    var callLog: seq<Invocation>

    /** A decoder with no commands, no start character, no header and an empty buffer. */
    constructor (dataIdString: string)
      ensures this.dataIdString == dataIdString
      ensures !isStartChar && startChar == '\0' && !isHeader && endIdenChar == '\0'
      ensures headerDataSeparatorChar == '\0' && buffFlushLimit == DefaultFlushLimit
      ensures packetCount == 0 && parameters == [] && lastCommandIndex == 0
      ensures registeredCmds == [] && callLog == []
      ensures View() == RxView([], Idle, 0, 0, 0)
      ensures Valid()
    {
      this.dataIdString := dataIdString;
      isStartChar := false;
      startChar := '\0';
      isHeader := false;
      headerDataSeparatorChar := '\0';
      endIdenChar := '\0';
      packetCount := 0;
      parameters := [];
      buffFlushLimit := DefaultFlushLimit;
      lastCommandIndex := 0;
      registeredCmds := [];
      decodeState := Idle;
      startPos := 0;
      endPos := 0;
      rxBuffer := [];
      callLog := [];
    }

    /** The decoder state that `Run` works on. */
    function View(): RxView
      reads this`rxBuffer, this`decodeState, this`startPos, this`endPos, this`packetCount
    {
      RxView(rxBuffer, decodeState, startPos, endPos, packetCount)
    }

    /** The message format. */
    function Config(): Framing.Config
      reads this`isStartChar, this`startChar, this`isHeader, this`endIdenChar, this`buffFlushLimit
    {
      Framing.Config(isStartChar, startChar, isHeader, dataIdString, endIdenChar, buffFlushLimit)
    }

    /** Between calls the decoder waits in a state `Run` can resume from. */
    ghost predicate Valid()
      reads this`rxBuffer, this`decodeState, this`startPos, this`endPos, this`packetCount
    {
      Resumable(View())
    }

    /** Every option of every registered command. */
    ghost function Options(): set<Option>
      reads this`registeredCmds, registeredCmds`optionList
    {
      OptionsOf(registeredCmds)
    }

    /** The registered commands as the decoder sees them. */
    function Shapes(): seq<CmdShape>
      reads this`registeredCmds, registeredCmds`name, registeredCmds`paramList, registeredCmds`optionList,
            registeredCmds`callBackFunc
    {
      CommandShapesOf(registeredCmds)
    }

    /** Adds a command; frames naming it are decoded from now on. */
    method RegisterCommand(cmd: Command)
      modifies this`registeredCmds
      ensures registeredCmds == old(registeredCmds) + [cmd]
    {
      registeredCmds := registeredCmds + [cmd];
    }

    /** Empties the buffer and sets both positions to 0. */
    method ResetBuffer()
      modifies this`rxBuffer, this`startPos, this`endPos
      ensures rxBuffer == [] && startPos == 0 && endPos == 0
    {
      rxBuffer := [];
      startPos := 0;
      endPos := 0;
    }

    /**
     * Splits an argument string into tokens at spaces outside quotes, dropping the toggling
     * quotes and the empty pieces.
     */
    static method SplitArguments(commandLine: string) returns (args: seq<string>)
      ensures args == Tokenizer.Tokens(commandLine)
    {
      var parmChars := new char[|commandLine|](i requires 0 <= i < |commandLine| => commandLine[i]);
      var inSingleQuote := false;
      var inDoubleQuote := false;
      for index := 0 to parmChars.Length
        invariant forall i :: 0 <= i < index ==> parmChars[i] == Tokenizer.MaskedAt(commandLine, i)
        invariant forall i :: index <= i < parmChars.Length ==> parmChars[i] == commandLine[i]
        invariant Tokenizer.Quotes(inSingleQuote, inDoubleQuote) == Tokenizer.QuotesAfter(commandLine[..index])
      {
        Tokenizer.QuotesAfterStep(commandLine, index);
        if parmChars[index] == '"' && !inSingleQuote {
          inDoubleQuote := !inDoubleQuote;
          parmChars[index] := Tokenizer.Separator;
        }
        if parmChars[index] == '\'' && !inDoubleQuote {
          inSingleQuote := !inSingleQuote;
          parmChars[index] := Tokenizer.Separator;
        }
        if !inSingleQuote && !inDoubleQuote && parmChars[index] == ' ' {
          parmChars[index] := Tokenizer.Separator;
        }
      }
      assert parmChars[..] == Tokenizer.Masked(commandLine);
      args := Tokenizer.Split(parmChars[..]);
    }

    /** The index of the first registered command named cmdName, or -1. */
    method FindCommandIndex(cmdName: string) returns (index: int)
      ensures index == FindCommand(Shapes(), cmdName)
      ensures index == -1 || 0 <= index < |registeredCmds|
    {
      ghost var shapes := Shapes();
      index := -1;
      var x := 0;
      while x < |registeredCmds|
        invariant 0 <= x <= |registeredCmds|
        invariant FindCommandFrom(shapes, cmdName, x) == FindCommand(shapes, cmdName)
      {
        CommandShapesOfAt(registeredCmds, x);
        if registeredCmds[x].name == cmdName {
          index := x;
          break;
        }
        x := x + 1;
      }
    }

    /**
     * The first half of decoding a frame (start position to end character, inclusive): the
     * index of the registered command its first word names, or -1, and its argument text.
     */
    method LocateCommand(dataString: string) returns (k: int, linearArgs: string)
      requires |dataString| > 0
      ensures k == FindCommand(Shapes(), CommandName(Body(dataString)))
      ensures k == -1 || 0 <= k < |registeredCmds|
      ensures linearArgs == LinearArgs(Body(dataString))
    {
      var d := dataString[..|dataString| - 1];
      var firstSpace := IndexOf(d, ' ', 0);
      var cmdName := if firstSpace <= 0 then d else d[..firstSpace];
      k := FindCommandIndex(cmdName);
      linearArgs := if firstSpace != -1 then d[firstSpace + 1..] else "";
    }

    /**
     * The second half of decoding a frame for command k: its options are cleared, the argument
     * text is parsed into them and into the parameters, and k becomes the last command index.
     */
    method ApplyCommand(k: nat, linearArgs: string, ghost lists: seq<seq<Option>>, ghost snap: OptionStates)
      requires k < |registeredCmds| && lists == OptionListsOf(registeredCmds)
      requires Covers(snap, lists) && KeptFrom(snap, [])
      modifies this`lastCommandIndex, this`parameters, registeredCmds[k].optionList`isDetected,
               registeredCmds[k].optionList`value
      ensures AttemptDone(this, Matched(k, OptionParser.Parse(OptionShapesOf(lists[k]), Tokenizer.Tokens(linearArgs))),
                          lists, snap, old(lastCommandIndex), old(parameters))
    {
      var cmd := registeredCmds[k];
      OptionListsOfAt(registeredCmds, k);
      ghost var ol := cmd.optionList;
      assert forall o :: o in ol ==> o in snap;
      parameters := ParseArguments(cmd, ol, snap, linearArgs);
      lastCommandIndex := k;
    }

    /**
     * Decodes a frame (start position to end character, inclusive): looks the command
     * name up among the registered commands and, when found, clears the flags of that
     * command's options and parses the arguments into them and into the parameters.
     */
    method DecodeCmdString(dataString: string, ghost shapes: seq<CmdShape>, ghost lists: seq<seq<Option>>,
                           ghost snap: OptionStates)
      returns (found: bool)
      requires |dataString| > 0
      requires shapes == Shapes() && lists == OptionListsOf(registeredCmds)
      requires Covers(snap, lists) && KeptFrom(snap, [])
      modifies this`lastCommandIndex, this`parameters, snap.Keys`isDetected, snap.Keys`value
      ensures found == DecodeCmd(shapes, dataString).Matched?
      ensures AttemptDone(this, DecodeCmd(shapes, dataString), lists, snap, old(lastCommandIndex), old(parameters))
    {
      var k, linearArgs := LocateCommand(dataString);
      DecodeCmdAt(shapes, dataString, k, linearArgs);
      if k == -1 {
        lastCommandIndex := k;
        return false;
      }
      CommandShapesOfAt(registeredCmds, k);
      OptionListsOfAt(registeredCmds, k);
      assert forall o :: o in registeredCmds[k].optionList ==> o in snap;
      assert shapes[k].options == OptionShapesOf(lists[k]);
      ApplyCommand(k, linearArgs, lists, snap);
      found := true;
    }

    /** Whether the last decoded frame carried as many positional values as its command has parameters. */
    method CheckParameters() returns (sufficient: bool)
      requires 0 <= lastCommandIndex < |registeredCmds|
      ensures sufficient <==> |registeredCmds[lastCommandIndex].paramList| == |parameters|
    {
      if |registeredCmds[lastCommandIndex].paramList| != |parameters| {
        return false;
      }
      return true;
    }

    /** Invokes the callback of the last decoded command, if it has one, with the parameters. */
    method RunCallBackFunction()
      requires 0 <= lastCommandIndex < |registeredCmds|
      modifies this`callLog
      ensures var cb := registeredCmds[lastCommandIndex].callBackFunc;
        callLog == old(callLog) + (if cb.NonNull? then [Invocation(cb.value, parameters)] else [])
    {
      var cb := registeredCmds[lastCommandIndex].callBackFunc;
      if cb.NonNull? {
        callLog := callLog + [Invocation(cb.value, parameters)];
      }
    }

    /** The decoder as the loop of `Run` sees it. */
    ghost function MachineOf(attempt: Attempt, calls: seq<Invocation>): Machine
      reads this`rxBuffer, this`decodeState, this`startPos, this`endPos, this`packetCount
    {
      Machine(rxBuffer, decodeState, startPos, endPos, packetCount, attempt, calls)
    }

    /** The decoder is now at r.0, with the pass ending (and its status) as r.1 says. */
    ghost predicate Reached(r: (Machine, Phase), finished: bool, status: Status, attempt: Attempt,
                            calls: seq<Invocation>)
      reads this`rxBuffer, this`decodeState, this`startPos, this`endPos, this`packetCount
    {
      MachineOf(attempt, calls) == r.0 && finished == r.1.Done? && (finished ==> status == r.1.status)
    }

    /** This pass of the loop of `Run`, started from m0, did what StepM says. */
    ghost predicate Passed(m0: Machine, cfg: Framing.Config, shapes: seq<CmdShape>, finished: bool, status: Status,
                           attempt: Attempt, calls: seq<Invocation>)
      requires Wf(m0, shapes)
      reads this`rxBuffer, this`decodeState, this`startPos, this`endPos, this`packetCount
    {
      Reached(StepM(m0, cfg, shapes), finished, status, attempt, calls)
    }

    /**
     * What the loop of `Run` keeps: the configuration, the commands and their option lists as
     * at the start of the call, the effect of the frame attempt so far on the command state, and
     * the callbacks invoked so far.
     */
    ghost predicate Holds(c: Context, attempt: Attempt, calls: seq<Invocation>)
      reads this`isStartChar, this`startChar, this`isHeader, this`endIdenChar, this`buffFlushLimit
      reads this`registeredCmds, registeredCmds`name, registeredCmds`paramList, registeredCmds`optionList,
            registeredCmds`callBackFunc
      reads this`lastCommandIndex, this`parameters, this`callLog, c.snap.Keys`isDetected, c.snap.Keys`value
    {
      && c.cfg == Config() && c.shapes == Shapes() && c.lists == OptionListsOf(registeredCmds)
      && Covers(c.snap, c.lists)
      && AttemptDone(this, attempt, c.lists, c.snap, c.index0, c.params0)
      && callLog == c.log0 + calls
    }

    /* The frame lemmas below take their arguments as one tuple (context, attempt, callbacks). */

    /** Holds depends only on the configuration, the commands, the command state and the options. */
    twostate lemma HoldsFramed(h: (Context, Attempt, seq<Invocation>))
      requires old(Holds(h.0, h.1, h.2))
      requires unchanged(this`isStartChar, this`startChar, this`isHeader, this`endIdenChar, this`buffFlushLimit)
      requires unchanged(this`registeredCmds, this`lastCommandIndex, this`parameters, this`callLog)
      requires unchanged(old(registeredCmds)`name, old(registeredCmds)`paramList, old(registeredCmds)`optionList,
                        old(registeredCmds)`callBackFunc)
      requires unchanged(h.0.snap.Keys`isDetected, h.0.snap.Keys`value)
      ensures Holds(h.0, h.1, h.2)
    {
    }

    /** Holds for new callbacks, when nothing but the callback log has changed. */
    twostate lemma HoldsLogged(h: (Context, Attempt, seq<Invocation>, seq<Invocation>))
      requires old(Holds(h.0, h.1, h.2))
      requires unchanged(this`isStartChar, this`startChar, this`isHeader, this`endIdenChar, this`buffFlushLimit)
      requires unchanged(this`registeredCmds, this`lastCommandIndex, this`parameters)
      requires unchanged(old(registeredCmds)`name, old(registeredCmds)`paramList, old(registeredCmds)`optionList,
                        old(registeredCmds)`callBackFunc)
      requires unchanged(h.0.snap.Keys`isDetected, h.0.snap.Keys`value)
      requires callLog == h.0.log0 + h.3
      ensures Holds(h.0, h.1, h.3)
    {
    }

    /** Holds for a new attempt, when the configuration, the commands and the callback log are kept. */
    twostate lemma HoldsUpdated(h: (Context, Attempt, seq<Invocation>, Attempt))
      requires old(Holds(h.0, h.1, h.2))
      requires unchanged(this`isStartChar, this`startChar, this`isHeader, this`endIdenChar, this`buffFlushLimit)
      requires unchanged(this`registeredCmds, this`callLog)
      requires unchanged(old(registeredCmds)`name, old(registeredCmds)`paramList, old(registeredCmds)`optionList,
                        old(registeredCmds)`callBackFunc)
      requires AttemptDone(this, h.3, h.0.lists, h.0.snap, h.0.index0, h.0.params0)
      ensures Holds(h.0, h.3, h.2)
    {
    }

    /** The pass in state Idle, done by `SearchStart`; the configuration, the commands and the command state are kept. */
    method OnIdle(ghost m0: Machine, ghost c: Context) returns (finished: bool, status: Status)
      requires m0.state == Idle
      requires m0 == MachineOf(m0.attempt, m0.calls) && Wf(m0, c.shapes) && Holds(c, m0.attempt, m0.calls)
      modifies this`startPos, this`decodeState, this`rxBuffer, this`endPos
      ensures Reached(Framing.StepIdle(m0, c.cfg), finished, status, m0.attempt, m0.calls)
      ensures Holds(c, m0.attempt, m0.calls)
    {
      finished, status := SearchStart(m0, c);
    }

    /** The pass in state StartCharFound, done by `SearchEnd`; the configuration, the commands and the command state are kept. */
    method OnStartCharFound(ghost m0: Machine, ghost c: Context) returns (finished: bool, status: Status)
      requires m0.state == StartCharFound
      requires m0 == MachineOf(m0.attempt, m0.calls) && Wf(m0, c.shapes) && Holds(c, m0.attempt, m0.calls)
      modifies this`decodeState, this`endPos
      ensures Reached(Framing.StepStart(m0, c.cfg), finished, status, m0.attempt, m0.calls)
      ensures Holds(c, m0.attempt, m0.calls)
    {
      finished, status := SearchEnd(m0, c);
    }

    /** The pass in state EndCharFound, done by `CheckFrame`; the configuration, the commands and the command state are kept. */
    method OnEndCharFound(ghost m0: Machine, ghost c: Context) returns (finished: bool, status: Status)
      requires m0.state == EndCharFound
      requires m0 == MachineOf(m0.attempt, m0.calls) && Wf(m0, c.shapes) && Holds(c, m0.attempt, m0.calls)
      modifies this`decodeState, this`rxBuffer, this`startPos, this`endPos
      ensures Reached(Framing.StepEnd(m0, c.cfg), finished, status, m0.attempt, m0.calls)
      ensures Holds(c, m0.attempt, m0.calls)
    {
      finished, status := CheckFrame(m0, c);
    }

    /** The pass in state Decoded, done by `CheckCount`; the configuration, the commands and the command state are kept. */
    method OnDecoded(ghost m0: Machine, ghost c: Context) returns (finished: bool, status: Status)
      requires m0.state == Decoded
      requires m0 == MachineOf(m0.attempt, m0.calls) && Wf(m0, c.shapes) && Holds(c, m0.attempt, m0.calls)
      modifies this`decodeState, this`rxBuffer
      ensures Reached(Framing.StepCount(m0, c.shapes), finished, status, m0.attempt, m0.calls)
      ensures Holds(c, m0.attempt, m0.calls)
    {
      assert lastCommandIndex == m0.attempt.index && parameters == m0.attempt.parsed.positionals;
      finished, status := CheckCount(m0, c);
    }

    /** The pass in state Finished, done by `FinishFrame`; the configuration, the commands and the command state are kept. */
    method OnFinished(ghost m0: Machine, ghost c: Context) returns (finished: bool, status: Status)
      requires m0.state == Finished
      requires m0 == MachineOf(m0.attempt, m0.calls) && Wf(m0, c.shapes) && Holds(c, m0.attempt, m0.calls)
      modifies this`decodeState, this`rxBuffer, this`packetCount
      ensures Reached(Framing.StepFinish(m0), finished, status, m0.attempt, m0.calls)
      ensures Holds(c, m0.attempt, m0.calls)
    {
      finished, status := FinishFrame(m0, c);
    }

    /** State Idle: the start character is searched for; without one the frame starts at 0. */
    method SearchStart(ghost m0: Machine, ghost c: Context) returns (finished: bool, status: Status)
      requires m0.state == Idle
      requires m0 == MachineOf(m0.attempt, m0.calls) && Wf(m0, c.shapes) && c.cfg == Config()
      modifies this`startPos, this`decodeState, this`rxBuffer, this`endPos
      ensures Reached(Framing.StepIdle(m0, c.cfg), finished, status, m0.attempt, m0.calls)
    {
      finished, status := false, Ok;
      if isStartChar {
        startPos := IndexOf(rxBuffer, startChar, 0);
        if startPos >= 0 {
          decodeState := StartCharFound;
        } else {
          if |rxBuffer| > 0 {
            ResetBuffer();
          }
          status := Ok;
          finished := true;
        }
      } else {
        startPos := 0;
        decodeState := StartCharFound;
      }
    }

    /** State StartCharFound: the end character is searched for after the start position. */
    method SearchEnd(ghost m0: Machine, ghost c: Context) returns (finished: bool, status: Status)
      requires m0.state == StartCharFound
      requires m0 == MachineOf(m0.attempt, m0.calls) && Wf(m0, c.shapes) && c.cfg == Config()
      modifies this`decodeState, this`endPos
      ensures Reached(Framing.StepStart(m0, c.cfg), finished, status, m0.attempt, m0.calls)
    {
      finished, status := false, Ok;
      endPos := IndexOf(rxBuffer, endIdenChar, startPos + 1);
      if endPos > startPos {
        decodeState := EndCharFound;
      } else {
        status := Ok;
        finished := true;
      }
    }

    /** State EndCharFound: a second start character inside the frame truncates it; the header is checked. */
    method CheckFrame(ghost m0: Machine, ghost c: Context) returns (finished: bool, status: Status)
      requires m0.state == EndCharFound
      requires m0 == MachineOf(m0.attempt, m0.calls) && Wf(m0, c.shapes) && c.cfg == Config()
      modifies this`decodeState, this`rxBuffer, this`startPos, this`endPos
      ensures Reached(Framing.StepEnd(m0, c.cfg), finished, status, m0.attempt, m0.calls)
    {
      finished, status := false, Ok;
      var nextStartChar := -1;
      if isStartChar {
        nextStartChar := IndexOf(rxBuffer, startChar, startPos + 1);
      }
      if isStartChar && nextStartChar > 0 && nextStartChar < endPos {
        decodeState := Idle;
        rxBuffer := rxBuffer[nextStartChar..];
        status := PacketUnexpectedlyTruncated;
        finished := true;
        assert Framing.StepEnd(m0, c.cfg) == (MachineOf(m0.attempt, m0.calls), Done(status));
      } else if isHeader && !HeaderMatches(rxBuffer, startPos, dataIdString) {
        ResetBuffer();
        decodeState := Idle;
        status := DataIdDidNotMatch;
        finished := true;
        assert Framing.StepEnd(m0, c.cfg) == (MachineOf(m0.attempt, m0.calls), Done(status));
      } else {
        decodeState := IdFound;
        assert Framing.StepEnd(m0, c.cfg) == (MachineOf(m0.attempt, m0.calls), Running);
      }
    }

    /** State IdFound: the frame is decoded; an unknown command drops it. */
    method DecodeFrame(ghost m0: Machine, ghost c: Context) returns (finished: bool, status: Status, ghost attempt: Attempt)
      requires m0.state == IdFound && m0.attempt == NotAttempted
      requires m0 == MachineOf(NotAttempted, m0.calls) && Wf(m0, c.shapes) && Holds(c, NotAttempted, m0.calls)
      modifies this`decodeState, this`rxBuffer, this`lastCommandIndex, this`parameters,
               c.snap.Keys`isDetected, c.snap.Keys`value
      ensures Reached(Framing.StepDecode(m0, c.shapes), finished, status, attempt, m0.calls)
      ensures Holds(c, attempt, m0.calls)
    {
      var frame := rxBuffer[startPos..endPos + 1];
      StepDecodeOf(m0, c.shapes, frame);
      var found;
      found, attempt := DecodeAttempt(frame, c, m0.calls);
      finished, status := Settle(m0, c, found, attempt);
    }

    /** After decoding: a frame that decoded goes on to the count check, any other one is dropped. */
    method Settle(ghost m0: Machine, ghost c: Context, found: bool, ghost attempt: Attempt)
      returns (finished: bool, status: Status)
      requires 0 <= m0.endPos < |m0.buffer| && m0.(attempt := attempt) == MachineOf(attempt, m0.calls)
      requires found == attempt.Matched? && Holds(c, attempt, m0.calls)
      modifies this`decodeState, this`rxBuffer
      ensures Reached(Framing.StepDecoded(m0, attempt), finished, status, attempt, m0.calls)
      ensures Holds(c, attempt, m0.calls)
    {
      finished, status := false, Ok;
      if found {
        decodeState := Decoded;
      } else {
        rxBuffer := rxBuffer[endPos + 1..];
        decodeState := Idle;
        status := PacketDecodingFailed;
        finished := true;
      }
      HoldsFramed((c, attempt, m0.calls));
    }

    /** The frame is decoded against the commands of c; the command state records the attempt. */
    method DecodeAttempt(frame: string, ghost c: Context, ghost calls: seq<Invocation>)
      returns (found: bool, ghost attempt: Attempt)
      requires |frame| > 0 && Holds(c, NotAttempted, calls)
      modifies this`lastCommandIndex, this`parameters, c.snap.Keys`isDetected, c.snap.Keys`value
      ensures attempt == DecodeCmd(c.shapes, frame) && found == attempt.Matched? && Holds(c, attempt, calls)
    {
      attempt := DecodeCmd(c.shapes, frame);
      found := DecodeCmdString(frame, c.shapes, c.lists, c.snap);
      HoldsUpdated((c, NotAttempted, calls, attempt));
    }

    /** State Decoded: a frame with the wrong number of positional values is dropped. */
    method CheckCount(ghost m0: Machine, ghost c: Context) returns (finished: bool, status: Status)
      requires m0.state == Decoded
      requires m0 == MachineOf(m0.attempt, m0.calls) && Wf(m0, c.shapes) && c.shapes == Shapes()
      requires lastCommandIndex == m0.attempt.index && parameters == m0.attempt.parsed.positionals
      modifies this`decodeState, this`rxBuffer
      ensures Reached(Framing.StepCount(m0, c.shapes), finished, status, m0.attempt, m0.calls)
    {
      finished, status := false, Ok;
      CommandShapesOfAt(registeredCmds, lastCommandIndex);
      var sufficient := CheckParameters();
      if sufficient {
        decodeState := RunCallBackFunc;
      } else {
        rxBuffer := rxBuffer[endPos + 1..];
        decodeState := Idle;
        status := IncorrectNumParam;
        finished := true;
      }
    }

    /** State RunCallBackFunc: the callback of the command is invoked. */
    method InvokeCallback(ghost m0: Machine, ghost c: Context) returns (ghost calls: seq<Invocation>)
      requires m0.state == RunCallBackFunc
      requires m0 == MachineOf(m0.attempt, m0.calls) && Wf(m0, c.shapes) && Holds(c, m0.attempt, m0.calls)
      modifies this`decodeState, this`callLog
      ensures Reached(Framing.StepCallBack(m0, c.shapes), false, Ok, m0.attempt, calls) && Holds(c, m0.attempt, calls)
    {
      decodeState := Finished;
      calls := LogCallback(m0, c);
    }

    /** The callback of the decoded command is invoked with its positional values, and logged. */
    method LogCallback(ghost m0: Machine, ghost c: Context) returns (ghost calls: seq<Invocation>)
      requires m0.attempt.Matched? && m0.attempt.index < |c.shapes| && Holds(c, m0.attempt, m0.calls)
      modifies this`callLog
      ensures calls == m0.calls + CallOf(c.shapes[m0.attempt.index], m0.attempt.parsed.positionals)
      ensures Holds(c, m0.attempt, calls)
    {
      ghost var k := m0.attempt.index;
      assert lastCommandIndex == k && parameters == m0.attempt.parsed.positionals;
      CommandShapesOfAt(registeredCmds, k);
      RunCallBackFunction();
      calls := m0.calls + CallOf(c.shapes[k], m0.attempt.parsed.positionals);
      HoldsLogged((c, m0.attempt, m0.calls, calls));
    }

    /** State Finished: the frame counts as decoded and leaves the buffer. */
    method FinishFrame(ghost m0: Machine, ghost c: Context) returns (finished: bool, status: Status)
      requires m0.state == Finished
      requires m0 == MachineOf(m0.attempt, m0.calls) && Wf(m0, c.shapes)
      modifies this`decodeState, this`rxBuffer, this`packetCount
      ensures Reached(Framing.StepFinish(m0), finished, status, m0.attempt, m0.calls)
    {
      packetCount := packetCount + 1;
      rxBuffer := rxBuffer[endPos + 1..];
      decodeState := Idle;
      status := PacketDecodingPassed;
      finished := true;
    }

    /** One pass of the loop of `Run`: the action of the current state. */
    method Pass(ghost m0: Machine, ghost c: Context)
      returns (finished: bool, status: Status, ghost attempt: Attempt, ghost calls: seq<Invocation>)
      requires m0 == MachineOf(m0.attempt, m0.calls) && Wf(m0, c.shapes) && Holds(c, m0.attempt, m0.calls)
      requires Rank(m0.state) >= Rank(IdFound) ==> m0.attempt == NotAttempted
      modifies this`rxBuffer, this`decodeState, this`startPos, this`endPos, this`packetCount,
               this`lastCommandIndex, this`parameters, this`callLog, c.snap.Keys`isDetected, c.snap.Keys`value
      ensures Passed(m0, c.cfg, c.shapes, finished, status, attempt, calls) && Holds(c, attempt, calls)
    {
      attempt, calls := m0.attempt, m0.calls;
      match decodeState {
        case Idle =>
          finished, status := OnIdle(m0, c);
        case StartCharFound =>
          finished, status := OnStartCharFound(m0, c);
        case EndCharFound =>
          finished, status := OnEndCharFound(m0, c);
        case IdFound =>
          finished, status, attempt := DecodeFrame(m0, c);
        case Decoded =>
          finished, status := OnDecoded(m0, c);
        case RunCallBackFunc =>
          finished, status := false, Ok;
          calls := InvokeCallback(m0, c);
        case Finished =>
          finished, status := OnFinished(m0, c);
      }
    }

    /**
     * The first part of `Run`: chunk is appended to the buffer, its leading characters that are
     * not letters or digits are dropped, and a buffer at the flush limit is cleared. done says
     * whether the call ends here.
     */
    method Prepare(chunk: string) returns (done: bool, status: Status)
      modifies this`rxBuffer, this`decodeState, this`startPos, this`endPos
      ensures var s := StripLeading(old(rxBuffer) + chunk);
        && (s == [] ==> done && status == Ok && View() == old(View()).(buffer := []))
        && (s != [] && |s| >= buffFlushLimit ==>
              done && status == RxBufferOverflow && View() == Cleared(old(View())))
        && (s != [] && |s| < buffFlushLimit ==> !done && View() == old(View()).(buffer := s))
    {
      ghost var s := StripLeading(rxBuffer + chunk);
      rxBuffer := rxBuffer + chunk;
      if rxBuffer == [] {
        assert s == [];
        return true, Ok;
      }
      while !IsLetterOrDigit(rxBuffer[0])
        invariant rxBuffer != [] && StripLeading(rxBuffer) == s
        modifies this`rxBuffer
        decreases |rxBuffer|
      {
        ghost var before := rxBuffer;
        rxBuffer := rxBuffer[1..];
        assert StripLeading(before) == StripLeading(rxBuffer);
        if rxBuffer == [] {
          assert s == [];
          return true, Ok;
        }
      }
      StripKeeps(rxBuffer);
      assert rxBuffer == s;
      if |rxBuffer| >= buffFlushLimit {
        ResetBuffer();
        decodeState := Idle;
        return true, RxBufferOverflow;
      }
      return false, Ok;
    }

    /**
     * Appends chunk (the text read from the port) to the buffer, drops its leading characters
     * that are not letters or digits, and runs the state machine on it until it stops: at most
     * one frame is found, checked, decoded and its callback invoked.
     */
    method Run(chunk: string) returns (status: Status)
      requires Valid()
      modifies this`rxBuffer, this`decodeState, this`startPos, this`endPos, this`packetCount,
               this`lastCommandIndex, this`parameters, this`callLog, Options()`isDetected, Options()`value
      ensures var o := Framing.Run(old(View()), Config(), old(Shapes()), chunk);
        && View() == o.view && status == o.status && callLog == old(callLog) + o.calls
      ensures Covers(old(StatesOf(Options())), old(OptionListsOf(registeredCmds)))
      ensures AttemptDone(this, Framing.Run(old(View()), Config(), old(Shapes()), chunk).attempt,
                          old(OptionListsOf(registeredCmds)), old(StatesOf(Options())),
                          old(lastCommandIndex), old(parameters))
      ensures Valid()
    {
      ghost var v := View();
      ghost var c := Context(Config(), Shapes(), OptionListsOf(registeredCmds), StatesOf(Options()),
                             lastCommandIndex, parameters, callLog);
      CoversAll(registeredCmds);
      assert Holds(c, NotAttempted, []);
      RunResumable(v, c.cfg, c.shapes, chunk);
      ghost var attempt, calls;
      status, attempt, calls := Receive(chunk, c, Framing.Run(v, c.cfg, c.shapes, chunk));
    }

    /** `Run` for the context c, with target the outcome of the call. */
    method Receive(chunk: string, ghost c: Context, ghost target: Outcome)
      returns (status: Status, ghost attempt: Attempt, ghost calls: seq<Invocation>)
      requires Valid() && target == Framing.Run(View(), c.cfg, c.shapes, chunk)
      requires Holds(c, NotAttempted, [])
      modifies this`rxBuffer, this`decodeState, this`startPos, this`endPos, this`packetCount,
               this`lastCommandIndex, this`parameters, this`callLog, c.snap.Keys`isDetected, c.snap.Keys`value
      ensures Outcome(View(), status, attempt, calls) == target && Holds(c, attempt, calls)
    {
      ghost var v := View();
      var done;
      done, status := Prepare(chunk);
      HoldsFramed((c, NotAttempted, []));
      if done {
        if StripLeading(v.buffer + chunk) == [] {
          RunEmpty(v, c.cfg, c.shapes, chunk);
        } else {
          RunOverflow(v, c.cfg, c.shapes, chunk);
        }
        attempt, calls := NotAttempted, [];
      } else {
        RunContinues(v, c.cfg, c.shapes, chunk);
        status, attempt, calls := Drive(c, target);
      }
    }

    /** The loop of `Run`: passes of the state machine until one ends the call, with target the outcome. */
    method Drive(ghost c: Context, ghost target: Outcome) returns (status: Status, ghost attempt: Attempt, ghost calls: seq<Invocation>)
      requires Wf(MachineOf(NotAttempted, []), c.shapes)
      requires Continue(MachineOf(NotAttempted, []), c.cfg, c.shapes) == target
      requires Holds(c, NotAttempted, [])
      modifies this`rxBuffer, this`decodeState, this`startPos, this`endPos, this`packetCount,
               this`lastCommandIndex, this`parameters, this`callLog, c.snap.Keys`isDetected, c.snap.Keys`value
      ensures Outcome(View(), status, attempt, calls) == target && Holds(c, attempt, calls)
    {
      attempt, calls := NotAttempted, [];
      status := Ok;
      var finished := false;
      while !finished
        invariant Looping(MachineOf(attempt, calls), finished, status, c.cfg, c.shapes, target)
        invariant Holds(c, attempt, calls)
        decreases if finished then 0 else 1, Rank(decodeState)
      {
        ghost var m0 := MachineOf(attempt, calls);
        finished, status, attempt, calls := Pass(m0, c);
        LoopStep(m0, MachineOf(attempt, calls), finished, status, c.cfg, c.shapes, target);
      }
    }
  }
}
