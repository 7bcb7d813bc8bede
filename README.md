# Clide command-line messaging, modelled in Dafny

Clide sends commands over a serial link as text lines and decodes the ones it receives.

- **Transmitting engine (`Tx`).** It writes a command as its name, then a space and the value of each parameter, then `" -"` and the name of each option to be sent, with a space and the option's value when the option takes one. It frames the line with CR LF and counts the packets it sends.
- **Receiving engine (`Rx`).** It appends what the port delivers to a buffer. It drops the buffer's leading characters that are not letters or digits and clears a buffer that reached the flush limit. It then runs a state machine (Idle, StartCharFound, EndCharFound, IdFound, Decoded, RunCallBackFunc, Finished) over the buffer:
  - it finds a frame from the start character (or index 0) to the end character;
  - it rejects truncated frames and frames whose header does not match;
  - it looks up the command named by the frame's first word among the registered commands;
  - it splits the rest of the frame into arguments, honouring quotes, and parses them into the command's options and positional values;
  - it checks the number of positional values against the command's parameters;
  - it invokes the command's callback and counts the packet.

The project has these parts:

- **Entities.** `Command`, `Option` and `Parameter` are classes whose fields the engines read and update in place. They are in `command.dfy`, `option.dfy` and `parameter.dfy`.
- **Engines.** `Rx` and `Tx` are classes as well:
  - `Rx.Run` is an imperative state machine. It is proved against the decoder function `Framing.Run` in `framing.dfy`.
  - `Tx.BuildString` is built from two loops. It is proved against the encoder function `Encoding.Encode` in `encoding.dfy`.
- **Helper functions:**
  - the quote-aware argument splitter is stated as functions in `tokenizer.dfy`;
  - option parsing is in `parser.dfy`.
- **Properties.** What one call of `Run` does, and the transmitter-to-receiver round trip, are proved in `properties.dfy`, `roundtrip.dfy` and `options_roundtrip.dfy`.

The C# `Port` is replaced by parameters:

- the text `Run` reads from the port is the argument `chunk`;
- the strings `SendCommand` writes are appended to `Tx.written`;
- a callback delegate is a `Handler` identity, and invoking it appends an `Invocation` to `Rx.callLog`.

## Model

| member | source | states |
|---|---|---|
| ClideParameter.Parameter.constructor | src/Clide.Parameter.cs:16-19 | the parameterless constructor leaves name, value, description and callback null |
| ClideParameter.Parameter.WithDescription | src/Clide.Parameter.cs:25-29 | only the description is set; everything else stays null |
| ClideParameter.Parameter.SetValue | src/Clide.Parameter.cs:55-56 | the value property returns what was last assigned to it |
| ClideParameter.ValuesOf | src/Clide.Parameter.cs:55-56 | the parameters' values, one per parameter, in order |
| ClideOption.Option.constructor | src/Clide.Option.cs:20-24 | name and hasValue are set; value and description default to "", callback to null, toSend to true, isDetected to false (defaults at lines 60-127) |
| ClideOption.Option.WithCallBack | src/Clide.Option.cs:31-36 | also stores the callback; the other defaults hold |
| ClideOption.Option.WithDescription | src/Clide.Option.cs:45-51 | also stores the callback and the description |
| ClideOption.OptionShapesOf | src/Clide.Option.cs:64-76 | what the parser reads of each option: its name and whether it takes a value, in order |
| ClideCommand.Command.constructor | src/Clide.Command.cs:21-24 | the name is set; no callback, no description, empty parameter and option lists (lines 98-112) |
| ClideCommand.Command.WithCallBack | src/Clide.Command.cs:31-35 | also stores the callback |
| ClideCommand.Command.WithDescription | src/Clide.Command.cs:43-48 | also stores the callback and the description |
| ClideCommand.Command.RegisterParam | src/Clide.Command.cs:136-142 | the parameter list grows by exactly this parameter at the end |
| ClideCommand.Command.RegisterOption | src/Clide.Command.cs:148-158 | the option list grows by exactly this option at the end |
| ClideCommand.Command.Parse | src/Clide.Command.cs:157 | the parse of a token list: the positional values are returned; every option whose flag was seen is marked detected with the value taken for it; every other option keeps its flag and value |
| ClideCommand.ParseStep | src/Clide.Command.cs:157 | one parse step: a non-flag token is appended to the positionals; a flag marks its option and, when the option takes a value and a token follows, stores that token |
| ClideCommand.MarkDetected | src/Clide.Command.cs:157 | the action installed for an option: sets isDetected and stores the value taken, touching no other option |
| ClideCommand.DistinctDetected | src/Clide.Command.cs:148-158 | two detected options are different objects, so marking one never changes the other |
| ClideCommand.CommandShapesOfAt | src/Clide.Rx.cs:592-599 | the decoder's view of command i is the shape of the i-th registered command |
| OptionParser.LookupFrom | src/Clide.Command.cs:157 | the first option at or after j whose flag is the token, or -1 when none has it |
| OptionParser.Step | src/Clide.Command.cs:157 | a parser step always consumes at least one token and never reads past the end |
| OptionParser.ParseConsistent | src/Clide.Command.cs:148-158 | only the first option of a name is ever detected, values go only to detected options that take one, and no positional is a registered flag |
| OptionParser.ParseFromSuffix | src/Clide.Rx.cs:629 | parsing from token i depends only on the tokens from i on |
| OptionParser.ParseFromPositionals | src/Clide.Rx.cs:629 | tokens that are not flags pass through in order as positional values |
| OptionParser.ParseWithoutFlags | src/Clide.Rx.cs:629 | with no flag among the tokens, every token is positional and no option is detected |
| ClideRx.Rx.SplitArguments | src/Clide.Rx.cs:669-689 | the in-place character scan followed by the split returns exactly `Tokenizer.Tokens` of the argument string |
| Tokenizer.QuotesNeverBoth | src/Clide.Rx.cs:674-688 | the single-quote and double-quote flags are never set together |
| Tokenizer.QuotesAfterStep | src/Clide.Rx.cs:674-688 | the quote state after one more character is that character's scan step |
| Tokenizer.MaskedKeepsOrSeparates | src/Clide.Rx.cs:674-688 | the scan either keeps a character or overwrites it with the separator |
| Tokenizer.SpaceSurvivesOnlyInQuotes | src/Clide.Rx.cs:674-688 | a space survives the scan if and only if it lies inside a quoted span |
| Tokenizer.TogglingQuoteRemoved | src/Clide.Rx.cs:674-688 | a double quote outside single quotes, or a single quote outside double quotes, toggles its flag and is removed |
| Tokenizer.NestedQuoteIsLiteral | src/Clide.Rx.cs:674-688 | a quote inside a span of the other kind is kept as a literal and toggles nothing |
| Tokenizer.RunLength | src/Clide.Rx.cs:689 | the length of the leading run without a separator, stopping at the first separator |
| Tokenizer.Split | src/Clide.Rx.cs:689 | the split with empty entries removed yields only non-empty tokens without a separator |
| Tokenizer.SplitKeepsCharacters | src/Clide.Rx.cs:689 | the split loses only separators: the tokens concatenated are the other characters in order |
| Tokenizer.SplitJoin | src/Clide.Rx.cs:689 | the split undoes joining with separators, for non-empty tokens without a separator |
| Tokenizer.QuoteFreeStaysOutside | src/Clide.Rx.cs:674-688 | without quote characters the scan never enters a quoted span |
| Tokenizer.QuoteFreeMasked | src/Clide.Rx.cs:674-688 | without quote characters the scan only turns spaces into separators |
| Tokenizer.SpacedJoinSpaces | src/Clide.Rx.cs:674-688 | plain words joined by spaces are scanned into the words joined by separators |
| Tokenizer.JoinSpacesChars | src/Clide.Rx.cs:674-688 | plain words joined by spaces contain no quote |
| Tokenizer.TokensOfPlainWords | src/Clide.Rx.cs:669-689 | plain words joined by single spaces split back into exactly those words |
| ClideRx.Rx.constructor | src/Clide.Rx.cs:242-266 | a decoder with no commands, no start character, no header, an empty buffer, state Idle, both positions and the packet count at 0, and the flush limit 10000 (field defaults at lines 62-232) |
| ClideRx.Rx.RegisterCommand | src/Clide.Rx.cs:534-538 | the registered commands grow by exactly this command at the end |
| ClideRx.Rx.ResetBuffer | src/Clide.Rx.cs:549-554 | the buffer is emptied and both positions are set to 0; nothing else changes |
| ClideRx.Rx.FindCommandIndex | src/Clide.Rx.cs:588-599 | the index of the first registered command with the name, or -1 when none has it |
| ClideRx.Rx.LocateCommand | src/Clide.Rx.cs:567-620 | drops the frame's last character and takes the text before the first space as the command name (all of it when there is no space or it starts with one) and the text after that space as the argument text |
| ClideRx.ClearDetected | src/Clide.Rx.cs:605-609 | every option of the command has isDetected cleared |
| ClideRx.ParseArguments | src/Clide.Rx.cs:605-629 | the options are cleared, the argument text is split and parsed; the positionals are the parse's; detected options carry the parsed values; options of other commands are untouched |
| ClideRx.Rx.ApplyCommand | src/Clide.Rx.cs:605-629 | for a found command: the last command index is k, the parameters are the parsed positionals, and the command's options reflect the parse |
| ClideRx.Rx.DecodeCmdString | src/Clide.Rx.cs:564-633 | returns true if and only if a registered command has the frame's name; records the decode (`Framing.DecodeCmd`) in the last command index, the parameters and the options, and the last command index is -1 for an unknown name |
| ClideRx.Rx.DecodeAttempt | src/Clide.Rx.cs:430 | the frame from the start to the end position is decoded as `Framing.DecodeCmd` says, and the command state records the attempt |
| ClideRx.Rx.CheckParameters | src/Clide.Rx.cs:642-650 | true if and only if the last command has as many parameters as positional values were decoded |
| ClideRx.Rx.RunCallBackFunction | src/Clide.Rx.cs:655-660 | the last command's callback, when it has one, is invoked once with the parameters; nothing is invoked otherwise |
| ClideRx.Rx.Prepare | src/Clide.Rx.cs:282-308 | the chunk is appended and the leading non-alphanumeric characters are stripped; an emptied buffer returns Ok; a buffer at or above the flush limit is cleared and returned as an overflow |
| ClideRx.Rx.SearchStart | src/Clide.Rx.cs:320-353 | state Idle as `Framing.StepIdle`: the first start character becomes the start position, or the buffer is cleared with Ok; without a start character the start position is 0 |
| ClideRx.Rx.SearchEnd | src/Clide.Rx.cs:355-374 | state StartCharFound as `Framing.StepStart`: the first end character after the start position moves the state on; otherwise the call ends in Ok waiting for more text |
| ClideRx.Rx.CheckFrame | src/Clide.Rx.cs:376-426 | state EndCharFound as `Framing.StepEnd`: a start character before the end drops the buffer up to it as truncated; a header mismatch clears the buffer |
| ClideRx.Rx.DecodeFrame | src/Clide.Rx.cs:428-446 | state IdFound as `Framing.StepDecode`: the frame from start to end position is decoded; an unknown command drops it with everything before it |
| ClideRx.Rx.Settle | src/Clide.Rx.cs:430-446 | a decoded frame moves on to the count check; an unrecognised one drops the frame and everything before it with PacketDecodingFailed |
| ClideRx.Rx.CheckCount | src/Clide.Rx.cs:449-469 | state Decoded as `Framing.StepCount`: a wrong number of positional values drops the frame and everything before it |
| ClideRx.Rx.InvokeCallback | src/Clide.Rx.cs:471-474 | state RunCallBackFunc as `Framing.StepCallBack`: the callback is invoked and the state becomes Finished |
| ClideRx.Rx.LogCallback | src/Clide.Rx.cs:472 | the callbacks invoked so far grow by the decoded command's callback with its positional values, if it has one |
| ClideRx.Rx.FinishFrame | src/Clide.Rx.cs:476-489 | state Finished as `Framing.StepFinish`: one more packet, the frame and everything before it leave the buffer, and the status is PacketDecodingPassed |
| ClideRx.Rx.Pass | src/Clide.Rx.cs:317-489 | one pass of the switch is the step of the current state |
| ClideRx.Rx.Run | src/Clide.Rx.cs:277-493 | the decoder's new state, the status and the callbacks invoked are exactly `Framing.Run` of the old state, configuration, commands and chunk; the command state records that call's frame attempt; the decoder stays resumable |
| ClideRx.Rx.Drive | src/Clide.Rx.cs:315-491 | the loop runs passes until one ends the call, and its result is the outcome `Framing.Continue` gives |
| ClideRx.Rx.Receive | src/Clide.Rx.cs:277-493 | the preparation and then the loop: the decoder's new state, the status and the callbacks are the outcome `Framing.Run` gives |
| Framing.StripLeadingSuffix | src/Clide.Rx.cs:286-298 | stripping removes exactly the longest prefix of characters that are not letters or digits |
| Framing.IndexOf | src/Clide.Rx.cs:325 | the first index at or after from holding the character, or -1 when none does |
| Framing.FindCommandFrom | src/Clide.Rx.cs:588-599 | the first command at or after j with the name, or -1 |
| Framing.DecodeCmdAt | src/Clide.Rx.cs:564-633 | a frame naming no command is unrecognised; otherwise it is matched to that command, with its argument tokens parsed against the command's options |
| Framing.StepM | src/Clide.Rx.cs:317-489 | a pass that does not end the call keeps the machine well formed and moves to a state of lower rank, so the loop terminates |
| Framing.RunContinues | src/Clide.Rx.cs:277-315 | after the strip and the overflow check, a call is its loop run from the entry state |
| Framing.RunResumable | src/Clide.Rx.cs:277-493 | every call leaves the decoder in Idle, or in StartCharFound with a start position inside a buffer that begins with a letter or digit |
| Framing.FromFrameIdle | src/Clide.Rx.cs:376-489 | once a frame is found, the call ends in Idle whatever becomes of the frame |
| Framing.FromStartResumable | src/Clide.Rx.cs:355-489 | once a start position is known, the call either waits in StartCharFound or ends in Idle |
| Framing.ContinueStep | src/Clide.Rx.cs:315-491 | one pass of the loop either leaves the outcome to the passes after it or is the outcome |
| Framing.LoopStep | src/Clide.Rx.cs:315-491 | a pass keeps the loop invariant of `Run` and, unless it ends the call, lowers the rank of the state |
| Framing.ContinueFromFinished | src/Clide.Rx.cs:476-489 | from Finished: one more packet, the frame leaves the buffer, PacketDecodingPassed |
| Framing.ContinueFromCallBack | src/Clide.Rx.cs:471-489 | from RunCallBackFunc: the callback is invoked, then the frame counts |
| Framing.ContinueFromDecoded | src/Clide.Rx.cs:449-489 | from Decoded: the count check, then the callback, then the count |
| Framing.ContinueFromIdFound | src/Clide.Rx.cs:428-489 | from IdFound: the frame is decoded, then counted or dropped |
| Framing.ContinueFromEndCharFound | src/Clide.Rx.cs:376-489 | from EndCharFound: the truncation and header checks, then the decode |
| Framing.ContinueFromStartCharFound | src/Clide.Rx.cs:355-489 | from StartCharFound: the end character search, then the frame checks |
| Framing.RunEmpty | src/Clide.Rx.cs:285-298 | when only non-alphanumeric characters have arrived, the buffer is emptied and the status is Ok, with nothing else changed |
| Framing.RunOverflow | src/Clide.Rx.cs:301-308 | a stripped buffer at or above the flush limit is cleared, the state becomes Idle and the status is RxBufferOverflow |
| RxProperties.RunAccounted | src/Clide.Rx.cs:277-493 | the packet count rises by one if and only if the status is PacketDecodingPassed, and only then is a callback invoked; the status is PacketDecodingFailed if and only if the frame named no command; it is IncorrectNumParam if and only if the command was found with a different number of values |
| RxProperties.RunBuffer | src/Clide.Rx.cs:320-489 | each status comes with its buffer change: a decoded frame (its end character the first after its start, no second start character inside it, and the header matching when one is configured) leaves together with everything before it; a truncated one leaves up to the second start character; a header mismatch or an overflow clears the buffer; Ok empties it or keeps it |
| RxProperties.StripLeadingAppend | src/Clide.Rx.cs:286-298 | once the strip reaches a letter or digit, text appended later is kept whole |
| RxProperties.IndexOfExtends | src/Clide.Rx.cs:325 | a character already found keeps its position when text is appended |
| RxProperties.RunAtStart | src/Clide.Rx.cs:277-374 | below the flush limit and with a start position found, the call continues with the frame search from that position |
| RxProperties.RunWaited | src/Clide.Rx.cs:355-374 | a call that ends in StartCharFound has kept the stripped buffer and the start position, reports Ok and invokes nothing |
| RxProperties.ChunkedRun | src/Clide.Rx.cs:277-374 | text that arrives in two pieces, the first of which leaves the decoder waiting for an end character, is decoded as if it had arrived at once, as long as the whole text stays below the flush limit |
| RxProperties.StrippedStartsWord | src/Clide.Rx.cs:286-298 | after stripping, the buffer is empty or starts with a letter or digit, and only non-alphanumeric characters were removed |
| RxProperties.RunNoStartChar | src/Clide.Rx.cs:322-344 | with a start character configured and none in the buffer, the buffer is cleared and the status is Ok |
| RxProperties.RunWaiting | src/Clide.Rx.cs:355-374 | with no end character after the start position, the stripped buffer is kept and the decoder waits in StartCharFound with Ok |
| RxProperties.LeadingStartCharStripped | src/Clide.Rx.cs:286-298 | a non-alphanumeric start character at the head of the buffer is itself stripped; if it occurs nowhere else, the call clears the buffer with Ok and decodes nothing |
| RxProperties.AngleBracketFrameDropped | src/Clide.Rx.cs:286-353 | the frame "<move 10 20 -f>" with '<' and '>' as delimiters is dropped with Ok and no callback |
| RxProperties.DecodeLooksUpFirst | src/Clide.Rx.cs:564-633 | a frame is unrecognised if and only if no command has its name; otherwise it is matched to the first command with the name and parsed against that command's options |
| ClideTx.Tx.constructor | src/Clide.Tx.cs:22-25 | nothing sent yet and a packet count of 0 (line 45) |
| ClideTx.Tx.SendCommand | src/Clide.Tx.cs:77-90 | writes the command line followed by CR LF, and only that, and counts one more packet |
| ClideTx.Tx.BuildString | src/Clide.Tx.cs:97-128 | the command line is exactly `Encoding.Encode` of the name, the parameter values and the options |
| ClideTx.AddParams | src/Clide.Tx.cs:105-108 | appends a space and the value of each parameter, in order |
| ClideTx.AddOptions | src/Clide.Tx.cs:111-124 | appends " -" and the name of each option to be sent, with a space and its value when it takes one, in order |
| ClideTx.OptionsOut | src/Clide.Tx.cs:111-124 | what the encoder reads of each option, in order |
| Encoding.ParamsTextAppend | src/Clide.Tx.cs:105-108 | the parameters' text of two lists is their texts one after the other |
| Encoding.OptionsTextAppend | src/Clide.Tx.cs:111-124 | the same for options |
| Encoding.ParamsTextLength | src/Clide.Tx.cs:105-108 | each parameter adds at least its space; null values add only the space |
| Encoding.OptionsTextSent | src/Clide.Tx.cs:114 | options not to be sent add nothing: the text is that of the sent options |
| Encoding.OptionsTextNoneSent | src/Clide.Tx.cs:114 | with no option to send the options' text is empty |
| Encoding.EncodeBare | src/Clide.Tx.cs:97-128 | without parameters and options to send, the line is the command name alone |
| Encoding.EncodeLayout | src/Clide.Tx.cs:97-128 | the name comes first, then every parameter in order, then every option in order |
| Encoding.Sent | src/Clide.Tx.cs:114 | the options kept for sending are only options to be sent |
| RoundTrip.ParamsTextOfWords | src/Clide.Tx.cs:105-108 | the text of set values is a space, then the values joined by single spaces |
| RoundTrip.EncodeIsLine | src/Clide.Tx.cs:97-128 | with no option to send, the line is the name and the values separated by single spaces |
| RoundTrip.LineParts | src/Clide.Rx.cs:567-620 | the decoder reads back the line's command name and its argument text |
| RoundTrip.DecodeLineTokens | src/Clide.Rx.cs:564-633 | a line for the first command with its name, followed by plain words, decodes to that command with exactly those words parsed against its options |
| RoundTrip.DecodeLine | src/Clide.Rx.cs:564-633 | such a line decodes to the first command with that name, with the values as positionals and no option detected |
| RoundTrip.FrameOfSentLine | src/Clide.Rx.cs:286-426 | on a decoder without start character or header and with '\r' as end character, the frame of a sent line ends at its carriage return |
| RoundTrip.ReceiveLine | src/Clide.Rx.cs:277-446 | the frame of a sent line decodes to its command with its values, and what remains of the call is the parameter count check |
| RoundTrip.ReceiveLineTokens | src/Clide.Rx.cs:277-446 | the frame of a sent line of wire words decodes to its command with those words parsed, and what remains is the parameter count check |
| RoundTrip.SendReceive | src/Clide.Tx.cs:77-128 | a command line as `Tx` sends it is decoded by `Rx` in one call to the same command with the same values; it passes with one more packet and the callback when the counts agree, and is dropped as IncorrectNumParam otherwise; only the line feed stays buffered |
| RoundTrip.LineFeedEndKeepsReturn | src/Clide.Rx.cs:567-584 | with '\n' as end character, a bare command is looked up under its name followed by '\r', so it is unrecognised |
| OptionParser.FlagValueStep | src/Clide.Command.cs:157 | the flag of an option taking a value, followed by a token, detects the option with that token as its value |
| OptionParser.FlagStep | src/Clide.Command.cs:157 | the flag of an option without a value detects it |
| OptionRoundTrip.SpaceLedAppend | src/Clide.Tx.cs:105-124 | the spaced text of two token lists is their texts one after the other |
| OptionRoundTrip.SpaceLedJoin | src/Clide.Tx.cs:105-108 | tokens each after a space are a space, then the tokens joined by single spaces |
| OptionRoundTrip.OptionTextTokens | src/Clide.Tx.cs:114-122 | a sent option is written as its flag, then its value when it takes one, each after a space; an option not sent is not written |
| OptionRoundTrip.OptionsTextTokens | src/Clide.Tx.cs:111-124 | the options' text is the tokens of the sent options, in order, each after a space |
| OptionRoundTrip.ParamsTextSpaceLed | src/Clide.Tx.cs:105-108 | the parameters' text of set values is the values, each after a space |
| OptionRoundTrip.LineSpaceLed | src/Clide.Tx.cs:97-128 | a line is the name followed by its words, each after a space |
| OptionRoundTrip.EncodeIsLineWithOptions | src/Clide.Tx.cs:97-128 | the line is the name, the values, then each sent option's flag and value, separated by single spaces |
| OptionRoundTrip.FlagsDiffer | src/Clide.Command.cs:157 | options with different names have different flags |
| OptionRoundTrip.LookupFirst | src/Clide.Command.cs:157 | the flag of the first option of a name stands for that option |
| OptionRoundTrip.SentBelowStep | src/Clide.Tx.cs:114 | an option joins the sent ones exactly when it is to be sent |
| OptionRoundTrip.SentValuesBelowStep | src/Clide.Tx.cs:114-122 | an option's value joins the sent values exactly when it is sent and takes one |
| OptionRoundTrip.ParseOneOption | src/Clide.Rx.cs:629 | parsing one sent option's tokens detects it and takes its value; an option not sent adds nothing |
| OptionRoundTrip.ParseOptionTokens | src/Clide.Rx.cs:629 | parsing the options' tokens detects exactly the sent options and takes each sent value |
| OptionRoundTrip.ParseSentLine | src/Clide.Rx.cs:624-629 | values followed by option tokens parse to the values as positionals, exactly the sent options detected and their values taken |
| OptionRoundTrip.SendReceiveOptions | src/Clide.Tx.cs:77-128 | a command line with options as `Tx` sends it is decoded by `Rx` in one call to the same command with the same values, exactly the sent options detected and each sent value taken; it passes or is dropped as IncorrectNumParam by the value count; only the line feed stays buffered |
| OptionRoundTrip.SplitDoubleSeparator | src/Clide.Rx.cs:689 | separators in a row produce no empty token |
| OptionRoundTrip.TokensOfDoubleSpace | src/Clide.Rx.cs:669-689 | "-v  -w" splits into "-v" and "-w" |
| OptionRoundTrip.EncodeEmptyValue | src/Clide.Tx.cs:116-121 | an option sent with an empty value still writes the space before the value |
| OptionRoundTrip.EmptyValueTakesNextFlag | src/Clide.Tx.cs:116-121 | an option sent with an empty value receives the next option's flag as its value, and that next option is not detected |

## Left out

- The serial `Port`, `Controller` and all I/O are replaced by parameters. `Run` takes the text read as an argument, and `SendCommand` appends what it writes to `Tx.written`. Threads are not modelled.
- `DebugPrint` and the status message strings are left out and only the status identifiers are kept. The same goes for `errorArray`, the `DataTable` and `SetupDataTable`, which concern the application, not decoding.
- The third-party option parser (NDesk.Options) is replaced by a self-contained parser with the behaviour decoding relies on:
  - a token `"-" + name` is the flag of the first option registered under that name (NDesk rejects a second registration of a name, see `ClideCommand.Command.RegisterOption` below);
  - the flag marks the option detected;
  - for an option that takes a value, the next token, if any, becomes the value;
  - every other token is positional.

  NDesk decides from the option's name (a trailing `=` or `:`) whether a value follows its flag. The model uses `HasValue`, the property the transmitter also reads.

  NDesk's other syntaxes are not modelled: `--name`, `/name`, `name=value` and bundled flags. An option without a value keeps its previous value, where NDesk would hand the action a value of its own.
- `IsLetterOrDigit` covers the ASCII letters and digits only. It does not cover `Char.IsLetterOrDigit`'s Unicode categories.
- ClideRx.Rx.Run: the packet count is an unbounded integer. The C# `int` would wrap after 2^31 - 1 packets.
- ClideTx.Tx.SendCommand: the same holds for its packet count.
- Rx.constructor differs from the C# fields in three ways:
  - `_dataIdString` is never assigned in the C# class, so it is always null, and a header check with headers enabled would throw. The model takes the header as a constructor argument and does not model the null case.
  - `_rxBuffer` starts null and is read as "" by the first concatenation. The model starts it at "".
  - `Parameters` starts null. The model starts it at the empty list.
- An option's `Name` and `HasValue` have public setters in C# but are fixed after construction here, because neither engine writes them.
- Callbacks are recorded as `Invocation`s in `callLog`, not run. What a callback does is the application's business, so a callback that re-enters `Rx` is not modelled.
- The public setters of `PacketCount`, `BuffFlushLimit`, `LastCommandIndex` and of the configuration properties are plain field writes and are not separate members.
- `HeaderDataSeperatorChar` and the two divisor characters are stored but never read by the decoder. Only the first is kept.
- `Rx.Run`'s `switch` is split into one method per state (`SearchStart`, `SearchEnd`, `CheckFrame`, `DecodeFrame`, `CheckCount`, `InvokeCallback`, `FinishFrame`) so each proof stays small. `BuildString`'s two loops are likewise split out as `AddParams` and `AddOptions`. The behaviour is unchanged.
- The leading strip of `Run` removes a start character that is not a letter or digit, such as the '<' of a `<...>` framing, before the start character search. Such a frame is therefore never decoded (`RxProperties.AngleBracketFrameDropped`, `RxProperties.LeadingStartCharStripped`). Also, the frame handed to `DecodeCmdString` begins with the start character whenever one is found at a later position. The model follows the code on both points.
- The strip at the head of `Run` runs in every state, and the model does the same. A call that stops in StartCharFound keeps a buffer that begins with a letter or digit, so the next strip removes nothing and the kept start position stays valid (`Framing.RunResumable`).
- OptionRoundTrip.SendReceiveOptions: requires every sent option's flag and value to be wire words, and so a non-empty value. An empty value is written as a space followed by nothing. The splitter drops the empty token, and the parser then takes the next token as the value (`OptionRoundTrip.EmptyValueTakesNextFlag`). It also requires every sent option to be the first registered under its name, because a later option of the same name never receives its flag.
- `String.Compare(_rxBuffer, _startPos + 1, _dataIdString, 0, _dataIdString.Length)` (src/Clide.Rx.cs:399) and `dataString.IndexOf(" ")` (src/Clide.Rx.cs:571) use the current culture in .NET. The model compares characters ordinally (`Framing.HeaderMatches`, `Framing.CommandName`). The two differ only for text where culture-aware comparison ignores or equates characters.
- ClideCommand.Command.RegisterOption: never fails in the model. NDesk's `OptionSet.Add` throws `ArgumentException` for a name already registered and for the empty name, which is the default. The C# method appends the option to `_optionList` before that call (src/Clide.Command.cs:151-157), so the list grows even when the call throws. The model follows the successful path, and the parser gives a repeated name's flag to the first option with that name.
- The transmitter ends every line with CR LF. Only a decoder whose end character is '\r' reads the command back (`RoundTrip.SendReceive`). With '\n' as end character the carriage return stays in the frame (`RoundTrip.LineFeedEndKeepsReturn`).
