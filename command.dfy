/** A named command with its registered parameters and options (`Command`). */
module ClideCommand {
  import opened ClideTypes
  import opened OptionParser
  import opened ClideOption
  import opened ClideParameter
  import Framing

  class Command {
    /** The first word of a frame that selects this command. */
    var name: string
    /** Invoked with the positional values when a frame for this command decodes. */
    var callBackFunc: Nullable<Handler>
    var description: Nullable<string>
    /** The required parameters, in registration order. */
    var paramList: seq<Parameter>
    /** The options, in registration order. */
    var optionList: seq<Option>

    /** Sets the name; no callback, no description, no parameters, no options. */
    constructor (name: string)
      ensures this.name == name && callBackFunc == Null && description == Null
      ensures paramList == [] && optionList == []
    {
      this.name := name;
      callBackFunc := Null;
      description := Null;
      paramList := [];
      optionList := [];
    }

    /** Also stores the callback. */
    constructor WithCallBack(name: string, callBackFunc: Nullable<Handler>)
      ensures this.name == name && this.callBackFunc == callBackFunc && description == Null
      ensures paramList == [] && optionList == []
    {
      this.name := name;
      this.callBackFunc := callBackFunc;
      description := Null;
      paramList := [];
      optionList := [];
    }

    /** Also stores the callback and the description. */
    constructor WithDescription(name: string, callBackFunc: Nullable<Handler>, description: string)
      ensures this.name == name && this.callBackFunc == callBackFunc
      ensures this.description == NonNull(description)
      ensures paramList == [] && optionList == []
    {
      this.name := name;
      this.callBackFunc := callBackFunc;
      this.description := NonNull(description);
      paramList := [];
      optionList := [];
    }

    /** Appends a parameter; the options are untouched. */
    method RegisterParam(param: Parameter)
      modifies this`paramList
      ensures paramList == old(paramList) + [param]
    {
      paramList := paramList + [param];
    }

    /**
     * Appends an option; the parameters are untouched. From now on the option's flag
     * marks it detected, unless an option of the same name was registered earlier.
     */
    method RegisterOption(option: Option)
      modifies this`optionList
      ensures optionList == old(optionList) + [option]
    {
      optionList := optionList + [option];
    }

    /** The options as the parser sees them. */
    function OptionShapes(): seq<OptShape>
      reads this`optionList
    {
      OptionShapesOf(optionList)
    }

    /** The command as the decoder sees it. */
    function Shape(): Framing.CmdShape
      reads this`name, this`paramList, this`optionList, this`callBackFunc
    {
      Framing.CmdShape(name, |paramList|, OptionShapes(), callBackFunc)
    }

    /**
     * Parses the arguments of a frame for this command: the positional values are returned
     * and the options whose flags appear are marked, with their values.
     */
    method Parse(arguments: seq<string>) returns (positionals: seq<string>)
      modifies optionList`isDetected, optionList`value
      ensures positionals == OptionParser.Parse(OptionShapesOf(optionList), arguments).positionals
      ensures MarkedFrom(optionList, OptionParser.Parse(OptionShapesOf(optionList), arguments),
                         old(DetectedFlags(optionList)), old(OptionValuesOf(optionList)))
    {
      var shapes := OptionShapes();
      var ol := optionList;
      ghost var detected0 := DetectedFlags(ol);
      ghost var values0 := OptionValuesOf(ol);
      ghost var acc := NothingParsed;
      positionals := [];
      var i := 0;
      while i < |arguments|
        invariant i <= |arguments|
        invariant ParseFrom(shapes, arguments, i, acc) == OptionParser.Parse(shapes, arguments)
        invariant Consistent(shapes, acc)
        invariant positionals == acc.positionals
        invariant MarkedFrom(ol, acc, detected0, values0)
        decreases |arguments| - i
      {
        ghost var next := Step(shapes, arguments, i, acc);
        StepConsistent(shapes, arguments, i, acc);
        i, positionals := ParseStep(ol, shapes, arguments, i, positionals, acc, detected0, values0);
        acc := next.1;
      }
    }
  }

  /**
   * One step of `Parse` at argument i: a positional value is appended to positionals; the flag
   * of an option marks it, taking the next argument as its value when it has one.
   */
  method ParseStep(ol: seq<Option>, shapes: seq<OptShape>, arguments: seq<string>, i: nat,
                   positionals: seq<string>, ghost acc: Parsed, ghost detected0: seq<bool>, ghost values0: seq<string>)
    returns (j: nat, positionals': seq<string>)
    requires i < |arguments| && shapes == OptionShapesOf(ol)
    requires Consistent(shapes, acc) && positionals == acc.positionals && MarkedFrom(ol, acc, detected0, values0)
    modifies ol`isDetected, ol`value
    ensures var next := Step(shapes, arguments, i, acc);
      j == next.0 && positionals' == next.1.positionals && MarkedFrom(ol, next.1, detected0, values0)
  {
    var k := Lookup(shapes, arguments[i]);
    ghost var next := Step(shapes, arguments, i, acc);
    if k < 0 {
      positionals' := positionals + [arguments[i]];
      j := i + 1;
      MarkedFromPositionals(ol, acc, next.1, detected0, values0);
    } else {
      positionals' := positionals;
      if shapes[k].hasValue && i + 1 < |arguments| {
        MarkDetected(ol, shapes, k, NonNull(arguments[i + 1]), acc, next.1, detected0, values0);
        j := i + 2;
      } else {
        MarkDetected(ol, shapes, k, Null, acc, next.1, detected0, values0);
        j := i + 1;
      }
    }
  }

  /** MarkedFrom does not depend on the positionals. */
  lemma MarkedFromPositionals(ol: seq<Option>, p: Parsed, q: Parsed, detected0: seq<bool>, values0: seq<string>)
    requires MarkedFrom(ol, p, detected0, values0)
    requires q.detected == p.detected && q.values == p.values
    ensures MarkedFrom(ol, q, detected0, values0)
  {
    forall j | 0 <= j < |ol| && Untouched(ol, q, ol[j])
      ensures Untouched(ol, p, ol[j])
    {
    }
  }

  /**
   * The parser's action for the flag of option k: marks it detected and stores the value
   * taken for it, if any.
   */
  method MarkDetected(ol: seq<Option>, shapes: seq<OptShape>, k: nat, taken: Nullable<string>,
                      ghost acc: Parsed, ghost next: Parsed,
                      ghost detected0: seq<bool>, ghost values0: seq<string>)
    requires shapes == OptionShapesOf(ol) && k < |ol| && FirstOfName(shapes, k)
    requires Consistent(shapes, acc) && MarkedFrom(ol, acc, detected0, values0)
    requires next.detected == acc.detected + {k}
    requires next.values == if taken.NonNull? then acc.values[k := taken.value] else acc.values
    modifies ol`isDetected, ol`value
    ensures MarkedFrom(ol, next, detected0, values0)
  {
    DistinctDetected(ol, shapes, acc, k);
    var option := ol[k];
    option.isDetected := true;
    if taken.NonNull? {
      option.value := taken.value;
    }
    forall j | 0 <= j < |ol| && j in next.detected
      ensures ol[j].isDetected
      ensures ol[j].value == (if j in next.values then next.values[j] else values0[j])
    {
      if j != k {
        assert j in acc.detected;
      }
    }
    forall j | 0 <= j < |ol| && Untouched(ol, next, ol[j])
      ensures ol[j].isDetected == detected0[j] && ol[j].value == values0[j]
    {
      assert ol[j] != option;
      assert Untouched(ol, acc, ol[j]);
    }
  }

  /** No detected index of ol holds o. */
  ghost predicate Untouched(ol: seq<Option>, p: Parsed, o: Option)
  {
    forall i :: 0 <= i < |ol| && i in p.detected ==> ol[i] != o
  }

  /**
   * The options ol after a parse with result p, given their flags and values before it:
   * each detected option has isDetected set and, when a value was taken for it, that value;
   * every other option is as it was.
   */
  ghost predicate MarkedFrom(ol: seq<Option>, p: Parsed, detected0: seq<bool>, values0: seq<string>)
    reads ol`isDetected, ol`value
  {
    && |detected0| == |values0| == |ol|
    && (forall i :: 0 <= i < |ol| && i in p.detected ==>
          && ol[i].isDetected
          && ol[i].value == (if i in p.values then p.values[i] else values0[i]))
    && (forall j :: 0 <= j < |ol| && Untouched(ol, p, ol[j]) ==>
          ol[j].isDetected == detected0[j] && ol[j].value == values0[j])
  }

  /** The isDetected flags of the options, in order. */
  function DetectedFlags(ol: seq<Option>): (r: seq<bool>)
    reads ol`isDetected
    ensures |r| == |ol| && forall i :: 0 <= i < |ol| ==> r[i] == ol[i].isDetected
  {
    if ol == [] then [] else [ol[0].isDetected] + DetectedFlags(ol[1..])
  }

  /** The values of the options, in order. */
  function OptionValuesOf(ol: seq<Option>): (r: seq<string>)
    reads ol`value
    ensures |r| == |ol| && forall i :: 0 <= i < |ol| ==> r[i] == ol[i].value
  {
    if ol == [] then [] else [ol[0].value] + OptionValuesOf(ol[1..])
  }

  /** Two detected options are first of two different names, hence different objects. */
  lemma DistinctDetected(ol: seq<Option>, shapes: seq<OptShape>, acc: Parsed, k: int)
    requires shapes == OptionShapesOf(ol)
    requires Consistent(shapes, acc)
    requires FirstOfName(shapes, k)
    ensures forall j :: 0 <= j < |ol| && j in acc.detected && j != k ==> ol[j] != ol[k]
  {
    forall j | 0 <= j < |ol| && j in acc.detected && j != k
      ensures ol[j] != ol[k]
    {
      assert FirstOfName(shapes, j);
      assert shapes[j].name != shapes[k].name;
    }
  }

  /** Every option held by one of the commands. */
  ghost function OptionsOf(cmds: seq<Command>): set<Option>
    reads cmds`optionList
  {
    set c, o | c in cmds && o in c.optionList :: o
  }

  /** The options of each of the commands are among OptionsOf. */
  lemma OptionsOfHas(cmds: seq<Command>, k: nat)
    requires k < |cmds|
    ensures forall o :: o in cmds[k].optionList ==> o in OptionsOf(cmds)
  {
    forall o | o in cmds[k].optionList
      ensures o in OptionsOf(cmds)
    {
      assert cmds[k] in cmds;
    }
  }

  /** The option lists of the commands, in registration order. */
  function OptionListsOf(cmds: seq<Command>): (r: seq<seq<Option>>)
    reads cmds`optionList
    ensures |r| == |cmds|
  {
    if cmds == [] then [] else [cmds[0].optionList] + OptionListsOf(cmds[1..])
  }

  /** Entry i of OptionListsOf is the option list of command i. */
  lemma {:induction false} OptionListsOfAt(cmds: seq<Command>, i: nat)
    requires i < |cmds|
    ensures OptionListsOf(cmds)[i] == cmds[i].optionList
    decreases i
  {
    if i > 0 {
      OptionListsOfAt(cmds[1..], i - 1);
    }
  }

  /** The commands as the decoder sees them, in registration order. */
  function CommandShapesOf(cmds: seq<Command>): (r: seq<Framing.CmdShape>)
    reads cmds`name, cmds`paramList, cmds`optionList, cmds`callBackFunc
    ensures |r| == |cmds|
  {
    if cmds == [] then []
    else
      [cmds[0].Shape()] + CommandShapesOf(cmds[1..])
  }

  /** Entry i of CommandShapesOf is the shape of command i. */
  lemma {:induction false} CommandShapesOfAt(cmds: seq<Command>, i: nat)
    requires i < |cmds|
    ensures CommandShapesOf(cmds)[i] == cmds[i].Shape()
    decreases i
  {
    if i > 0 {
      CommandShapesOfAt(cmds[1..], i - 1);
    }
  }
}
