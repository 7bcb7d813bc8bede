/** An optional, named argument of a command (`Option`). */
module ClideOption {
  import opened ClideTypes
  import opened OptionParser

  /**
   * An option of a command. The decoder clears and sets isDetected and assigns value;
   * the application sets toSend and value before encoding.
   */
  class Option {
    /** The name the option is matched by (its flag is "-" + name). */
    const name: string
    /** Whether a value follows the flag. */
    const hasValue: bool
    var value: string
    var description: string
    /** Stored for the application; the decoder never invokes it. */
    var callBackFunc: Nullable<Handler>
    /** Whether the encoder includes the option. */
    var toSend: bool
    /** Whether the last decode of the owning command saw the option's flag. */
    var isDetected: bool

    /** Sets the name and whether a value follows; every other field keeps its default. */
    constructor (name: string, hasValue: bool)
      ensures this.name == name && this.hasValue == hasValue
      ensures value == "" && description == "" && callBackFunc == Null
      ensures toSend && !isDetected
    {
      this.name := name;
      this.hasValue := hasValue;
      value := "";
      description := "";
      callBackFunc := Null;
      toSend := true;
      isDetected := false;
    }

    /** Also stores the callback. */
    constructor WithCallBack(name: string, hasValue: bool, callBackFunc: Nullable<Handler>)
      ensures this.name == name && this.hasValue == hasValue && this.callBackFunc == callBackFunc
      ensures value == "" && description == ""
      ensures toSend && !isDetected
    {
      this.name := name;
      this.hasValue := hasValue;
      value := "";
      description := "";
      this.callBackFunc := callBackFunc;
      toSend := true;
      isDetected := false;
    }

    /** Also stores the callback and the description. */
    constructor WithDescription(name: string, hasValue: bool, callBackFunc: Nullable<Handler>, description: string)
      ensures this.name == name && this.hasValue == hasValue && this.callBackFunc == callBackFunc
      ensures this.description == description && value == ""
      ensures toSend && !isDetected
    {
      this.name := name;
      this.hasValue := hasValue;
      value := "";
      this.description := description;
      this.callBackFunc := callBackFunc;
      toSend := true;
      isDetected := false;
    }
  }

  /** What the parser sees of each option, in order. */
  function OptionShapesOf(os: seq<Option>): (r: seq<OptShape>)
    ensures |r| == |os|
    ensures forall i :: 0 <= i < |os| ==> r[i] == OptShape(os[i].name, os[i].hasValue)
  {
    if os == [] then [] else [OptShape(os[0].name, os[0].hasValue)] + OptionShapesOf(os[1..])
  }
}
