/** A required, positional argument of a command (`Parameter`). */
module ClideParameter {
  import opened ClideTypes

  /**
   * A parameter of a command. Its value is written by the application before encoding;
   * name and description are stored for the application and read by neither engine.
   */
  class Parameter {
    var name: Nullable<string>
    var value: Nullable<string>
    var description: Nullable<string>
    var callBackFunc: Nullable<Handler>

    /** Sets nothing: every field is left null. */
    constructor ()
      ensures name == Null && value == Null && description == Null && callBackFunc == Null
    {
      name := Null;
      value := Null;
      description := Null;
      callBackFunc := Null;
    }

    /** Sets only the description. */
    constructor WithDescription(description: string)
      ensures this.description == NonNull(description)
      ensures name == Null && value == Null && callBackFunc == Null
    {
      name := Null;
      value := Null;
      this.description := NonNull(description);
      callBackFunc := Null;
    }

    /** The value setter: the getter returns what it was given until the next assignment. */
    method SetValue(v: Nullable<string>)
      modifies this`value
      ensures value == v
    {
      value := v;
    }
  }

  /** The parameters' values, in order. */
  function ValuesOf(ps: seq<Parameter>): (r: seq<Nullable<string>>)
    reads ps`value
    ensures |r| == |ps|
    ensures forall i :: 0 <= i < |ps| ==> r[i] == ps[i].value
  {
    if ps == [] then [] else [ps[0].value] + ValuesOf(ps[1..])
  }
}
