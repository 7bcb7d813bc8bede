/**
 * The text `Tx.BuildString` produces for a command, stated as functions on the values the
 * encoder reads: the command's name, its parameters' values and its options.
 */
module Encoding {
  import opened ClideTypes

  /** What the encoder reads of an option. */
  datatype OptionOut = OptionOut(name: string, hasValue: bool, value: string, toSend: bool)

  /** One parameter's text: a space, then the value (a null value adds nothing after the space). */
  function ParamText(v: Nullable<string>): string
  {
    " " + TextOf(v)
  }

  /** The parameters' texts, in order. */
  function ParamsText(vs: seq<Nullable<string>>): string
  {
    if vs == [] then "" else ParamText(vs[0]) + ParamsText(vs[1..])
  }

  /** One option's text: " -" and its name, then a space and its value when it has one; nothing when it is not to be sent. */
  function OptionText(o: OptionOut): string
  {
    if !o.toSend then ""
    else " -" + o.name + (if o.hasValue then " " + o.value else "")
  }

  /** The options' texts, in order. */
  function OptionsText(os: seq<OptionOut>): string
  {
    if os == [] then "" else OptionText(os[0]) + OptionsText(os[1..])
  }

  /** The command line for a command: its name, then its parameters, then its options. */
  function Encode(name: string, vs: seq<Nullable<string>>, os: seq<OptionOut>): string
  {
    name + ParamsText(vs) + OptionsText(os)
  }

  /** The options that are to be sent, in order. */
  function Sent(os: seq<OptionOut>): (r: seq<OptionOut>)
    ensures forall i :: 0 <= i < |r| ==> r[i].toSend
  {
    if os == [] then []
    else (if os[0].toSend then [os[0]] else []) + Sent(os[1..])
  }

  /** The parameters' text of two lists one after the other is the texts one after the other. */
  lemma {:induction false} ParamsTextAppend(a: seq<Nullable<string>>, b: seq<Nullable<string>>)
    ensures ParamsText(a + b) == ParamsText(a) + ParamsText(b)
  {
    if a == [] {
      assert a + b == b;
    } else {
      assert (a + b)[1..] == a[1..] + b;
      ParamsTextAppend(a[1..], b);
    }
  }

  /** The same for options. */
  lemma {:induction false} OptionsTextAppend(a: seq<OptionOut>, b: seq<OptionOut>)
    ensures OptionsText(a + b) == OptionsText(a) + OptionsText(b)
  {
    if a == [] {
      assert a + b == b;
    } else {
      assert (a + b)[1..] == a[1..] + b;
      OptionsTextAppend(a[1..], b);
    }
  }

  /** Every parameter contributes one space and its value, in order: the text is as long as that. */
  lemma {:induction false} ParamsTextLength(vs: seq<Nullable<string>>)
    ensures |ParamsText(vs)| >= |vs|
    ensures (forall i :: 0 <= i < |vs| ==> vs[i] == Null) ==> ParamsText(vs) == seq(|vs|, i => ' ')
  {
    if vs != [] {
      ParamsTextLength(vs[1..]);
      if forall i :: 0 <= i < |vs| ==> vs[i] == Null {
        assert forall i :: 0 <= i < |vs[1..]| ==> vs[1..][i] == Null by {
          forall i | 0 <= i < |vs[1..]| ensures vs[1..][i] == Null {
            assert vs[1..][i] == vs[i + 1];
          }
        }
        assert ParamText(vs[0]) == " ";
      }
    }
  }

  /** Options not to be sent contribute nothing: the options' text is that of the options sent. */
  lemma {:induction false} OptionsTextSent(os: seq<OptionOut>)
    ensures OptionsText(os) == OptionsText(Sent(os))
  {
    if os != [] {
      OptionsTextSent(os[1..]);
      var head := if os[0].toSend then [os[0]] else [];
      OptionsTextAppend(head, Sent(os[1..]));
      if os[0].toSend {
        assert OptionsText(head) == OptionText(os[0]) + OptionsText([]);
      }
    }
  }

  /** With no option to send, the options add nothing. */
  lemma {:induction false} OptionsTextNoneSent(os: seq<OptionOut>)
    requires forall i :: 0 <= i < |os| ==> !os[i].toSend
    ensures OptionsText(os) == ""
  {
    if os != [] {
      OptionsTextNoneSent(os[1..]);
    }
  }

  /** Without parameters and without options to send, the command line is the name alone. */
  lemma EncodeBare(name: string, os: seq<OptionOut>)
    requires forall i :: 0 <= i < |os| ==> !os[i].toSend
    ensures Encode(name, [], os) == name
  {
    OptionsTextNoneSent(os);
  }

  /** The parameters from i on: parameter i's text, then those after it. */
  lemma ParamsTextFrom(vs: seq<Nullable<string>>, i: nat)
    requires i < |vs|
    ensures ParamsText(vs[i..]) == ParamText(vs[i]) + ParamsText(vs[i + 1..])
  {
    assert vs[i..][0] == vs[i];
    assert vs[i..][1..] == vs[i + 1..];
  }

  /** Parameter i's text sits between those of the parameters before it and those after it. */
  lemma ParamsTextAt(vs: seq<Nullable<string>>, i: nat)
    requires i < |vs|
    ensures ParamsText(vs) == ParamsText(vs[..i]) + ParamText(vs[i]) + ParamsText(vs[i + 1..])
  {
    assert vs[..i] + vs[i..] == vs;
    ParamsTextAppend(vs[..i], vs[i..]);
    ParamsTextFrom(vs, i);
  }

  /** The options from j on: option j's text, then those after it. */
  lemma OptionsTextFrom(os: seq<OptionOut>, j: nat)
    requires j < |os|
    ensures OptionsText(os[j..]) == OptionText(os[j]) + OptionsText(os[j + 1..])
  {
    assert os[j..][0] == os[j];
    assert os[j..][1..] == os[j + 1..];
  }

  /** Option j's text sits between those of the options before it and those after it. */
  lemma OptionsTextAt(os: seq<OptionOut>, j: nat)
    requires j < |os|
    ensures OptionsText(os) == OptionsText(os[..j]) + OptionText(os[j]) + OptionsText(os[j + 1..])
  {
    assert os[..j] + os[j..] == os;
    OptionsTextAppend(os[..j], os[j..]);
    OptionsTextFrom(os, j);
  }

  /**
   * The command line is the name, then the parameters in order, then the options in order:
   * parameter i comes after the name and the parameters before it, and option j after every
   * parameter and the options before it.
   */
  lemma EncodeLayout(name: string, vs: seq<Nullable<string>>, os: seq<OptionOut>, i: nat, j: nat)
    requires i < |vs| && j < |os|
    ensures Encode(name, vs, os) ==
      name + (ParamsText(vs[..i]) + ParamText(vs[i]) + ParamsText(vs[i + 1..]))
           + (OptionsText(os[..j]) + OptionText(os[j]) + OptionsText(os[j + 1..]))
  {
    ParamsTextAt(vs, i);
    OptionsTextAt(os, j);
  }
}
