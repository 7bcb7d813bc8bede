/**
 * The option/positional split performed when a decoded command's arguments are parsed.
 *
 * The source hands the tokens to a third-party command-line parser, on which every
 * registered option installed one handler. This module is a self-contained parser with
 * the behaviour the decoder relies on: a token equal to "-" followed by a registered
 * option's name is that option's flag; the flag marks the option detected and, when the
 * option carries a value and another token follows, the next token is taken as its value.
 * Every other token is kept, in order, as a positional value.
 */
module OptionParser {

  /** What the parser needs of an option: the name it is matched by and whether a value follows it. */
  datatype OptShape = OptShape(name: string, hasValue: bool)

  /**
   * The parser's findings: the positional tokens in order, the indices of the options whose
   * flag was seen, and for value-carrying options the last value taken.
   */
  datatype Parsed = Parsed(positionals: seq<string>, detected: set<nat>, values: map<nat, string>)

  const NothingParsed := Parsed([], {}, map[])

  /** The token that stands for an option on the command line. */
  function Flag(name: string): string
  {
    "-" + name
  }

  /** The first option at index j or later whose flag is tok, or -1. */
  function LookupFrom(opts: seq<OptShape>, tok: string, j: nat): (k: int)
    requires j <= |opts|
    ensures k == -1 || j <= k < |opts|
    ensures k >= 0 ==> Flag(opts[k].name) == tok && forall i :: j <= i < k ==> Flag(opts[i].name) != tok
    ensures k < 0 ==> forall i :: j <= i < |opts| ==> Flag(opts[i].name) != tok
    decreases |opts| - j
  {
    if j == |opts| then -1
    else if Flag(opts[j].name) == tok then j
    else LookupFrom(opts, tok, j + 1)
  }

  /** The first registered option whose flag is tok, or -1 when tok is not a flag. */
  function Lookup(opts: seq<OptShape>, tok: string): int
  {
    LookupFrom(opts, tok, 0)
  }

  /** Option k is the first one registered under its name (only such an option receives its flag). */
  ghost predicate FirstOfName(opts: seq<OptShape>, k: int)
  {
    0 <= k < |opts| && forall j :: 0 <= j < k ==> opts[j].name != opts[k].name
  }

  /**
   * One parser step at token i: a token that is no flag is kept as positional; a flag marks
   * its option detected and, when the option carries a value and a token follows, takes that
   * token as the value. Returns the index of the next unread token and the updated findings.
   */
  function Step(opts: seq<OptShape>, toks: seq<string>, i: nat, acc: Parsed): (r: (nat, Parsed))
    requires i < |toks|
    ensures i < r.0 <= |toks|
  {
    var k := Lookup(opts, toks[i]);
    if k < 0 then
      (i + 1, acc.(positionals := acc.positionals + [toks[i]]))
    else if opts[k].hasValue && i + 1 < |toks| then
      (i + 2, acc.(detected := acc.detected + {k}, values := acc.values[k := toks[i + 1]]))
    else
      (i + 1, acc.(detected := acc.detected + {k}))
  }

  /** Parsing of toks from index i on, with acc holding what tokens before i produced. */
  function ParseFrom(opts: seq<OptShape>, toks: seq<string>, i: nat, acc: Parsed): Parsed
    decreases |toks| - i
  {
    if i >= |toks| then acc
    else
      var next := Step(opts, toks, i, acc);
      ParseFrom(opts, toks, next.0, next.1)
  }

  /** What the parser finds in toks against the registered options opts. */
  function Parse(opts: seq<OptShape>, toks: seq<string>): Parsed
  {
    ParseFrom(opts, toks, 0, NothingParsed)
  }

  /**
   * The shape every parse result has: a detected index is the first option of its name,
   * a value belongs to a detected, value-carrying option, and no positional is a flag.
   */
  ghost predicate Consistent(opts: seq<OptShape>, p: Parsed)
  {
    && (forall k :: k in p.detected ==> FirstOfName(opts, k))
    && (forall k :: k in p.values ==> k in p.detected && opts[k].hasValue)
    && (forall j :: 0 <= j < |p.positionals| ==> Lookup(opts, p.positionals[j]) < 0)
  }

  /** A step keeps the findings consistent. */
  lemma StepConsistent(opts: seq<OptShape>, toks: seq<string>, i: nat, acc: Parsed)
    requires i < |toks|
    requires Consistent(opts, acc)
    ensures Consistent(opts, Step(opts, toks, i, acc).1)
  {
  }

  lemma {:induction false} ParseFromConsistent(opts: seq<OptShape>, toks: seq<string>, i: nat, acc: Parsed)
    requires Consistent(opts, acc)
    ensures Consistent(opts, ParseFrom(opts, toks, i, acc))
    decreases |toks| - i
  {
    if i < |toks| {
      var next := Step(opts, toks, i, acc);
      StepConsistent(opts, toks, i, acc);
      ParseFromConsistent(opts, toks, next.0, next.1);
    }
  }

  /**
   * Only the first option of a name is ever detected, values go only to detected options
   * that carry one, and no token kept as positional is a registered flag.
   */
  lemma ParseConsistent(opts: seq<OptShape>, toks: seq<string>)
    ensures Consistent(opts, Parse(opts, toks))
  {
    ParseFromConsistent(opts, toks, 0, NothingParsed);
  }

  /** Parsing from index i depends only on the tokens from i on. */
  lemma {:induction false} ParseFromSuffix(opts: seq<OptShape>, toks: seq<string>, i: nat, acc: Parsed)
    requires i <= |toks|
    ensures ParseFrom(opts, toks, i, acc) == ParseFrom(opts, toks[i..], 0, acc)
    decreases |toks| - i
  {
    var rest := toks[i..];
    if i < |toks| {
      var k := Lookup(opts, toks[i]);
      assert rest[0] == toks[i];
      if k < 0 {
        ParseFromSuffix(opts, toks, i + 1, acc.(positionals := acc.positionals + [toks[i]]));
        ParseFromSuffix(opts, rest, 1, acc.(positionals := acc.positionals + [toks[i]]));
        assert rest[1..] == toks[i + 1..];
      } else if opts[k].hasValue && i + 1 < |toks| {
        var acc' := acc.(detected := acc.detected + {k}, values := acc.values[k := toks[i + 1]]);
        assert rest[1] == toks[i + 1];
        ParseFromSuffix(opts, toks, i + 2, acc');
        ParseFromSuffix(opts, rest, 2, acc');
        assert rest[2..] == toks[i + 2..];
      } else {
        ParseFromSuffix(opts, toks, i + 1, acc.(detected := acc.detected + {k}));
        ParseFromSuffix(opts, rest, 1, acc.(detected := acc.detected + {k}));
        assert rest[1..] == toks[i + 1..];
      }
    }
  }

  /** Tokens that are not flags pass through, in order, as positionals. */
  lemma {:induction false} ParseFromPositionals(opts: seq<OptShape>, ws: seq<string>, rest: seq<string>, acc: Parsed)
    requires forall j :: 0 <= j < |ws| ==> Lookup(opts, ws[j]) < 0
    ensures ParseFrom(opts, ws + rest, 0, acc) == ParseFrom(opts, rest, 0, acc.(positionals := acc.positionals + ws))
  {
    if ws == [] {
      assert ws + rest == rest;
      assert acc.positionals + ws == acc.positionals;
    } else {
      var toks := ws + rest;
      var acc' := acc.(positionals := acc.positionals + [ws[0]]);
      assert toks[0] == ws[0];
      ParseFromSuffix(opts, toks, 1, acc');
      assert toks[1..] == ws[1..] + rest;
      ParseFromPositionals(opts, ws[1..], rest, acc');
      assert acc.positionals + [ws[0]] + ws[1..] == acc.positionals + ws;
    }
  }

  /** The flag of an option that carries a value, followed by a token, detects it with that token as its value. */
  lemma FlagValueStep(opts: seq<OptShape>, k: nat, v: string, rest: seq<string>, acc: Parsed)
    requires k < |opts| && Lookup(opts, Flag(opts[k].name)) == k && opts[k].hasValue
    ensures ParseFrom(opts, [Flag(opts[k].name), v] + rest, 0, acc)
         == ParseFrom(opts, rest, 0, acc.(detected := acc.detected + {k}, values := acc.values[k := v]))
  {
    var toks := [Flag(opts[k].name), v] + rest;
    ParseFromSuffix(opts, toks, 2, acc.(detected := acc.detected + {k}, values := acc.values[k := v]));
    assert toks[2..] == rest;
  }

  /** The flag of an option that carries no value detects it. */
  lemma FlagStep(opts: seq<OptShape>, k: nat, rest: seq<string>, acc: Parsed)
    requires k < |opts| && Lookup(opts, Flag(opts[k].name)) == k && !opts[k].hasValue
    ensures ParseFrom(opts, [Flag(opts[k].name)] + rest, 0, acc)
         == ParseFrom(opts, rest, 0, acc.(detected := acc.detected + {k}))
  {
    var toks := [Flag(opts[k].name)] + rest;
    ParseFromSuffix(opts, toks, 1, acc.(detected := acc.detected + {k}));
    assert toks[1..] == rest;
  }

  /** With no flag among the tokens, every token is positional and no option is detected. */
  lemma ParseWithoutFlags(opts: seq<OptShape>, toks: seq<string>)
    requires forall j :: 0 <= j < |toks| ==> Lookup(opts, toks[j]) < 0
    ensures Parse(opts, toks) == Parsed(toks, {}, map[])
  {
    ParseFromPositionals(opts, toks, [], NothingParsed);
    assert toks + [] == toks;
  }
}
