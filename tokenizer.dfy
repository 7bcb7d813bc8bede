/**
 * The quote-aware splitting of an argument string done by `Rx.SplitArguments`,
 * stated as functions on strings.
 *
 * SplitArguments scans the characters once. A double quote outside a single-quoted
 * span toggles the double-quote flag, a single quote outside a double-quoted span
 * toggles the single-quote flag, and both kinds of toggling quote, like every space
 * outside quotes, are overwritten with a separator. The result is then split on the
 * separator and empty pieces are dropped.
 */
module Tokenizer {

  /** The character written over every character that ends a token. */
  const Separator: char := '\n'

  /** Whether the scan is inside a single-quoted span and inside a double-quoted span. */
  datatype Quotes = Quotes(inSingle: bool, inDouble: bool)

  const Outside := Quotes(false, false)

  /** What one character is rewritten to, and the quote state after it. */
  function Scan(c: char, q: Quotes): (char, Quotes)
  {
    if c == '"' && !q.inSingle then (Separator, q.(inDouble := !q.inDouble))
    else if c == '\'' && !q.inDouble then (Separator, q.(inSingle := !q.inSingle))
    else if !q.inSingle && !q.inDouble && c == ' ' then (Separator, q)
    else (c, q)
  }

  /** The quote state after scanning all of s, starting outside any quotes. */
  function QuotesAfter(s: string): Quotes
  {
    if s == [] then Outside else Scan(s[|s| - 1], QuotesAfter(s[..|s| - 1])).1
  }

  /** The character the scan leaves at index i of s. */
  function MaskedAt(s: string, i: nat): char
    requires i < |s|
  {
    Scan(s[i], QuotesAfter(s[..i])).0
  }

  /** s after the scan: token-ending characters replaced by Separator. */
  function Masked(s: string): string
  {
    seq(|s|, i requires 0 <= i < |s| => MaskedAt(s, i))
  }

  /** Length of the run of non-separator characters at the head of s. */
  function RunLength(s: string): (n: nat)
    ensures n <= |s|
    ensures forall j :: 0 <= j < n ==> s[j] != Separator
    ensures n < |s| ==> s[n] == Separator
  {
    if s == [] || s[0] == Separator then 0 else 1 + RunLength(s[1..])
  }

  /** `String.Split` on Separator with `StringSplitOptions.RemoveEmptyEntries`. */
  function Split(s: string): (ts: seq<string>)
    ensures forall k :: 0 <= k < |ts| ==> ts[k] != [] && Separator !in ts[k]
    decreases |s|
  {
    if s == [] then []
    else if s[0] == Separator then Split(s[1..])
    else
      var n := RunLength(s);
      [s[..n]] + Split(s[n..])
  }

  /** The tokens SplitArguments returns for s. */
  function Tokens(s: string): seq<string>
  {
    Split(Masked(s))
  }

  /** All tokens one after another. */
  function Concat(ts: seq<string>): string
  {
    if ts == [] then [] else ts[0] + Concat(ts[1..])
  }

  /** s with every Separator removed. */
  function Unseparated(s: string): string
  {
    if s == [] then [] else (if s[0] == Separator then [] else [s[0]]) + Unseparated(s[1..])
  }

  /** Tokens with one Separator between neighbours. */
  function Join(ts: seq<string>): string
  {
    if ts == [] then [] else if |ts| == 1 then ts[0] else ts[0] + [Separator] + Join(ts[1..])
  }

  /** Words with one space between neighbours, as the encoder writes them. */
  function JoinSpaces(ws: seq<string>): string
  {
    if ws == [] then [] else if |ws| == 1 then ws[0] else ws[0] + " " + JoinSpaces(ws[1..])
  }

  /** A word that the scan passes through unchanged: no quote, space or separator. */
  predicate IsPlainWord(w: string)
  {
    w != [] && QuoteFree(w) && forall i :: 0 <= i < |w| ==> w[i] != ' ' && w[i] != Separator
  }

  /** s holds no quote character of either kind. */
  predicate QuoteFree(s: string)
  {
    forall i :: 0 <= i < |s| ==> s[i] != '"' && s[i] != '\''
  }

  // ---------------------------------------------------------------------------
  // The scan
  // ---------------------------------------------------------------------------

  /** The two flags are never set together: a quote of one kind never toggles inside the other kind. */
  lemma {:induction false} QuotesNeverBoth(s: string)
    ensures !(QuotesAfter(s).inSingle && QuotesAfter(s).inDouble)
  {
    if s != [] {
      QuotesNeverBoth(s[..|s| - 1]);
    }
  }

  /** The quote state after one more character is the scan of that character. */
  lemma QuotesAfterStep(s: string, i: nat)
    requires i < |s|
    ensures QuotesAfter(s[..i + 1]) == Scan(s[i], QuotesAfter(s[..i])).1
  {
    assert s[..i + 1][..i] == s[..i];
  }

  /** Every character is either kept or replaced by Separator. */
  lemma MaskedKeepsOrSeparates(s: string, i: nat)
    requires i < |s|
    ensures Masked(s)[i] == s[i] || Masked(s)[i] == Separator
  {
  }

  /** A space survives the scan exactly when it lies inside a quoted span. */
  lemma SpaceSurvivesOnlyInQuotes(s: string, i: nat)
    requires i < |s|
    ensures Masked(s)[i] == ' ' <==> s[i] == ' ' && QuotesAfter(s[..i]) != Outside
  {
  }

  /**
   * A double quote outside single quotes and a single quote outside double quotes
   * toggle their flag and are removed.
   */
  lemma TogglingQuoteRemoved(s: string, i: nat)
    requires i < |s|
    ensures var q := QuotesAfter(s[..i]);
      && (s[i] == '"' && !q.inSingle ==>
            Masked(s)[i] == Separator && QuotesAfter(s[..i + 1]) == q.(inDouble := !q.inDouble))
      && (s[i] == '\'' && !q.inDouble ==>
            Masked(s)[i] == Separator && QuotesAfter(s[..i + 1]) == q.(inSingle := !q.inSingle))
  {
    QuotesAfterStep(s, i);
  }

  /** A quote of one kind inside a span of the other kind is kept as a literal and toggles nothing. */
  lemma NestedQuoteIsLiteral(s: string, i: nat)
    requires i < |s|
    ensures var q := QuotesAfter(s[..i]);
      && (s[i] == '"' && q.inSingle ==> Masked(s)[i] == '"' && QuotesAfter(s[..i + 1]) == q)
      && (s[i] == '\'' && q.inDouble ==> Masked(s)[i] == '\'' && QuotesAfter(s[..i + 1]) == q)
  {
    QuotesAfterStep(s, i);
    QuotesNeverBoth(s[..i]);
  }

  // ---------------------------------------------------------------------------
  // The split
  // ---------------------------------------------------------------------------

  lemma {:induction false} UnseparatedAppend(a: string, b: string)
    ensures Unseparated(a + b) == Unseparated(a) + Unseparated(b)
  {
    if a == [] {
      assert a + b == b;
    } else {
      assert (a + b)[0] == a[0];
      assert (a + b)[1..] == a[1..] + b;
      UnseparatedAppend(a[1..], b);
    }
  }

  lemma {:induction false} UnseparatedOfRun(s: string)
    requires Separator !in s
    ensures Unseparated(s) == s
  {
    if s != [] {
      UnseparatedOfRun(s[1..]);
    }
  }

  /** Splitting loses only separators: the tokens, put back together, are the other characters in order. */
  lemma {:induction false} SplitKeepsCharacters(s: string)
    ensures Concat(Split(s)) == Unseparated(s)
    decreases |s|
  {
    if s == [] {
    } else if s[0] == Separator {
      SplitKeepsCharacters(s[1..]);
    } else {
      var n := RunLength(s);
      assert s == s[..n] + s[n..];
      assert Split(s) == [s[..n]] + Split(s[n..]);
      assert ([s[..n]] + Split(s[n..]))[1..] == Split(s[n..]);
      SplitKeepsCharacters(s[n..]);
      UnseparatedAppend(s[..n], s[n..]);
      UnseparatedOfRun(s[..n]);
    }
  }

  lemma {:induction false} RunLengthOfWord(w: string, rest: string)
    requires Separator !in w
    requires rest == [] || rest[0] == Separator
    ensures RunLength(w + rest) == |w|
  {
    if w != [] {
      assert (w + rest)[1..] == w[1..] + rest;
      RunLengthOfWord(w[1..], rest);
    }
  }

  /** Split undoes Join on tokens that are non-empty and hold no separator. */
  lemma {:induction false} SplitJoin(ts: seq<string>)
    requires forall k :: 0 <= k < |ts| ==> ts[k] != [] && Separator !in ts[k]
    ensures Split(Join(ts)) == ts
  {
    if |ts| == 1 {
      RunLengthOfWord(ts[0], []);
      assert ts[0][..|ts[0]|] == ts[0];
      assert ts[0][|ts[0]|..] == [];
    } else if |ts| > 1 {
      var rest := [Separator] + Join(ts[1..]);
      var s := ts[0] + rest;
      assert Join(ts) == s;
      RunLengthOfWord(ts[0], rest);
      assert s[..|ts[0]|] == ts[0];
      assert s[|ts[0]|..] == rest;
      assert rest[1..] == Join(ts[1..]);
      SplitJoin(ts[1..]);
    }
  }

  // ---------------------------------------------------------------------------
  // Plain words
  // ---------------------------------------------------------------------------

  /** Spaces replaced by Separator; other characters kept. */
  function Spaced(s: string): string
  {
    seq(|s|, i requires 0 <= i < |s| => if s[i] == ' ' then Separator else s[i])
  }

  /** Without quote characters the scan never leaves the outside state. */
  lemma {:induction false} QuoteFreeStaysOutside(s: string)
    requires QuoteFree(s)
    ensures QuotesAfter(s) == Outside
  {
    if s != [] {
      QuoteFreeStaysOutside(s[..|s| - 1]);
    }
  }

  lemma QuoteFreeMasked(s: string)
    requires QuoteFree(s)
    ensures Masked(s) == Spaced(s)
  {
    forall i | 0 <= i < |s|
      ensures Masked(s)[i] == Spaced(s)[i]
    {
      QuoteFreeStaysOutside(s[..i]);
    }
  }

  lemma {:induction false} SpacedJoinSpaces(ws: seq<string>)
    requires forall k :: 0 <= k < |ws| ==> IsPlainWord(ws[k])
    ensures Spaced(JoinSpaces(ws)) == Join(ws)
  {
    if |ws| == 1 {
      assert Spaced(ws[0]) == ws[0];
    } else if |ws| > 1 {
      var tail := JoinSpaces(ws[1..]);
      SpacedJoinSpaces(ws[1..]);
      assert Spaced(ws[0]) == ws[0];
      assert Spaced(ws[0] + " " + tail) == Spaced(ws[0]) + [Separator] + Spaced(tail);
    }
  }

  lemma {:induction false} JoinSpacesChars(ws: seq<string>)
    requires forall k :: 0 <= k < |ws| ==> IsPlainWord(ws[k])
    ensures QuoteFree(JoinSpaces(ws))
  {
    if |ws| > 1 {
      JoinSpacesChars(ws[1..]);
      assert JoinSpaces(ws) == ws[0] + " " + JoinSpaces(ws[1..]);
    }
  }

  /** Plain words joined by single spaces come back as exactly those words. */
  lemma TokensOfPlainWords(ws: seq<string>)
    requires forall k :: 0 <= k < |ws| ==> IsPlainWord(ws[k])
    ensures Tokens(JoinSpaces(ws)) == ws
  {
    JoinSpacesChars(ws);
    QuoteFreeMasked(JoinSpaces(ws));
    SpacedJoinSpaces(ws);
    SplitJoin(ws);
  }
}
