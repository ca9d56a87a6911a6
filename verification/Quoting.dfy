/** Backslash quoting, as `double_quote` does it for every text format. */
module Quoting {

  predicate Special(c: char) {
    c == '\"' || c == '\\'
  }

  /** A backslash before every double quote and every backslash. */
  function Escape(s: string): string {
    if s == "" then ""
    else (if Special(s[0]) then ['\\', s[0]] else [s[0]]) + Escape(s[1..])
  }

  function DoubleQuote(s: string): string {
    "\"" + Escape(s) + "\""
  }

  /** All backslashes deleted. */
  function Strip(s: string): string {
    if s == "" then ""
    else (if s[0] == '\\' then "" else [s[0]]) + Strip(s[1..])
  }

  predicate EndsInBackslash(s: string) {
    s != "" && s[|s| - 1] == '\\'
  }

  /** The character at m is no double quote, or follows a backslash. */
  predicate QuoteEscaped(s: string, m: nat) {
    m < |s| && s[m] == '\"' ==> m > 0 && s[m - 1] == '\\'
  }

  /** Every double quote of an escaped text follows a backslash; the text ends in a backslash only
      if it did before. */
  lemma {:induction false} EscapedQuotes(s: string)
    ensures forall m: nat :: QuoteEscaped(Escape(s), m)
    ensures EndsInBackslash(Escape(s)) <==> EndsInBackslash(s)
    ensures Escape(s) == "" <==> s == ""
  {
    if s != "" {
      EscapedQuotes(s[1..]);
      var head := if Special(s[0]) then ['\\', s[0]] else [s[0]];
      forall m: nat ensures QuoteEscaped(Escape(s), m) {
        assert |head| <= m ==> QuoteEscaped(Escape(s[1..]), m - |head|);
      }
    }
  }

  lemma StripStep(s: string)
    requires s != ""
    ensures Strip(s) == (if s[0] == '\\' then "" else [s[0]]) + Strip(s[1..])
  {
  }

  lemma {:induction false} StripConcat(a: string, b: string)
    ensures Strip(a + b) == Strip(a) + Strip(b)
    decreases |a|
  {
    hide Strip;
    if a == "" {
      StripOne('\\');
      assert a + b == b && "" + Strip(b) == Strip(b);
    } else {
      var head, tail := if a[0] == '\\' then "" else [a[0]], a[1..];
      StripConcat(tail, b);
      StripStep(a);
      StripStep(a + b);
      assert (a + b)[0] == a[0] && (a + b)[1..] == tail + b;
      assert head + (Strip(tail) + Strip(b)) == head + Strip(tail) + Strip(b);
    }
  }

  lemma StripOne(c: char)
    ensures Strip("") == "" && Strip([c]) == if c == '\\' then "" else [c]
  {
  }

  lemma {:induction false} StripEscape(s: string)
    ensures Strip(Escape(s)) == Strip(s)
  {
    if s != "" {
      StripEscape(s[1..]);
      var head := if Special(s[0]) then ['\\', s[0]] else [s[0]];
      StripConcat(head, Escape(s[1..]));
      assert head[1..] == if Special(s[0]) then [s[0]] else "";
    }
  }

  lemma {:induction false} StripLeavesNoBackslash(s: string)
    ensures '\\' !in Strip(s)
    ensures Strip(s) == s <==> '\\' !in s
    ensures |Strip(s)| <= |s|
  {
    if s != "" { StripLeavesNoBackslash(s[1..]); }
  }

  // ----- Finding a text inside a longer one -----

  /** The input reads `text` from position i on. */
  ghost predicate Reads(input: string, i: nat, text: string) {
    i + |text| <= |input| && forall k | 0 <= k < |text| :: text[k] == input[i + k]
  }

  lemma ReadsParts(input: string, i: nat, a: string, b: string)
    requires Reads(input, i, a + b)
    ensures Reads(input, i, a) && Reads(input, i + |a|, b)
  {
    forall k | 0 <= k < |a| ensures a[k] == input[i + k] { assert (a + b)[k] == a[k]; }
    forall k | 0 <= k < |b| ensures b[k] == input[i + |a| + k] { assert (a + b)[|a| + k] == b[k]; }
  }

  lemma ReadsSlice(input: string, i: nat, text: string)
    requires Reads(input, i, text)
    ensures input[i..i + |text|] == text
  {
  }

  lemma ReadsEscaped(input: string, i: nat, e: string)
    requires Reads(input, i, e) && forall m: nat :: QuoteEscaped(e, m)
    ensures forall m: nat | i <= m < i + |e| :: QuoteEscaped(input, m)
  {
    forall m: nat | i <= m < i + |e| ensures QuoteEscaped(input, m) {
      var k := m - i;
      assert QuoteEscaped(e, k) && e[k] == input[m];
      if k > 0 { assert e[k - 1] == input[m - 1]; }
    }
  }

  /** Where the quotes of a double-quoted text are; every quote between them follows a backslash. */
  lemma ReadsQuoted(input: string, i: nat, x: string)
    requires Reads(input, i, DoubleQuote(x))
    ensures var p := i + 1 + |Escape(x)|;
            && p < |input| && input[i] == input[p] == '\"' && Reads(input, i + 1, Escape(x))
            && (input[p - 1] == '\\' <==> EndsInBackslash(x))
            && forall m: nat | i + 1 <= m < p :: QuoteEscaped(input, m)
  {
    var e := Escape(x);
    ReadsParts(input, i, "\"" + e, "\"");
    ReadsParts(input, i, "\"", e);
    assert "\""[0] == input[i] && "\""[0] == input[i + 1 + |e|];
    EscapedQuotes(x);
    ReadsEscaped(input, i + 1, e);
    if e != "" { assert e[|e| - 1] == input[i + |e|]; }
  }
}
