/**
 The hstore external representation: the printer `as_text_hstore` and the parser `from_text_hstore`.
 */
module HstoreText {
  import opened Prelude
  import opened Quoting

  datatype Entry = Entry(key: string, value: string)

  type Store = map<string, Option<string>>

  // ----- Printing -----

  function EntryText(e: Entry): string {
    DoubleQuote(e.key) + "=>" + DoubleQuote(e.value)
  }

  /** All entries in the order in which the unordered map yields them. */
  function HstoreOut(entries: seq<Entry>): string {
    if entries == [] then ""
    else if |entries| == 1 then EntryText(entries[0])
    else EntryText(entries[0]) + "," + HstoreOut(entries[1..])
  }

  function StoreOf(entries: seq<Entry>, start: Store): Store {
    if entries == [] then start
    else StoreOf(entries[1..], start[entries[0].key := Some(entries[0].value)])
  }

  lemma {:induction false} HstoreOutGrows(entries: seq<Entry>, e: Entry)
    ensures HstoreOut(entries + [e]) == HstoreOut(entries) + (if entries == [] then "" else ",") + EntryText(e)
  {
    hide EntryText;
    if |entries| > 0 {
      HstoreOutGrows(entries[1..], e);
      assert (entries + [e])[1..] == entries[1..] + [e];
    }
  }

  /** The loop of `as_text_hstore`. */
  method AsTextHstore(entries: seq<Entry>) returns (text: string)
    ensures text == HstoreOut(entries)
  {
    text := "";
    for i := 0 to |entries|
      invariant text == HstoreOut(entries[..i])
    {
      HstoreOutGrows(entries[..i], entries[i]);
      assert entries[..i] + [entries[i]] == entries[..i + 1];
      if i > 0 {
        text := text + ",";
      }
      text := text + EntryText(entries[i]);
    }
    assert entries[..|entries|] == entries;
  }

  // ----- Unescaping -----

  /** Where a C++ string is read one past its end it yields NUL. */
  function CharAt(s: string, i: nat): char {
    if i < |s| then s[i] else '\0'
  }

  predicate EscapesAt(s: string, i: nat) {
    i < |s| && s[i] == '\\' && (i == 0 || s[i - 1] != '\\')
  }

  function UnescapeFrom(s: string, i: nat): string
    decreases |s| - i
  {
    if i >= |s| then ""
    else if EscapesAt(s, i) then [CharAt(s, i + 1)] + UnescapeFrom(s, i + 2)
    else [s[i]] + UnescapeFrom(s, i + 1)
  }

  /** The loop of `unescape_hstore_text`. */
  method UnescapeHstoreText(escaped: string) returns (unescaped: string)
    ensures unescaped == UnescapeFrom(escaped, 0)
  {
    hide UnescapeFrom;
    unescaped := "";
    var i := 0;
    while i < |escaped|
      invariant 0 <= i
      invariant unescaped + UnescapeFrom(escaped, i) == UnescapeFrom(escaped, 0)
    {
      UnescapeStep(escaped, i);
      if escaped[i] == '\\' && (i == 0 || escaped[i - 1] != '\\') {
        i := i + 1;
      }
      unescaped := unescaped + [CharAt(escaped, i)];
      i := i + 1;
    }
    UnescapeEnd(escaped, i);
  }

  lemma UnescapeEnd(s: string, i: nat)
    requires i >= |s|
    ensures UnescapeFrom(s, i) == ""
  {
  }

  /** What escaping followed by unescaping makes of a text: a backslash too many before every special
      character that comes directly after a backslash. */
  function Swollen(v: string, afterBackslash: bool): string {
    if v == "" then ""
    else (if afterBackslash && Special(v[0]) then "\\" else "") + [v[0]] + Swollen(v[1..], v[0] == '\\')
  }

  /** No backslash stands directly before a backslash or a double quote. */
  predicate NoRun(v: string, afterBackslash: bool) {
    v != "" ==> !(afterBackslash && Special(v[0])) && NoRun(v[1..], v[0] == '\\')
  }

  lemma {:induction false} SwollenIff(v: string, afterBackslash: bool)
    ensures |v| <= |Swollen(v, afterBackslash)|
    ensures Swollen(v, afterBackslash) == v <==> NoRun(v, afterBackslash)
  {
    if v != "" {
      SwollenIff(v[1..], v[0] == '\\');
      assert v == [v[0]] + v[1..];
    }
  }

  function Escaped(c: char): string {
    if Special(c) then ['\\', c] else [c]
  }

  lemma UnescapeStep(s: string, i: nat)
    requires i < |s|
    ensures EscapesAt(s, i) ==> UnescapeFrom(s, i) == [CharAt(s, i + 1)] + UnescapeFrom(s, i + 2)
    ensures !EscapesAt(s, i) ==> UnescapeFrom(s, i) == [s[i]] + UnescapeFrom(s, i + 1)
  {
  }

  /** One escaped character, unescaped. */
  lemma UnescapeOne(s: string, before: string, c: char, after: string)
    requires s == before + Escaped(c) + after
    ensures UnescapeFrom(s, |before|)
         == (if EndsInBackslash(before) && Special(c) then ['\\', c] else [c]) + UnescapeFrom(s, |before + Escaped(c)|)
  {
    hide UnescapeFrom;
    var i := |before|;
    assert i > 0 ==> s[i - 1] == before[i - 1];
    assert s[i] == Escaped(c)[0];
    UnescapeStep(s, i);
    if Special(c) {
      assert s[i + 1] == Escaped(c)[1];
      UnescapeStep(s, i + 1);
    }
  }

  lemma EscapeStep(v: string, afterBackslash: bool)
    requires v != ""
    ensures Escape(v) == Escaped(v[0]) + Escape(v[1..])
    ensures Swollen(v, afterBackslash)
         == (if afterBackslash && Special(v[0]) then ['\\', v[0]] else [v[0]]) + Swollen(v[1..], v[0] == '\\')
  {
  }

  lemma {:induction false} UnescapeEscaped(before: string, v: string)
    ensures UnescapeFrom(before + Escape(v), |before|) == Swollen(v, EndsInBackslash(before))
    decreases |v|
  {
    if v == "" {
      assert before + Escape(v) == before;
    } else {
      UnescapeMore(before, v, before + Escape(v));
    }
  }

  lemma {:induction false} UnescapeMore(before: string, v: string, s: string)
    requires v != "" && s == before + Escape(v)
    ensures UnescapeFrom(s, |before|) == Swollen(v, EndsInBackslash(before))
    decreases |v|, 0
  {
    hide UnescapeFrom, Escape, Swollen;
    EscapeStep(v, EndsInBackslash(before));
    assert s == before + Escaped(v[0]) + Escape(v[1..]);
    UnescapeOne(s, before, v[0], Escape(v[1..]));
    UnescapeEscaped(before + Escaped(v[0]), v[1..]);
  }

  /** No backslash directly before a backslash or a double quote. */
  predicate Intact(v: string) {
    forall i | 0 <= i < |v| - 1 && v[i] == '\\' :: v[i + 1] != '\\' && v[i + 1] != '\"'
  }

  lemma {:induction false} NoRunIs(v: string, afterBackslash: bool)
    ensures NoRun(v, afterBackslash)
            <==> Intact(v) && (afterBackslash && v != "" ==> v[0] != '\\' && v[0] != '\"')
    decreases |v|
  {
    if v != "" {
      NoRunIs(v[1..], v[0] == '\\');
      var w := v[1..];
      assert forall i | 0 <= i < |w| :: w[i] == v[i + 1];
      if Intact(w) && (v[0] == '\\' && w != "" ==> w[0] != '\\' && w[0] != '\"') {
        forall i | 0 <= i < |v| - 1 && v[i] == '\\' ensures v[i + 1] != '\\' && v[i + 1] != '\"' {
          if i > 0 { assert w[i - 1] == '\\' && w[i] == v[i + 1]; }
        }
      }
    }
  }

  /** Unescaping undoes escaping exactly for the texts in which no backslash comes directly before a
      backslash or a double quote. */
  lemma UnescapeIff(v: string)
    ensures UnescapeFrom(Escape(v), 0) == v <==> Intact(v)
    ensures Intact(v) <==> NoRun(v, false)
  {
    UnescapeEscaped("", v);
    assert "" + Escape(v) == Escape(v);
    SwollenIff(v, false);
    NoRunIs(v, false);
  }

  // ----- Parsing -----

  function UpToNul(s: string): string {
    if s == "" || s[0] == '\0' then "" else [s[0]] + UpToNul(s[1..])
  }

  predicate NullInAnyCase(s: string) {
    && |s| == 4 && (s[0] == 'n' || s[0] == 'N') && (s[1] == 'u' || s[1] == 'U')
    && (s[2] == 'l' || s[2] == 'L') && (s[3] == 'l' || s[3] == 'L')
  }

  /** strcasecmp() against "NULL", which stops at the first NUL. */
  predicate IsNull(raw: string) {
    NullInAnyCase(UpToNul(raw))
  }

  function Value(raw: string): Option<string> {
    if IsNull(raw) then None else Some(UnescapeFrom(raw, 0))
  }

  /** The position and the variables of the loop, in which 0 stands for "unset"; `val_end` is reset
      in the very turn that sets it. */
  datatype Cursor = Cursor(at: nat, inQuotes: bool, keyStart: nat, keyEnd: nat, valStart: nat, result: Store)

  predicate Placed(c: Cursor) {
    && c.keyStart <= c.at && c.keyEnd < c.at + 1 && c.valStart <= c.at
    && (c.inQuotes ==> 0 < c.keyStart)
    && (0 < c.keyEnd ==> c.keyStart <= c.keyEnd + 1 && 0 < c.keyStart && c.keyEnd < c.at)
    && (0 < c.keyEnd && c.inQuotes ==> 0 < c.valStart)
  }

  function Fresh(at: nat, result: Store): Cursor {
    Cursor(at, false, 0, 0, 0, result)
  }

  /** A double quote that is not taken for an escaped one. */
  predicate Quote(input: string, i: nat) {
    i < |input| && input[i] == '\"' && (i == 0 || input[i - 1] != '\\')
  }

  function Advance(input: string, c: Cursor): (c': Cursor)
    requires Placed(c) && c.at < |input|
    ensures Placed(c') && c.at < c'.at
  {
    if Quote(input, c.at) then
      if !c.inQuotes then
        if c.keyStart == 0 then c.(at := c.at + 1, inQuotes := true, keyStart := c.at + 1)
        else if c.valStart == 0 then c.(at := c.at + 1, inQuotes := true, valStart := c.at + 1)
        else c.(at := c.at + 1, inQuotes := true)
      else if c.keyEnd == 0 then c.(at := c.at + 1, inQuotes := false, keyEnd := c.at - 1)
      else
        Fresh(c.at + 1, c.result[input[c.keyStart..c.keyEnd + 1] := Value(input[c.valStart..c.at])])
    else if !c.inQuotes && input[c.at] == '=' && CharAt(input, c.at + 1) == '>' then
      c.(at := c.at + 2)
    else c.(at := c.at + 1)
  }

  function Scan(input: string, c: Cursor): Store
    requires Placed(c)
    decreases |input| - c.at
  {
    if c.at >= |input| then c.result else Scan(input, Advance(input, c))
  }

  function Parsed(input: string): Store {
    Scan(input, Fresh(0, map[]))
  }

  /** The loop of `from_text_hstore`. */
  method FromTextHstore(input: string) returns (result: Store)
    ensures result == Parsed(input)
  {
    hide UnescapeFrom, IsNull, Scan;
    result := map[];
    var inQuotes := false;
    var keyStart: nat, keyEnd: nat, valStart: nat, valEnd: nat := 0, 0, 0, 0;
    var i: nat := 0;
    while i < |input|
      invariant valEnd == 0 && Placed(Cursor(i, inQuotes, keyStart, keyEnd, valStart, result))
      invariant Scan(input, Cursor(i, inQuotes, keyStart, keyEnd, valStart, result)) == Parsed(input)
      decreases |input| - i
    {
      ScanStep(input, Cursor(i, inQuotes, keyStart, keyEnd, valStart, result));
      if input[i] == '\"' && (i == 0 || input[i - 1] != '\\') {
        inQuotes := !inQuotes;
        if inQuotes {
          if keyStart == 0 {
            keyStart := i + 1;
          } else if valStart == 0 {
            valStart := i + 1;
          }
        } else {
          if keyEnd == 0 {
            keyEnd := i - 1;
          } else if valEnd == 0 {
            valEnd := i - 1;
            var rawVal := input[valStart..valEnd + 1];
            var unescaped := UnescapeHstoreText(rawVal);
            result := result[input[keyStart..keyEnd + 1] := if IsNull(rawVal) then None else Some(unescaped)];
            keyStart, keyEnd, valStart, valEnd := 0, 0, 0, 0;
          }
        }
      } else if !inQuotes && input[i] == '=' && CharAt(input, i + 1) == '>' {
        i := i + 1;
      }
      i := i + 1;
    }
    ScanEnd(input, Cursor(i, inQuotes, keyStart, keyEnd, valStart, result));
  }

  // ----- Round trip -----

  predicate Plain(k: string) {
    forall c | c in k :: !Special(c)
  }

  predicate GoodKey(k: string) {
    k != "" && Plain(k)
  }

  predicate GoodValue(v: string) {
    !EndsInBackslash(v) && NoRun(v, false) && !IsNull(v)
  }

  lemma ScanStep(input: string, c: Cursor)
    requires Placed(c) && c.at < |input|
    ensures Scan(input, c) == Scan(input, Advance(input, c))
  {
  }

  lemma ScanEnd(input: string, c: Cursor)
    requires Placed(c) && |input| <= c.at
    ensures Scan(input, c) == c.result
  {
  }

  lemma {:induction false} SkipQuoted(input: string, c: Cursor, j: nat)
    requires Placed(c) && c.at <= j <= |input| && c.inQuotes
    requires forall m: nat | c.at <= m < j :: QuoteEscaped(input, m)
    ensures Placed(c.(at := j)) && Scan(input, c) == Scan(input, c.(at := j))
    decreases j - c.at
  {
    if c.at < j {
      assert QuoteEscaped(input, c.at);
      SkipQuoted(input, c.(at := c.at + 1), j);
    }
  }

  lemma {:induction false} EscapeOfPlain(k: string)
    ensures (forall c | c in k :: !Special(c)) ==> Escape(k) == k
    ensures (exists c | c in k :: Special(c)) ==> |Escape(k)| > |k|
    ensures |Escape(k)| >= |k|
  {
    if k != "" {
      EscapeOfPlain(k[1..]);
      assert k == [k[0]] + k[1..];
      assert forall c :: c in k <==> c == k[0] || c in k[1..];
    }
  }

  /** A quoted text that does not end in a backslash, as a key: the cursor moves behind it. */
  lemma ScanKey(input: string, i: nat, k: string, result: Store)
    requires Reads(input, i, DoubleQuote(k)) && (i > 0 ==> input[i - 1] != '\\')
    requires !EndsInBackslash(k) && k != ""
    ensures var p := i + 1 + |Escape(k)|;
            && Placed(Cursor(p + 1, false, i + 1, p - 1, 0, result))
            && Scan(input, Fresh(i, result)) == Scan(input, Cursor(p + 1, false, i + 1, p - 1, 0, result))
  {
    hide Scan, Escape, Reads, EndsInBackslash, QuoteEscaped;
    ReadsQuoted(input, i, k);
    EscapeOfPlain(k);
    var p := i + 1 + |Escape(k)|;
    var c := Cursor(i + 1, true, i + 1, 0, 0, result);
    ScanStep(input, Fresh(i, result));
    assert Advance(input, Fresh(i, result)) == c;
    SkipQuoted(input, c, p);
    ScanStep(input, c.(at := p));
  }

  /** A quoted text that does not end in a backslash, as a value: the entry is stored. */
  lemma ScanValue(input: string, c: Cursor, v: string)
    requires Placed(c) && !c.inQuotes && 0 < c.keyEnd && c.valStart == 0
    requires Reads(input, c.at, DoubleQuote(v)) && (c.at > 0 ==> input[c.at - 1] != '\\') && !EndsInBackslash(v)
    ensures var next := c.at + |DoubleQuote(v)|;
            && c.keyEnd + 1 <= |input|
            && Scan(input, c)
            == Scan(input, Fresh(next, c.result[input[c.keyStart..c.keyEnd + 1] := Value(Escape(v))]))
  {
    hide Scan, Escape, Reads, EndsInBackslash, QuoteEscaped, Value;
    ReadsQuoted(input, c.at, v);
    ReadsSlice(input, c.at + 1, Escape(v));
    var p := c.at + 1 + |Escape(v)|;
    var open := c.(at := c.at + 1, inQuotes := true, valStart := c.at + 1);
    ScanStep(input, c);
    assert Advance(input, c) == open;
    SkipQuoted(input, open, p);
    ScanStep(input, open.(at := p));
  }

  lemma EntryParts(input: string, i: nat, e: Entry)
    requires Reads(input, i, EntryText(e))
    ensures Reads(input, i, DoubleQuote(e.key))
    ensures Reads(input, i + |DoubleQuote(e.key)|, "=>")
    ensures Reads(input, i + |DoubleQuote(e.key)| + 2, DoubleQuote(e.value))
  {
    hide DoubleQuote, Reads;
    var k, v := DoubleQuote(e.key), DoubleQuote(e.value);
    ReadsParts(input, i, k + "=>", v);
    ReadsParts(input, i, k, "=>");
  }

  /** What may stand between two quoted texts, or after the last. */
  predicate Gap(s: string) {
    '\"' !in s && !EndsInBackslash(s)
  }

  /** The parser passes over it up to the next quote. */
  lemma {:induction false} SkipGap(input: string, c: Cursor, j: nat)
    requires Placed(c) && !c.inQuotes && c.at <= j <= |input| && (j < |input| ==> input[j] == '\"')
    requires forall m: nat | c.at <= m < j :: input[m] != '\"'
    ensures Placed(c.(at := j)) && Scan(input, c) == Scan(input, c.(at := j))
    decreases j - c.at
  {
    if c.at < j {
      ScanStep(input, c);
      hide Scan;
      SkipGap(input, Advance(input, c), j);
    }
  }

  lemma GapInPlace(input: string, i: nat, gap: string)
    requires Reads(input, i, gap) && Gap(gap)
    ensures forall m: nat | i <= m < i + |gap| :: input[m] != '\"'
    ensures gap != "" ==> input[i + |gap| - 1] != '\\'
  {
    forall m: nat | i <= m < i + |gap| ensures input[m] != '\"' { assert gap[m - i] in gap; }
    assert gap != "" ==> gap[|gap| - 1] == input[i + |gap| - 1];
  }

  /** An entry as somebody printed it: quoted key and value, with one text between and one after. */
  datatype Printed = Printed(entry: Entry, between: string, after: string)

  predicate WellSpaced(e: Printed) {
    Gap(e.between) && Gap(e.after)
  }

  function PrintedText(e: Printed): string {
    DoubleQuote(e.entry.key) + e.between + DoubleQuote(e.entry.value) + e.after
  }

  function TextOf(printed: seq<Printed>): string {
    if printed == [] then "" else PrintedText(printed[0]) + TextOf(printed[1..])
  }

  function EntriesOf(printed: seq<Printed>): seq<Entry> {
    if printed == [] then [] else [printed[0].entry] + EntriesOf(printed[1..])
  }

  lemma PrintedParts(input: string, i: nat, e: Printed)
    requires Reads(input, i, PrintedText(e))
    ensures Reads(input, i, DoubleQuote(e.entry.key))
    ensures var j := i + |DoubleQuote(e.entry.key)|;
            Reads(input, j, e.between) && Reads(input, j + |e.between|, DoubleQuote(e.entry.value))
            && Reads(input, j + |e.between| + |DoubleQuote(e.entry.value)|, e.after)
  {
    hide DoubleQuote, Reads;
    var k, v := DoubleQuote(e.entry.key), DoubleQuote(e.entry.value);
    ReadsParts(input, i, k + e.between + v, e.after);
    ReadsParts(input, i, k + e.between, v);
    ReadsParts(input, i, k, e.between);
  }

  /** A whole entry, whose key and value do not end in a backslash: it is stored under the key as it
      was printed, with the value as it is unescaped. */
  lemma ScanPrinted(input: string, i: nat, e: Printed, result: Store)
    requires Reads(input, i, PrintedText(e)) && (i > 0 ==> input[i - 1] != '\\')
    requires Sturdy(e.entry) && WellSpaced(e)
    ensures var j := i + |PrintedText(e)| - |e.after|;
            Scan(input, Fresh(i, result))
            == Scan(input, Fresh(j, result[Escape(e.entry.key) := Value(Escape(e.entry.value))]))
  {
    hide Scan, Escape, Reads, EndsInBackslash, Value, Placed, QuoteEscaped, Gap;
    var k := e.entry.key;
    PrintedParts(input, i, e);
    ReadsQuoted(input, i, k);
    ReadsSlice(input, i + 1, Escape(k));
    ScanKey(input, i, k, result);
    EscapeOfPlain(k);
    var p := i + 1 + |Escape(k)|;
    var c := Cursor(p + 1, false, i + 1, p - 1, 0, result);
    var q := p + 1 + |e.between|;
    GapInPlace(input, p + 1, e.between);
    ReadsQuoted(input, q, e.entry.value);
    SkipGap(input, c, q);
    ScanValue(input, c.(at := q), e.entry.value);
  }

  predicate Good(e: Entry) {
    GoodKey(e.key) && GoodValue(e.value)
  }

  lemma {:induction false} UpToNulEscaped(v: string)
    ensures UpToNul(Escape(v)) == Escape(UpToNul(v))
  {
    if v != "" && v[0] != '\0' { UpToNulEscaped(v[1..]); }
  }

  lemma {:induction false} EscapeKeeps(k: string, c: char)
    requires c in k
    ensures c in Escape(k)
  {
    if k[0] != c { EscapeKeeps(k[1..], c); }
  }

  lemma NullEscaped(v: string)
    ensures IsNull(Escape(v)) <==> IsNull(v)
  {
    var u := UpToNul(v);
    UpToNulEscaped(v);
    EscapeOfPlain(u);
    if c :| c in u && Special(c) {
      EscapeKeeps(u, c);
      hide Escape;
      NullIsPlain(u, c);
      NullIsPlain(Escape(u), c);
    }
  }

  lemma NullIsPlain(s: string, c: char)
    requires c in s && Special(c)
    ensures !NullInAnyCase(s)
  {
  }

  /** What is stored for an entry is the entry exactly if key and value are good. */
  lemma StoredIff(e: Entry)
    requires e.key != "" && !EndsInBackslash(e.key) && !EndsInBackslash(e.value)
    ensures Escape(e.key) == e.key && Value(Escape(e.value)) == Some(e.value) <==> Good(e)
  {
    EscapeOfPlain(e.key);
    UnescapeIff(e.value);
    NullEscaped(e.value);
  }

  /** An entry with all of its quotes where the parser looks for them. */
  predicate Sturdy(e: Entry) {
    e.key != "" && !EndsInBackslash(e.key) && !EndsInBackslash(e.value)
  }

  /** What sturdy entries leave behind. */
  function Kept(entries: seq<Entry>, start: Store): Store {
    if entries == [] then start
    else Kept(entries[1..], start[Escape(entries[0].key) := Value(Escape(entries[0].value))])
  }

  lemma {:induction false} ScanEntries(input: string, i: nat, printed: seq<Printed>, result: Store)
    requires Reads(input, i, TextOf(printed)) && i + |TextOf(printed)| == |input|
    requires (i > 0 ==> input[i - 1] != '\\') && forall e | e in printed :: Sturdy(e.entry) && WellSpaced(e)
    ensures Scan(input, Fresh(i, result)) == Kept(EntriesOf(printed), result)
    decreases |printed|
  {
    hide Scan, PrintedText, Reads, Value, Escape, EndsInBackslash, WellSpaced, Sturdy;
    if printed == [] {
      ScanEnd(input, Fresh(i, result));
    } else {
      var e := printed[0];
      var j, stored := i + |PrintedText(e)|, result[Escape(e.entry.key) := Value(Escape(e.entry.value))];
      assert Sturdy(e.entry) && WellSpaced(e);
      ReadsParts(input, i, PrintedText(e), TextOf(printed[1..]));
      ScanPrinted(input, i, e, result);
      AfterPrinted(input, i, e);
      StartsQuoted(input, j, printed[1..]);
      SkipGap(input, Fresh(j - |e.after|, stored), j);
      ScanEntries(input, j, printed[1..], stored);
    }
  }

  lemma AfterPrinted(input: string, i: nat, e: Printed)
    requires Reads(input, i, PrintedText(e)) && WellSpaced(e)
    ensures var j := i + |PrintedText(e)|;
            |e.after| <= |PrintedText(e)| && j <= |input| && input[j - 1] != '\\'
            && forall m: nat | j - |e.after| <= m < j :: input[m] != '\"'
  {
    hide EndsInBackslash, QuoteEscaped, Escape;
    PrintedParts(input, i, e);
    var q := i + |DoubleQuote(e.entry.key)| + |e.between|;
    ReadsQuoted(input, q, e.entry.value);
    GapInPlace(input, q + |DoubleQuote(e.entry.value)|, e.after);
  }

  lemma StartsQuoted(input: string, i: nat, printed: seq<Printed>)
    requires Reads(input, i, TextOf(printed)) && i + |TextOf(printed)| == |input|
    ensures i < |input| ==> input[i] == '\"'
  {
    if printed != [] {
      assert TextOf(printed)[0] == PrintedText(printed[0])[0] == '\"';
    }
  }

  lemma {:induction false} KeptGood(entries: seq<Entry>, start: Store)
    requires forall e | e in entries :: Good(e)
    ensures Kept(entries, start) == StoreOf(entries, start)
  {
    hide Good, Escape, Value;
    if entries != [] {
      assert Good(entries[0]);
      GoodEnds(entries[0]);
      StoredIff(entries[0]);
      KeptGood(entries[1..], start[entries[0].key := Some(entries[0].value)]);
    }
  }

  lemma GoodEnds(e: Entry)
    requires Good(e)
    ensures Sturdy(e)
  {
    assert e.key[|e.key| - 1] in e.key;
  }

  /** Good entries are parsed to what they are, whoever printed them, in whatever order, and with
      whatever between them and around the arrow, as long as it has no quotes and does not end in a
      backslash. */
  lemma ParsesPrinted(printed: seq<Printed>)
    requires forall e | e in printed :: Good(e.entry) && WellSpaced(e)
    ensures Parsed(TextOf(printed)) == StoreOf(EntriesOf(printed), map[])
  {
    hide Good, Scan, TextOf, Reads, Kept, StoreOf, Sturdy, WellSpaced;
    forall e | e in printed ensures Sturdy(e.entry) { GoodEnds(e.entry); }
    ReadsItself(TextOf(printed));
    ScanEntries(TextOf(printed), 0, printed, map[]);
    GoodOnes(printed);
    KeptGood(EntriesOf(printed), map[]);
  }

  lemma {:induction false} GoodOnes(printed: seq<Printed>)
    requires forall e | e in printed :: Good(e.entry)
    ensures forall e | e in EntriesOf(printed) :: Good(e)
  {
    hide Good;
    if printed != [] { GoodOnes(printed[1..]); }
  }

  /** Entries with the same arrow everywhere, and the same separator between them. */
  function Separated(entries: seq<Entry>, arrow: string, separator: string): seq<Printed> {
    if entries == [] then []
    else
      [Printed(entries[0], arrow, if |entries| == 1 then "" else separator)] + Separated(entries[1..], arrow, separator)
  }

  lemma {:induction false} SeparatedOnes(entries: seq<Entry>, arrow: string, separator: string)
    requires Gap(arrow) && Gap(separator)
    ensures EntriesOf(Separated(entries, arrow, separator)) == entries
    ensures forall e | e in Separated(entries, arrow, separator) :: WellSpaced(e) && e.entry in entries
  {
    hide Gap;
    EmptyIsGap();
    if entries != [] {
      SeparatedOnes(entries[1..], arrow, separator);
      assert entries == [entries[0]] + entries[1..];
    }
  }

  lemma EmptyIsGap()
    ensures Gap("") && Gap("=>") && Gap(",") && Gap(", ")
  {
  }

  /** The server's own output has a comma and a space between entries. */
  function ServerText(entries: seq<Entry>): string {
    if entries == [] then ""
    else if |entries| == 1 then EntryText(entries[0])
    else EntryText(entries[0]) + ", " + ServerText(entries[1..])
  }

  lemma {:induction false} TextOfSeparated(entries: seq<Entry>)
    ensures TextOf(Separated(entries, "=>", ",")) == HstoreOut(entries)
    ensures TextOf(Separated(entries, "=>", ", ")) == ServerText(entries)
  {
    hide DoubleQuote;
    if entries != [] {
      TextOfSeparated(entries[1..]);
      if |entries| == 1 {
        assert EntryText(entries[0]) + "" + "" == EntryText(entries[0]);
      } else {
        assert Separated(entries, "=>", ",")[1..] == Separated(entries[1..], "=>", ",");
        assert Separated(entries, "=>", ", ")[1..] == Separated(entries[1..], "=>", ", ");
      }
    }
  }

  /** In whatever order good entries are printed, by the runner or by the server, the parser gives them
      back. */
  lemma RoundTrip(entries: seq<Entry>)
    requires forall e | e in entries :: Good(e)
    ensures Parsed(HstoreOut(entries)) == StoreOf(entries, map[])
    ensures Parsed(ServerText(entries)) == StoreOf(entries, map[])
  {
    hide Good, Parsed, HstoreOut, ServerText, StoreOf, WellSpaced, Gap, Separated;
    EmptyIsGap();
    TextOfSeparated(entries);
    SeparatedOnes(entries, "=>", ",");
    SeparatedOnes(entries, "=>", ", ");
    ParsesPrinted(Separated(entries, "=>", ","));
    ParsesPrinted(Separated(entries, "=>", ", "));
  }

  lemma {:induction false} StoreOfMap(entries: seq<Entry>, start: Store, m: map<string, string>)
    requires forall e | e in entries :: e.key in m && m[e.key] == e.value
    requires forall k | k in start :: k in m && start[k] == Some(m[k])
    ensures var s := StoreOf(entries, start);
            (forall k | k in s :: k in m && s[k] == Some(m[k]))
            && (forall k | k in start :: k in s)
            && (forall e | e in entries :: e.key in s)
  {
    if entries != [] {
      StoreOfMap(entries[1..], start[entries[0].key := Some(entries[0].value)], m);
    }
  }

  /** An iteration over a map, in whatever order: each of its entries once. */
  ghost predicate Iterates(entries: seq<Entry>, m: map<string, string>) {
    |entries| == |m|
    && (forall e | e in entries :: e.key in m && m[e.key] == e.value)
    && (forall k | k in m :: Entry(k, m[k]) in entries)
    && (forall i, j | 0 <= i < j < |entries| :: entries[i].key != entries[j].key)
  }

  function Wanted(m: map<string, string>): Store {
    map k | k in m :: Some(m[k])
  }

  /** Any map with good keys and values comes back, whichever way its entries are iterated. */
  lemma MapRoundTrip(m: map<string, string>, entries: seq<Entry>)
    requires Iterates(entries, m) && forall e | e in entries :: Good(e)
    ensures Parsed(HstoreOut(entries)) == Wanted(m) && Parsed(ServerText(entries)) == Wanted(m)
  {
    hide Good, HstoreOut, ServerText, Parsed;
    RoundTrip(entries);
    StoreOfMap(entries, map[], m);
    forall k | k in m ensures k in StoreOf(entries, map[]) { assert Entry(k, m[k]) in entries; }
  }

  // ----- And not beyond: quotes that are not seen -----

  ghost function QuotesFrom(input: string, i: nat): nat
    decreases |input| - i
  {
    if i >= |input| then 0 else Count(Quote(input, i)) + QuotesFrom(input, i + 1)
  }

  lemma {:induction false} NoQuotesBetween(input: string, i: nat, j: nat)
    requires i <= j <= |input| && forall m: nat | i <= m < j :: QuoteEscaped(input, m)
    ensures QuotesFrom(input, i) == QuotesFrom(input, j)
    decreases j - i
  {
    if i < j {
      assert QuoteEscaped(input, i);
      NoQuotesBetween(input, i + 1, j);
    }
  }

  /** How many quotes the parser must still see before it stores anything. */
  function QuotesNeeded(c: Cursor): nat {
    if c.keyStart == 0 then 4
    else if c.keyEnd == 0 then if c.inQuotes then 3 else 4
    else if c.inQuotes then 1 else 2
  }

  /** Whatever the text, every entry stored takes four quotes. */
  lemma {:induction false} StoresAtMost(input: string, c: Cursor)
    requires Placed(c)
    ensures 4 * |Scan(input, c)| <= 4 * |c.result| + QuotesFrom(input, c.at) + 4 - QuotesNeeded(c)
    decreases |input| - c.at
  {
    hide Value;
    if c.at < |input| {
      assert QuotesFrom(input, c.at) == Count(Quote(input, c.at)) + QuotesFrom(input, c.at + 1);
      var next := Advance(input, c);
      if next.at == c.at + 2 && c.at + 1 < |input| {
        assert QuotesFrom(input, c.at + 1) == QuotesFrom(input, c.at + 2);
      }
      StoresAtMost(input, next);
    }
  }

  /** The unescaped quotes of a double-quoted text, followed by whatever is no quote. */
  lemma QuotesOfQuoted(input: string, i: nat, x: string)
    requires Reads(input, i, DoubleQuote(x)) && (i > 0 ==> input[i - 1] != '\\')
    ensures QuotesFrom(input, i)
         == 1 + Count(!EndsInBackslash(x)) + QuotesFrom(input, i + |DoubleQuote(x)|)
  {
    hide QuotesFrom, Escape, EndsInBackslash, QuoteEscaped, Reads;
    ReadsQuoted(input, i, x);
    var p := i + 1 + |Escape(x)|;
    QuotesStep(input, i);
    NoQuotesBetween(input, i + 1, p);
    QuotesStep(input, p);
  }

  lemma QuotesStep(input: string, i: nat)
    requires i < |input|
    ensures QuotesFrom(input, i) == Count(Quote(input, i)) + QuotesFrom(input, i + 1)
  {
  }

  lemma QuotesOfEntry(input: string, i: nat, e: Entry)
    requires Reads(input, i, EntryText(e)) && (i > 0 ==> input[i - 1] != '\\')
    ensures QuotesFrom(input, i)
         == 2 + Count(!EndsInBackslash(e.key)) + Count(!EndsInBackslash(e.value))
          + QuotesFrom(input, i + |EntryText(e)|)
  {
    hide QuotesFrom, DoubleQuote, EndsInBackslash, Reads;
    var k := i + |DoubleQuote(e.key)|;
    EntryParts(input, i, e);
    QuotesOfQuoted(input, i, e.key);
    ArrowInPlace(input, k);
    QuotesStep(input, k);
    QuotesStep(input, k + 1);
    QuotesOfQuoted(input, k + 2, e.value);
  }

  function QuotesIn(entries: seq<Entry>): nat {
    if entries == [] then 0
    else
      2 + Count(!EndsInBackslash(entries[0].key)) + Count(!EndsInBackslash(entries[0].value)) + QuotesIn(entries[1..])
  }

  lemma {:induction false} QuotesOfEntries(input: string, i: nat, entries: seq<Entry>)
    requires Reads(input, i, HstoreOut(entries)) && i + |HstoreOut(entries)| == |input|
    requires i > 0 ==> input[i - 1] != '\\'
    ensures QuotesFrom(input, i) == QuotesIn(entries)
    decreases |entries|
  {
    hide QuotesFrom, EntryText, Reads, EndsInBackslash;
    if entries == [] {
      NoQuotesLeft(input);
    } else {
      var e := entries[0];
      var j := i + |EntryText(e)|;
      if |entries| == 1 {
        QuotesOfEntry(input, i, e);
        NoQuotesLeft(input);
      } else {
        ReadsParts(input, i, EntryText(e) + ",", HstoreOut(entries[1..]));
        ReadsParts(input, i, EntryText(e), ",");
        QuotesOfEntry(input, i, e);
        CommaInPlace(input, j);
        QuotesStep(input, j);
        QuotesOfEntries(input, j + 1, entries[1..]);
      }
    }
  }

  lemma {:induction false} QuotesInIs(entries: seq<Entry>)
    ensures QuotesIn(entries) <= 4 * |entries|
    ensures QuotesIn(entries) == 4 * |entries| <==>
              forall e | e in entries :: !EndsInBackslash(e.key) && !EndsInBackslash(e.value)
  {
    hide EndsInBackslash;
    if entries != [] {
      QuotesInIs(entries[1..]);
      assert entries == [entries[0]] + entries[1..];
    }
  }

  lemma CommaInPlace(input: string, i: nat)
    requires Reads(input, i, ",")
    ensures input[i] == ','
  {
    assert ","[0] == input[i];
  }

  lemma NoQuotesLeft(input: string)
    ensures QuotesFrom(input, |input|) == 0
  {
  }

  lemma ReadsItself(input: string)
    ensures Reads(input, 0, input)
  {
  }

  lemma ArrowInPlace(input: string, i: nat)
    requires Reads(input, i, "=>")
    ensures i + 2 <= |input| && input[i] == '=' && input[i + 1] == '>'
  {
    assert "=>"[0] == input[i] && "=>"[1] == input[i + 1];
  }

  /** A backslash at the end of any key or value costs an entry. */
  lemma BackslashLosesEntry(entries: seq<Entry>, e: Entry)
    requires e in entries && (EndsInBackslash(e.key) || EndsInBackslash(e.value))
    ensures |Parsed(HstoreOut(entries))| < |entries|
  {
    hide Scan, QuotesFrom, EndsInBackslash, HstoreOut, Reads, QuotesIn;
    var input := HstoreOut(entries);
    ReadsItself(input);
    QuotesOfEntries(input, 0, entries);
    QuotesInIs(entries);
    StoresAtMost(input, Fresh(0, map[]));
  }

  /** So does an empty key in front, the end of which is not seen. */
  lemma EmptyKeyLosesEntry(entries: seq<Entry>)
    requires entries != [] && entries[0].key == ""
    ensures |Parsed(HstoreOut(entries))| < |entries|
  {
    var input := HstoreOut(entries);
    StartsWithQuotes(entries);
    ReadsItself(input);
    QuotesOfEntries(input, 0, entries);
    QuotesInIs(entries);
    QuotesStep(input, 0);
    QuotesStep(input, 1);
    hide Scan, QuotesFrom, HstoreOut, QuotesIn;
    var start := Fresh(0, map[]);
    ScanStep(input, start);
    var open := Cursor(1, true, 1, 0, 0, map[]);
    assert Advance(input, start) == open;
    ScanStep(input, open);
    assert Advance(input, open) == Cursor(2, false, 1, 0, 0, map[]);
    StoresAtMost(input, Cursor(2, false, 1, 0, 0, map[]));
  }

  lemma StartsWithQuotes(entries: seq<Entry>)
    requires entries != [] && entries[0].key == ""
    ensures var input := HstoreOut(entries); |input| > 1 && input[0] == input[1] == '\"'
  {
    assert DoubleQuote("") == "\"\"";
  }

  // ----- And not beyond: texts that change -----

  lemma {:induction false} KeptOther(entries: seq<Entry>, start: Store, k: string)
    requires forall e | e in entries :: Escape(e.key) != k
    ensures k in Kept(entries, start) <==> k in start
    ensures k in start ==> Kept(entries, start)[k] == start[k]
  {
    hide Escape, Value;
    if entries != [] {
      assert entries[0] in entries;
      KeptOther(entries[1..], start[Escape(entries[0].key) := Value(Escape(entries[0].value))], k);
    }
  }

  lemma {:induction false} KeptHas(entries: seq<Entry>, start: Store, e: Entry)
    requires e in entries
    ensures Escape(e.key) in Kept(entries, start)
    ensures (forall i, j | 0 <= i < j < |entries| :: Escape(entries[i].key) != Escape(entries[j].key)) ==>
              Kept(entries, start)[Escape(e.key)] == Value(Escape(e.value))
  {
    hide Escape, Value;
    var next := start[Escape(entries[0].key) := Value(Escape(entries[0].value))];
    if e in entries[1..] {
      KeptHas(entries[1..], next, e);
    } else {
      KeptStays(entries[1..], next, Escape(e.key));
      if forall i, j | 0 <= i < j < |entries| :: Escape(entries[i].key) != Escape(entries[j].key) {
        KeptOther(entries[1..], next, Escape(e.key));
      }
    }
  }

  lemma {:induction false} KeptStays(entries: seq<Entry>, start: Store, k: string)
    requires k in start
    ensures k in Kept(entries, start)
  {
    hide Escape, Value;
    if entries != [] {
      KeptStays(entries[1..], start[Escape(entries[0].key) := Value(Escape(entries[0].value))], k);
    }
  }

  lemma {:induction false} Longest(keys: set<string>) returns (n: nat)
    ensures forall k | k in keys :: |k| <= n
  {
    n := 0;
    if k :| k in keys {
      var rest := Longest(keys - {k});
      n := if |k| > rest then |k| else rest;
      forall other | other in keys ensures |other| <= n { assert other == k || other in keys - {k}; }
    }
  }

  /** A key with something to escape comes back as a longer one of the same kind, and that cannot go on
      for ever within one map. */
  lemma {:induction false} NoEndlessKeys(keys: set<string>, n: nat, k: string)
    requires forall other | other in keys :: |other| <= n && (!Plain(other) ==> Escape(other) in keys)
    requires k in keys
    ensures Plain(k)
    decreases n - |k|
  {
    hide Escape, Plain;
    if !Plain(k) {
      EscapeGrows(k);
      NoEndlessKeys(keys, n, Escape(k));
    }
  }

  lemma EscapeGrows(k: string)
    requires !Plain(k)
    ensures |Escape(k)| > |k| && !Plain(Escape(k))
  {
    hide Escape;
    EscapeOfPlain(k);
    var c :| c in k && Special(c);
    EscapeKeeps(k, c);
  }

  lemma {:induction false} SomeIteration(m: map<string, string>) returns (entries: seq<Entry>)
    ensures Iterates(entries, m)
  {
    if k :| k in m {
      var rest := SomeIteration(m - {k});
      entries := FirstThen(m, k, rest);
    } else {
      entries := [];
    }
  }

  lemma FirstThen(m: map<string, string>, k: string, rest: seq<Entry>) returns (entries: seq<Entry>)
    requires k in m && Iterates(rest, m - {k})
    ensures Iterates(entries, m) && entries != [] && entries[0].key == k
  {
    var fewer := m - {k};
    entries := [Entry(k, m[k])] + rest;
    OneLess(m, k);
    forall e | e in entries ensures e.key in m && m[e.key] == e.value {
      if e != Entry(k, m[k]) { assert e in rest && e.key in fewer; }
    }
    forall k' | k' in m ensures Entry(k', m[k']) in entries {
      if k' != k { assert k' in fewer && Entry(k', fewer[k']) in rest; }
    }
    forall i, j | 0 <= i < j < |entries| ensures entries[i].key != entries[j].key {
      assert rest[j - 1] in rest && rest[j - 1].key in fewer;
      if i > 0 { assert rest[i - 1].key != rest[j - 1].key; }
    }
  }

  lemma OneLess(m: map<string, string>, k: string)
    requires k in m
    ensures |m - {k}| + 1 == |m|
  {
    assert (m - {k}).Keys == m.Keys - {k};
  }

  lemma WantedSize(m: map<string, string>)
    ensures |Wanted(m)| == |m|
  {
    assert Wanted(m).Keys == m.Keys;
  }

  lemma SturdyKept(entries: seq<Entry>)
    requires forall e | e in entries :: Sturdy(e)
    ensures Parsed(HstoreOut(entries)) == Kept(entries, map[])
  {
    hide Scan, HstoreOut, Kept, Reads, Separated, TextOf, Gap, WellSpaced, Sturdy;
    EmptyIsGap();
    TextOfSeparated(entries);
    SeparatedOnes(entries, "=>", ",");
    ReadsItself(HstoreOut(entries));
    ScanEntries(HstoreOut(entries), 0, Separated(entries, "=>", ","), map[]);
  }

  /** A map without an empty key that comes back from one iteration is good altogether. */
  lemma OneIterationTells(m: map<string, string>, entries: seq<Entry>)
    requires Iterates(entries, m) && "" !in m && Parsed(HstoreOut(entries)) == Wanted(m)
    ensures forall e | e in entries :: Good(e)
  {
    hide Escape, Value, Parsed, HstoreOut, Good, Plain, EndsInBackslash, Kept;
    WantedSize(m);
    forall e | e in entries ensures Sturdy(e) {
      if EndsInBackslash(e.key) || EndsInBackslash(e.value) { BackslashLosesEntry(entries, e); }
    }
    SturdyKept(entries);
    var n := Longest(m.Keys);
    forall k | k in m ensures Escape(k) in m {
      KeptHas(entries, map[], Entry(k, m[k]));
    }
    forall e | e in entries ensures Escape(e.key) == e.key {
      NoEndlessKeys(m.Keys, n, e.key);
      PlainStays(e.key);
    }
    forall e | e in entries ensures Good(e) {
      assert forall i | 0 <= i < |entries| :: entries[i] in entries;
      KeptHas(entries, map[], e);
      StoredIff(e);
    }
  }

  lemma PlainStays(k: string)
    requires Plain(k)
    ensures Escape(k) == k
  {
    EscapeOfPlain(k);
  }

  /** "NULL" in whatever case, up to the first NUL if there is one. */
  predicate SpellsNull(v: string) {
    && |v| >= 4 && v[0] in "nN" && v[1] in "uU" && v[2] in "lL" && v[3] in "lL"
    && (|v| == 4 || v[4] == '\0')
  }

  lemma SpellsNullIff(v: string)
    ensures SpellsNull(v) <==> IsNull(v)
  {
    UpToNulIs(v);
  }

  lemma {:induction false} UpToNulIs(s: string)
    ensures |UpToNul(s)| <= |s| && UpToNul(s) == s[..|UpToNul(s)|] && '\0' !in UpToNul(s)
    ensures |UpToNul(s)| < |s| ==> s[|UpToNul(s)|] == '\0'
  {
    if s != "" && s[0] != '\0' {
      UpToNulIs(s[1..]);
      var u := UpToNul(s[1..]);
      assert UpToNul(s) == [s[0]] + u && s[..|u| + 1] == [s[0]] + s[1..][..|u|];
    }
  }

  /** The domain is exact: a map comes back from every order of iteration if and only if all its keys
      are non-empty and free of quotes and backslashes, and none of its values ends in a backslash, has
      a backslash directly before a backslash or quote, or is a case variant of NULL. */
  lemma MapRoundTripIff(m: map<string, string>)
    ensures (forall entries | Iterates(entries, m) :: Parsed(HstoreOut(entries)) == Wanted(m))
            <==> (forall k | k in m ::
                    k != "" && '\"' !in k && '\\' !in k
                    && (m[k] != "" ==> m[k][|m[k]| - 1] != '\\') && Intact(m[k]) && !SpellsNull(m[k]))
  {
    hide Good, Parsed, HstoreOut;
    GoodMapIff(m);
    GoodIsAll(m);
  }

  lemma GoodIsAll(m: map<string, string>)
    ensures (forall k | k in m :: Good(Entry(k, m[k])))
            <==> (forall k | k in m ::
                    k != "" && '\"' !in k && '\\' !in k
                    && (m[k] != "" ==> m[k][|m[k]| - 1] != '\\') && Intact(m[k]) && !SpellsNull(m[k]))
  {
    hide Escape, IsNull, NoRun, Intact, SpellsNull, UnescapeFrom;
    forall k | k in m
      ensures Good(Entry(k, m[k]))
              <==> (k != "" && '\"' !in k && '\\' !in k
                    && (m[k] != "" ==> m[k][|m[k]| - 1] != '\\') && Intact(m[k]) && !SpellsNull(m[k]))
    {
      UnescapeIff(m[k]);
      SpellsNullIff(m[k]);
    }
  }

  lemma GoodMapIff(m: map<string, string>)
    ensures (forall entries | Iterates(entries, m) :: Parsed(HstoreOut(entries)) == Wanted(m))
            <==> forall k | k in m :: Good(Entry(k, m[k]))
  {
    hide Good, Parsed, HstoreOut;
    if forall k | k in m :: Good(Entry(k, m[k])) {
      forall entries | Iterates(entries, m) ensures Parsed(HstoreOut(entries)) == Wanted(m) {
        forall e | e in entries ensures Good(e) { assert e == Entry(e.key, m[e.key]); }
        MapRoundTrip(m, entries);
      }
    }
    if forall entries | Iterates(entries, m) :: Parsed(HstoreOut(entries)) == Wanted(m) {
      WantedSize(m);
      if "" in m {
        var rest := SomeIteration(m - {""});
        var entries := FirstThen(m, "", rest);
        EmptyKeyLosesEntry(entries);
        assert false;
      } else {
        var entries := SomeIteration(m);
        OneIterationTells(m, entries);
      }
    }
  }
}
