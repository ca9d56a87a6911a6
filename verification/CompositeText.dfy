/**
 Text form of composite values (section 8.16.6 of the PostgreSQL documentation) and the cursor-driven
 parser that takes NOTIFY payloads apart.
 */
module CompositeText {
  import opened Prelude

  type Field = Option<string>

  // ----- What PostgreSQL prints -----

  predicate NeedsQuoting(c: char) {
    c in "(),\"\\" || c in " \t\n\r\U{0B}\U{0C}"
  }

  /** A field that is printed as it is: NULL as nothing at all, text without any special character. */
  predicate Plain(f: Field) {
    f.Some? ==> f.value != "" && forall c | c in f.value :: !NeedsQuoting(c)
  }

  function FieldText(f: Field): string {
    if f.Some? then f.value else ""
  }

  function Closing(fields: seq<Field>): string
    requires |fields| > 0
  {
    if |fields| == 1 then FieldText(fields[0]) + ")"
    else FieldText(fields[0]) + "," + Closing(fields[1..])
  }

  /** `row(...)::text` for fields that need no quoting. */
  function AsTextCompositeValue(fields: seq<Field>): string
    requires |fields| > 0
  {
    "(" + Closing(fields)
  }

  // ----- What the parser makes of it -----

  /** The two positions use 0 for "unset"; between two characters `end_pos` always is. */
  datatype Cursor = Cursor(depth: int, inQuotes: bool, startPos: nat, fields: seq<Field>)

  predicate Shaped(input: string) {
    |input| > 1 && input[0] == '(' && input[|input| - 1] == ')'
  }

  predicate Placed(input: string, i: nat, c: Cursor) {
    i <= |input| && c.startPos <= i && (i == 0 ==> !c.inQuotes) && (0 < i ==> 0 < c.startPos)
  }

  /** The field that ends just before position i. */
  function Cut(input: string, i: nat, c: Cursor): Cursor
    requires i < |input| && Placed(input, i, c)
    ensures Placed(input, i + 1, Cut(input, i, c)) || i == 0
  {
    if i <= 1 || c.startPos == 0 then c  // an end position of 0 does not count as one
    else
      c.(startPos := i + 1,
      fields := c.fields + [if i == c.startPos then None else Some(input[c.startPos..i])])
  }

  function Advance(input: string, i: nat, c: Cursor): Cursor
    requires Shaped(input) && i < |input| && Placed(input, i, c) && (i == 0 ==> c.depth == 0)
    ensures Placed(input, i + 1, Advance(input, i, c))
  {
    if input[i] == '(' && !c.inQuotes then
      c.(depth := c.depth + 1, startPos := if c.depth == 0 then i + 1 else c.startPos)
    else if input[i] == ')' && !c.inQuotes then
      (if c.depth == 1 then Cut(input, i, c) else c).(depth := c.depth - 1)
    else if input[i] == ',' && !c.inQuotes then Cut(input, i, c)
    else if input[i] == '\"' && input[i - 1] != '\\' then
      if c.inQuotes then Cut(input, i, c).(inQuotes := false)
      else c.(startPos := i + 1, inQuotes := true)
    else c
  }

  function Scan(input: string, i: nat, c: Cursor): seq<Field>
    requires Shaped(input) && Placed(input, i, c) && (i == 0 ==> c.depth == 0)
    decreases |input| - i
  {
    if i == |input| then c.fields else Scan(input, i + 1, Advance(input, i, c))
  }

  const START: Cursor := Cursor(0, false, 0, [])

  function Parsed(input: string): seq<Field>
    requires Shaped(input)
  {
    Scan(input, 0, START)
  }

  /** The loop of `from_text_composite_value`; the caller must pass something in parentheses. */
  method FromTextCompositeValue(input: string) returns (result: seq<Field>)
    requires Shaped(input)
    ensures result == Parsed(input)
  {
    result := [];
    var depth, inQuotes := 0, false;
    var startPos: nat, endPos: nat := 0, 0;
    var i := 0;
    while i < |input|
      invariant 0 <= i <= |input| && endPos == 0 && (i == 0 ==> depth == 0)
      invariant Placed(input, i, Cursor(depth, inQuotes, startPos, result))
      invariant Scan(input, i, Cursor(depth, inQuotes, startPos, result)) == Parsed(input)
    {
      if input[i] == '(' && !inQuotes {
        depth := depth + 1;
        if depth == 1 {
          startPos := i + 1;
        }
      } else if input[i] == ')' && !inQuotes {
        if depth == 1 && endPos == 0 {
          endPos := i - 1;
        }
        depth := depth - 1;
      } else if input[i] == ',' && !inQuotes {
        endPos := i - 1;
      } else if input[i] == '\"' && input[i - 1] != '\\' {
        if inQuotes {
          endPos := i - 1;
          inQuotes := false;
        } else {
          startPos := i + 1;
          inQuotes := true;
        }
      }
      if startPos > 0 && endPos > 0 {
        result := result + [if endPos == startPos - 1 then None else Some(input[startPos..endPos + 1])];
        startPos := i + 1;
        endPos := 0;
      }
      i := i + 1;
    }
  }

  // ----- Round trip -----

  lemma {:induction false} SkipPlain(input: string, i: nat, j: nat, c: Cursor)
    requires Shaped(input) && 0 < i <= j <= |input| && Placed(input, i, c) && !c.inQuotes
    requires forall m | i <= m < j :: !NeedsQuoting(input[m])
    ensures Scan(input, i, c) == Scan(input, j, c)
    decreases j - i
  {
    if i < j { SkipPlain(input, i + 1, j, c); }
  }

  /** A printed field somewhere in the input has no character the parser acts on. */
  lemma PlainText(input: string, i: nat, f: Field)
    requires Plain(f) && i + |FieldText(f)| <= |input| && input[i..i + |FieldText(f)|] == FieldText(f)
    ensures forall m | i <= m < i + |FieldText(f)| :: !NeedsQuoting(input[m])
  {
    forall m | i <= m < i + |FieldText(f)| ensures !NeedsQuoting(input[m]) {
      assert input[m] == FieldText(f)[m - i];
    }
  }

  /** One field and the delimiter after it. */
  lemma ScanField(input: string, i: nat, j: nat, c: Cursor, f: Field)
    requires Shaped(input) && 0 < i && Plain(f) && j == i + |FieldText(f)| < |input|
    requires input[i..j] == FieldText(f) && input[j] in ",)"
    requires c.startPos == i && !c.inQuotes && c.depth == 1 && (i == 1 ==> f.Some?)
    ensures Scan(input, i, c)
         == Scan(input, j + 1, Cursor(if input[j] == ',' then 1 else 0, false, j + 1, c.fields + [f]))
  {
    PlainText(input, i, f);
    SkipPlain(input, i, j, c);
    assert Advance(input, j, c) == Cursor(if input[j] == ',' then 1 else 0, false, j + 1, c.fields + [f]);
  }

  lemma FieldInPlace(input: string, i: nat, rest: seq<Field>)
    requires i <= |input| && |rest| > 0 && input[i..] == Closing(rest)
    ensures var j := i + |FieldText(rest[0])|;
            && j < |input| && input[i..j] == FieldText(rest[0])
            && (if |rest| == 1 then j + 1 == |input| && input[j] == ')'
                else input[j] == ',' && input[j + 1..] == Closing(rest[1..]))
  {
    var text := FieldText(rest[0]);
    var j := i + |text|;
    assert input[i..j] == input[i..][..|text|];
    assert input[j] == input[i..][|text|];
    assert input[j + 1..] == input[i..][|text| + 1..];
  }

  /** From the start of a field to the end of the text, given what follows is printed fields. */
  lemma {:induction false} ScanFields(input: string, i: nat, c: Cursor, rest: seq<Field>)
    requires Shaped(input) && 0 < i <= |input| && |rest| > 0 && input[i..] == Closing(rest)
    requires forall f | f in rest :: Plain(f)
    requires c.startPos == i && !c.inQuotes && c.depth == 1 && (i == 1 ==> rest[0].Some?)
    ensures Scan(input, i, c) == c.fields + rest
    decreases |rest|
  {
    hide Scan, Closing, FieldText, Plain, Shaped, Placed;
    var f := rest[0];
    var j := i + |FieldText(f)|;
    assert Plain(f);
    FieldInPlace(input, i, rest);
    CursorsPlaced(input, i, j, c, c.fields + [f]);
    ScanField(input, i, j, c, f);
    if |rest| == 1 {
      assert rest == [f];
      ScanEnd(input, Cursor(0, false, j + 1, c.fields + [f]));
    } else {
      ScanFields(input, j + 1, Cursor(1, false, j + 1, c.fields + [f]), rest[1..]);
      assert rest == [f] + rest[1..];
    }
  }

  lemma CursorsPlaced(input: string, i: nat, j: nat, c: Cursor, fields: seq<Field>)
    requires 0 < i <= j < |input| && c.startPos == i
    ensures Placed(input, i, c)
    ensures Placed(input, j + 1, Cursor(0, false, j + 1, fields))
    ensures Placed(input, j + 1, Cursor(1, false, j + 1, fields))
  {
  }

  lemma ScanEnd(input: string, c: Cursor)
    requires Shaped(input) && Placed(input, |input|, c)
    ensures Scan(input, |input|, c) == c.fields
  {
  }

  lemma {:induction false} FieldsOnlyGrow(input: string, i: nat, c: Cursor)
    requires Shaped(input) && Placed(input, i, c) && (i == 0 ==> c.depth == 0)
    ensures c.fields <= Scan(input, i, c)
    decreases |input| - i
  {
    if i < |input| { FieldsOnlyGrow(input, i + 1, Advance(input, i, c)); }
  }

  lemma ClosingEnds(fields: seq<Field>)
    requires |fields| > 0
    ensures |Closing(fields)| > 0 && Closing(fields)[|Closing(fields)| - 1] == ')'
  {
  }

  /** A NULL in front is not seen: whatever the first field becomes, it is not NULL. */
  lemma NullInFrontIsLost(fields: seq<Field>)
    requires |fields| > 0 && fields[0].None? && forall f | f in fields :: Plain(f)
    requires Shaped(AsTextCompositeValue(fields))
    ensures Parsed(AsTextCompositeValue(fields)) != fields
  {
    var input := AsTextCompositeValue(fields);
    var c := Advance(input, 0, START);
    if |fields| == 1 {
      assert input == "()";
      assert Scan(input, 1, c) == Scan(input, 2, Advance(input, 1, c)) == [];
    } else {
      assert Parsed(input) == Scan(input, 1, c);
      assert input[1] == ',' && Advance(input, 1, c) == c == Cursor(1, false, 1, []);
      assert Scan(input, 1, c) == Scan(input, 2, c);
      assert input[2..] == Closing(fields[1..]);
      assert Plain(fields[1]);
      SwallowsComma(input, c, fields[1..]);
    }
  }

  /** The comma after a NULL in front becomes part of the first field. */
  lemma SwallowsComma(input: string, c: Cursor, rest: seq<Field>)
    requires Shaped(input) && |input| > 2 && c == Cursor(1, false, 1, []) && |rest| > 0 && Plain(rest[0])
    requires input[2..] == Closing(rest)
    ensures |Scan(input, 2, c)| > 0 && Scan(input, 2, c)[0].Some?
  {
    hide Scan, Closing, Plain, FieldText;
    var j := 2 + |FieldText(rest[0])|;
    FieldInPlace(input, 2, rest);
    PlainText(input, 2, rest[0]);
    SkipPlain(input, 2, j, c);
    ScanStep(input, j, c);
    FieldsOnlyGrow(input, j + 1, Advance(input, j, c));
    assert Advance(input, j, c).fields == [Some(input[1..j])];
  }

  lemma ScanStep(input: string, i: nat, c: Cursor)
    requires Shaped(input) && 0 < i < |input| && Placed(input, i, c)
    ensures Scan(input, i, c) == Scan(input, i + 1, Advance(input, i, c))
  {
  }

  /** For fields that need no quoting the parser inverts the printer, with NULLs anywhere but in
      front; and a NULL in front it never gets right. */
  lemma RoundTripIff(fields: seq<Field>)
    requires |fields| > 0 && forall f | f in fields :: Plain(f)
    ensures Shaped(AsTextCompositeValue(fields))
    ensures Parsed(AsTextCompositeValue(fields)) == fields <==> fields[0].Some?
  {
    var input := AsTextCompositeValue(fields);
    ClosingEnds(fields);
    if fields[0].Some? {
      assert input[1..] == Closing(fields);
      ScanFields(input, 1, Advance(input, 0, START), fields);
    } else {
      NullInFrontIsLost(fields);
    }
  }
}
