/**
 Text form of one-dimensional arrays (section 8.15.6 of the PostgreSQL documentation): the printer
 `as_text_array` and the cursor-driven parser `from_text_array`.
 */
module ArrayText {
  import opened Quoting

  // ----- Printing -----

  /** PostgreSQL quotes some members and leaves others bare; the runner quotes them all. */
  datatype Member = Quoted(text: string) | Bare(text: string)

  predicate Delimits(c: char) {
    c == '{' || c == '}' || c == ',' || c == '\"'
  }

  predicate WellFormed(m: Member) {
    m.Bare? ==> m.text != "" && forall c | c in m.text :: !Delimits(c)
  }

  function MemberText(m: Member): string {
    if m.Quoted? then DoubleQuote(m.text) else m.text
  }

  function Closing(members: seq<Member>): string
    requires |members| > 0
  {
    if |members| == 1 then MemberText(members[0]) + "}"
    else MemberText(members[0]) + "," + Closing(members[1..])
  }

  function ArrayOut(members: seq<Member>): string {
    if members == [] then "{}" else "{" + Closing(members)
  }

  function AllQuoted(xs: seq<string>): (members: seq<Member>)
    ensures |members| == |xs|
  {
    seq(|xs|, i requires 0 <= i < |xs| => Quoted(xs[i]))
  }

  function Joined(xs: seq<string>): string {
    if xs == [] then ""
    else Joined(xs[..|xs| - 1]) + (if |xs| > 1 then "," else "") + DoubleQuote(xs[|xs| - 1])
  }

  lemma {:induction false} JoinedIsClosing(xs: seq<string>)
    requires xs != []
    ensures Joined(xs) + "}" == Closing(AllQuoted(xs))
  {
    hide Escape;
    if |xs| > 1 {
      JoinedStep(xs);
      JoinedIsClosing(xs[1..]);
      var members := AllQuoted(xs);
      assert members[1..] == AllQuoted(xs[1..]);
      assert Closing(members) == DoubleQuote(xs[0]) + "," + Closing(members[1..]);
    }
  }

  lemma {:induction false} JoinedStep(xs: seq<string>)
    requires |xs| > 1
    ensures Joined(xs) == DoubleQuote(xs[0]) + "," + Joined(xs[1..])
  {
    var init := xs[..|xs| - 1];
    if |xs| == 2 {
      assert Joined(init) == DoubleQuote(xs[0]);
      assert Joined(xs[1..]) == DoubleQuote(xs[1]);
    } else {
      JoinedStep(init);
      assert init[1..] == xs[1..][..|xs| - 2];
    }
  }

  /** The loop of `as_text_array`. */
  method AsTextArray(xs: seq<string>) returns (text: string)
    ensures text == ArrayOut(AllQuoted(xs))
  {
    text := "{";
    for i := 0 to |xs|
      invariant text == "{" + Joined(xs[..i])
    {
      if i > 0 {
        text := text + ",";
      }
      text := text + DoubleQuote(xs[i]);
      assert xs[..i + 1][..i] == xs[..i];
    }
    text := text + "}";
    assert xs[..|xs|] == xs;
    if xs != [] { JoinedIsClosing(xs); }
  }

  // ----- Parsing -----

  predicate Shaped(input: string) {
    |input| > 1 && input[0] == '{' && input[|input| - 1] == '}'
  }

  /** The position and the variables of the loop.  Between two turns `end_pos` is 0, which stands
      for "unset". */
  datatype Cursor = Cursor(at: nat, depth: int, inQuotes: bool, startPos: nat, result: seq<string>)

  predicate Placed(c: Cursor) {
    0 < c.startPos && (0 < c.at ==> c.startPos <= c.at) && (c.at == 0 ==> !c.inQuotes && c.depth == 0)
  }

  const START: Cursor := Cursor(0, 0, false, 1, [])

  /** The member that ends just before the cursor is pushed, and the cursor goes to `next`; an end
      position of 0 does not count as one. */
  function Push(input: string, c: Cursor, next: nat, depth: int, startPos: nat): Cursor
    requires Placed(c) && c.at < |input|
  {
    if c.at <= 1 then Cursor(c.at + 1, depth, false, c.startPos, c.result)
    else Cursor(next, depth, false, startPos, c.result + [Strip(input[c.startPos..c.at])])
  }

  /** One turn of the loop; leaving it puts the cursor at the end. */
  function Advance(input: string, c: Cursor): (c': Cursor)
    requires Shaped(input) && Placed(c) && c.at < |input|
    ensures Placed(c') && c.at < c'.at
  {
    if input[c.at] == '{' && !c.inQuotes then
      c.(at := c.at + 1, depth := c.depth + 1, startPos := if c.depth == 0 then c.at + 1 else c.startPos)
    else if input[c.at] == '}' && !c.inQuotes then
      if c.depth == 1 then Push(input, c, |input|, c.depth - 1, c.startPos)
      else c.(at := c.at + 1, depth := c.depth - 1)
    else if input[c.at] == ',' && !c.inQuotes then Push(input, c, c.at + 1, c.depth, c.at + 1)
    else if input[c.at] == '\"' && input[c.at - 1] != '\\' then
      if c.inQuotes then Push(input, c, c.at + 2, c.depth, c.at + 2)
      else c.(at := c.at + 1, startPos := c.at + 1, inQuotes := true)
    else c.(at := c.at + 1)
  }

  function Scan(input: string, c: Cursor): seq<string>
    requires Shaped(input) && Placed(c)
    decreases |input| - c.at
  {
    if c.at >= |input| then c.result else Scan(input, Advance(input, c))
  }

  function Parsed(input: string): seq<string>
    requires Shaped(input)
  {
    Scan(input, START)
  }

  method Erase(s: string, c: char) returns (t: string)
    requires c == '\\'
    ensures t == Strip(s)
  {
    t := "";
    for i := 0 to |s|
      invariant t + Strip(s[i..]) == Strip(s)
    {
      if s[i] != c {
        t := t + [s[i]];
      }
    }
  }

  /** The loop of `from_text_array`; the caller must pass something in braces. */
  method FromTextArray(input: string) returns (result: seq<string>)
    requires Shaped(input)
    ensures result == Parsed(input)
  {
    result := [];
    var depth, inQuotes := 0, false;
    var startPos: nat, endPos: nat, nextStartPos: nat := 1, 0, 0;
    var i: nat := 0;
    while i < |input|
      invariant endPos == 0 && Placed(Cursor(i, depth, inQuotes, startPos, result))
      invariant Scan(input, Cursor(i, depth, inQuotes, startPos, result)) == Parsed(input)
      decreases |input| - i
    {
      if input[i] == '{' && !inQuotes {
        depth := depth + 1;
        if depth == 1 {
          startPos := i + 1;
        }
      } else if input[i] == '}' && !inQuotes {
        if depth == 1 && endPos == 0 {
          endPos := i - 1;
          nextStartPos := 0;
        }
        depth := depth - 1;
      } else if input[i] == ',' && !inQuotes {
        endPos := i - 1;
        nextStartPos := i + 1;
      } else if input[i] == '\"' && input[i - 1] != '\\' {
        if inQuotes {
          endPos := i - 1;
          nextStartPos := i + 2;
          inQuotes := false;
        } else {
          startPos := i + 1;
          inQuotes := true;
        }
      }
      if startPos > 0 && endPos > 0 {
        var t := Erase(input[startPos..endPos + 1], '\\');
        result := result + [t];
        if nextStartPos == 0 {
          break;
        }
        endPos := 0;
        startPos := nextStartPos;
        i := startPos;
      } else {
        i := i + 1;
      }
    }
  }

  // ----- Round trip -----

  function Texts(members: seq<Member>): seq<string> {
    if members == [] then [] else [Strip(members[0].text)] + Texts(members[1..])
  }

  lemma {:induction false} SkipQuoted(input: string, c: Cursor, j: nat)
    requires Shaped(input) && Placed(c) && 0 < c.at <= j <= |input| && c.inQuotes
    requires forall m: nat | c.at <= m < j :: QuoteEscaped(input, m)
    ensures Scan(input, c) == Scan(input, c.(at := j))
    decreases j - c.at
  {
    if c.at < j {
      assert QuoteEscaped(input, c.at);
      SkipQuoted(input, c.(at := c.at + 1), j);
    }
  }

  lemma {:induction false} SkipBare(input: string, c: Cursor, j: nat)
    requires Shaped(input) && Placed(c) && 0 < c.at <= j <= |input| && !c.inQuotes
    requires forall m | c.at <= m < j :: !Delimits(input[m])
    ensures Scan(input, c) == Scan(input, c.(at := j))
    decreases j - c.at
  {
    if c.at < j { SkipBare(input, c.(at := c.at + 1), j); }
  }

  lemma {:induction false} ResultOnlyGrows(input: string, c: Cursor)
    requires Shaped(input) && Placed(c)
    ensures c.result <= Scan(input, c)
    decreases |input| - c.at
  {
    if c.at < |input| { ResultOnlyGrows(input, Advance(input, c)); }
  }

  lemma {:induction false} OnlyBackslashFree(input: string, c: Cursor)
    requires Shaped(input) && Placed(c) && forall x | x in c.result :: '\\' !in x
    ensures forall x | x in Scan(input, c) :: '\\' !in x
    decreases |input| - c.at
  {
    if c.at < |input| {
      if 1 < c.at { StripLeavesNoBackslash(input[c.startPos..c.at]); }
      OnlyBackslashFree(input, Advance(input, c));
    }
  }

  /** Member m stands at position i of the input. */
  ghost predicate AtMember(input: string, i: nat, m: Member) {
    && 0 < i && i + |MemberText(m)| < |input|
    && input[i - 1] != '\\'
    && Reads(input, i, MemberText(m))
  }

  function Before(i: nat, result: seq<string>): Cursor {
    Cursor(i, 1, false, i, result)
  }

  function Opened(i: nat, p: nat, result: seq<string>): Cursor {
    Cursor(p, 1, true, i + 1, result)
  }

  lemma ScanStep(input: string, c: Cursor)
    requires Shaped(input) && Placed(c) && c.at < |input|
    ensures Scan(input, c) == Scan(input, Advance(input, c))
  {
  }

  lemma ScanEnd(input: string, c: Cursor)
    requires Shaped(input) && Placed(c) && |input| <= c.at
    ensures Scan(input, c) == c.result
  {
  }

  lemma ScanQuoted(input: string, i: nat, p: nat, result: seq<string>)
    requires Shaped(input) && 0 < i < p < |input| && input[i] == input[p] == '\"'
    requires input[i - 1] != '\\' && input[p - 1] != '\\'
    requires forall m: nat | i + 1 <= m < p :: QuoteEscaped(input, m)
    ensures Scan(input, Before(i, result)) == Scan(input, Before(p + 2, result + [Strip(input[i + 1..p])]))
  {
    hide Scan, Strip;
    assert Advance(input, Before(i, result)) == Opened(i, i + 1, result);
    ScanStep(input, Before(i, result));
    SkipQuoted(input, Opened(i, i + 1, result), p);
    assert Advance(input, Opened(i, p, result)) == Before(p + 2, result + [Strip(input[i + 1..p])]);
    ScanStep(input, Opened(i, p, result));
  }

  lemma ScanBare(input: string, i: nat, j: nat, result: seq<string>)
    requires Shaped(input) && 0 < i < j < |input| && (input[j] == ',' || input[j] == '}')
    requires forall m | i <= m < j :: !Delimits(input[m])
    ensures var done := result + [Strip(input[i..j])];
            Scan(input, Before(i, result)) == if input[j] == '}' then done else Scan(input, Before(j + 1, done))
  {
    hide Scan, Strip;
    var done := result + [Strip(input[i..j])];
    SkipBare(input, Before(i, result), j);
    var last := Cursor(j, 1, false, i, result);
    ScanStep(input, last);
    if input[j] == '}' {
      assert Advance(input, last) == Cursor(|input|, 0, false, i, done);
      ScanEnd(input, Cursor(|input|, 0, false, i, done));
    } else {
      assert Advance(input, last) == Before(j + 1, done);
    }
  }

  predicate Good(m: Member) {
    WellFormed(m) && (m.Quoted? ==> !EndsInBackslash(m.text))
  }

  /** A member and the delimiter after it. */
  lemma ScanMember(input: string, i: nat, j: nat, result: seq<string>, m: Member)
    requires Shaped(input) && AtMember(input, i, m) && Good(m) && j == i + |MemberText(m)|
    requires input[j] == ',' || (input[j] == '}' && j + 1 == |input|)
    ensures var done := result + [Strip(m.text)];
            Scan(input, Before(i, result)) == if input[j] == '}' then done else Scan(input, Before(j + 1, done))
  {
    hide Scan, Escape, Strip, Reads, QuoteEscaped, EndsInBackslash, Shaped;
    if m.Quoted? {
      ReadsQuoted(input, i, m.text);
      ReadsSlice(input, i + 1, Escape(m.text));
      StripEscape(m.text);
      ScanQuoted(input, i, j - 1, result);
      if input[j] == '}' { ScanEnd(input, Before(j + 1, result + [Strip(m.text)])); }
    } else {
      ReadsSlice(input, i, m.text);
      forall p | i <= p < j ensures !Delimits(input[p]) { assert input[p] == m.text[p - i]; }
      ScanBare(input, i, j, result);
    }
  }

  /** From position i to its end the input is the printed members. */
  ghost predicate Follows(input: string, i: nat, rest: seq<Member>)
    decreases |rest|
  {
    && rest != [] && AtMember(input, i, rest[0])
    && var j := i + |MemberText(rest[0])|;
       if |rest| == 1 then input[j] == '}' && j + 1 == |input|
       else input[j] == ',' && Follows(input, j + 1, rest[1..])
  }

  /** The first of the members that follow, and the others. */
  lemma FollowsStep(input: string, i: nat, rest: seq<Member>)
    requires Follows(input, i, rest)
    ensures rest != [] && AtMember(input, i, rest[0])
    ensures 0 < i && i + |MemberText(rest[0])| < |input| && input[i - 1] != '\\' && Reads(input, i, MemberText(rest[0]))
    ensures var j := i + |MemberText(rest[0])|;
            if |rest| == 1 then input[j] == '}' && j + 1 == |input|
            else input[j] == ',' && Follows(input, j + 1, rest[1..])
    ensures Texts(rest) == [Strip(rest[0].text)] + if |rest| == 1 then [] else Texts(rest[1..])
  {
  }

  lemma {:induction false} ClosingFollows(input: string, i: nat, rest: seq<Member>)
    requires 0 < i <= |input| && rest != [] && input[i - 1] != '\\'
    requires Reads(input, i, Closing(rest)) && i + |Closing(rest)| == |input|
    ensures Follows(input, i, rest)
    decreases |rest|
  {
    var text := MemberText(rest[0]);
    var j := i + |text|;
    if |rest| == 1 {
      ReadsParts(input, i, text, "}");
      assert "}"[0] == input[j];
    } else {
      ReadsParts(input, i, text + ",", Closing(rest[1..]));
      ReadsParts(input, i, text, ",");
      assert ","[0] == input[j];
      ClosingFollows(input, j + 1, rest[1..]);
    }
  }

  lemma {:induction false} ScanMembers(input: string, i: nat, result: seq<string>, rest: seq<Member>)
    requires Shaped(input) && Follows(input, i, rest) && forall m | m in rest :: Good(m)
    ensures Scan(input, Before(i, result)) == result + Texts(rest)
    decreases |rest|
  {
    hide *;
    FollowsStep(input, i, rest);
    var j, done := i + |MemberText(rest[0])|, result + [Strip(rest[0].text)];
    assert Good(rest[0]);
    ScanMember(input, i, j, result, rest[0]);
    if |rest| > 1 {
      ScanMembers(input, j + 1, done, rest[1..]);
    }
  }

  lemma {:induction false} ClosingEnds(rest: seq<Member>)
    requires rest != []
    ensures |Closing(rest)| > 0 && Closing(rest)[|Closing(rest)| - 1] == '}'
  {
    if |rest| > 1 { ClosingEnds(rest[1..]); }
  }

  lemma ReadsAfterBrace(input: string, text: string)
    requires input == "{" + text
    ensures Reads(input, 1, text)
  {
  }

  lemma ArrayOutShaped(members: seq<Member>)
    ensures Shaped(ArrayOut(members))
    ensures members != [] ==> Follows(ArrayOut(members), 1, members)
    ensures Parsed(ArrayOut(members)) == if members == [] then [] else Scan(ArrayOut(members), Before(1, []))
  {
    hide Scan, Strip, Closing, Follows, Reads;
    var input := ArrayOut(members);
    if members != [] {
      ClosingEnds(members);
      ReadsAfterBrace(input, Closing(members));
      ClosingFollows(input, 1, members);
      ScanStep(input, START);
    } else {
      ScanStep(input, START);
      ScanStep(input, Before(1, []));
      ScanEnd(input, Cursor(2, 0, false, 1, []));
    }
  }

  /** Whatever members PostgreSQL or the runner quotes, the parser gives their texts back with the
      backslashes deleted, as long as no quoted one ends in a backslash. */
  lemma ParsesArrayOut(members: seq<Member>)
    requires forall m | m in members :: Good(m)
    ensures Shaped(ArrayOut(members)) && Parsed(ArrayOut(members)) == Texts(members)
  {
    ArrayOutShaped(members);
    if members != [] { ScanMembers(ArrayOut(members), 1, [], members); }
  }

  /** With its closing quote taken for an escaped one, a member swallows the next opening quote. */
  lemma ScanUnclosed(input: string, i: nat, p: nat, result: seq<string>)
    requires Shaped(input) && 0 < i < p < |input| - 1 && input[i] == input[p] == '\"'
    requires input[i - 1] != '\\' && input[p - 1] == '\\'
    requires forall m: nat | i + 1 <= m < p :: QuoteEscaped(input, m)
    requires input[p + 1] == ',' || input[p + 1] == '}'
    requires p + 2 < |input| ==> input[p + 2] == '\"'
    ensures if p + 2 == |input| then Scan(input, Before(i, result)) == result
            else result + [Strip(input[i + 1..p + 2])] <= Scan(input, Before(i, result))
  {
    hide Scan, Strip;
    assert Advance(input, Before(i, result)) == Opened(i, i + 1, result);
    ScanStep(input, Before(i, result));
    SkipQuoted(input, Opened(i, i + 1, result), p + 2);
    if p + 2 < |input| {
      var next := Before(p + 4, result + [Strip(input[i + 1..p + 2])]);
      assert Advance(input, Opened(i, p + 2, result)) == next;
      ScanStep(input, Opened(i, p + 2, result));
      ResultOnlyGrows(input, next);
    } else {
      ScanEnd(input, Opened(i, p + 2, result));
    }
  }

  lemma BrokenText(input: string, i: nat, x: string)
    requires Reads(input, i + 1, Escape(x)) && i + |Escape(x)| + 3 <= |input|
    requires input[i + 1 + |Escape(x)|] == '\"' && input[i + 2 + |Escape(x)|] == ','
    ensures Strip(input[i + 1..i + |Escape(x)| + 3]) == Strip(x) + "\","
  {
    ReadsSlice(input, i + 1, Escape(x));
    assert input[i + 1..i + |Escape(x)| + 3] == Escape(x) + "\",";
    StripConcat(Escape(x), "\",");
    StripEscape(x);
    assert Strip("\",") == "\",";
  }

  /** A quoted member, its quotes, and the opening quote of the one after it. */
  lemma QuotedFollows(input: string, i: nat, rest: seq<Member>)
    requires Follows(input, i, rest) && forall m | m in rest :: m.Quoted?
    ensures rest != [] && Reads(input, i, DoubleQuote(rest[0].text))
    ensures 0 < i && i + |Escape(rest[0].text)| + 2 < |input| && input[i - 1] != '\\'
    ensures var p := i + 1 + |Escape(rest[0].text)|;
            if |rest| == 1 then input[p + 1] == '}' && p + 2 == |input|
            else input[p + 1] == ',' && p + 2 < |input| && input[p + 2] == '\"'
  {
    hide Follows, AtMember, Reads, Escape, Texts, Strip;
    FollowsStep(input, i, rest);
    assert rest[0].Quoted?;
    if |rest| > 1 {
      assert rest[1].Quoted?;
      FollowsStep(input, i + |MemberText(rest[0])| + 1, rest[1..]);
      ReadsQuoted(input, i + |MemberText(rest[0])| + 1, rest[1].text);
    }
  }

  lemma ScanBroken(input: string, i: nat, result: seq<string>, rest: seq<Member>)
    requires Shaped(input) && Follows(input, i, rest) && (forall m | m in rest :: m.Quoted?)
    requires EndsInBackslash(rest[0].text)
    ensures Scan(input, Before(i, result)) != result + Texts(rest)
  {
    hide *;
    FollowsStep(input, i, rest);
    QuotedFollows(input, i, rest);
    var x := rest[0].text;
    ReadsQuoted(input, i, x);
    ScanUnclosed(input, i, i + 1 + |Escape(x)|, result);
    if |rest| > 1 { BrokenText(input, i, x); }
    assert (result + Texts(rest))[|result|] == Strip(x);
  }

  lemma {:induction false} ScanIff(input: string, i: nat, result: seq<string>, rest: seq<Member>)
    requires Shaped(input) && Follows(input, i, rest) && forall m | m in rest :: m.Quoted?
    ensures Scan(input, Before(i, result)) == result + Texts(rest) <==> forall m | m in rest :: !EndsInBackslash(m.text)
    decreases |rest|
  {
    hide *;
    FollowsStep(input, i, rest);
    if EndsInBackslash(rest[0].text) {
      ScanBroken(input, i, result, rest);
    } else {
      var j, done := i + |MemberText(rest[0])|, result + [Strip(rest[0].text)];
      QuotedIsGood(rest[0]);
      ScanMember(input, i, j, result, rest[0]);
      if |rest| > 1 {
        ScanIff(input, j + 1, done, rest[1..]);
        assert forall m :: m in rest <==> m == rest[0] || m in rest[1..];
        assert result + Texts(rest) == done + Texts(rest[1..]);
      }
    }
  }

  lemma QuotedIsGood(m: Member)
    requires m.Quoted? && !EndsInBackslash(m.text)
    ensures Good(m)
  {
  }

  lemma {:induction false} TextsOfBackslashFree(xs: seq<string>)
    requires forall x | x in xs :: '\\' !in x
    ensures Texts(AllQuoted(xs)) == xs
  {
    if xs != [] {
      TextsOfBackslashFree(xs[1..]);
      StripLeavesNoBackslash(xs[0]);
      assert AllQuoted(xs)[1..] == AllQuoted(xs[1..]);
    }
  }

  /** `from_text_array(as_text_array(xs))` is xs without its backslashes exactly when no member ends
      in one, and xs itself exactly when there are none. */
  lemma RoundTripIff(xs: seq<string>)
    ensures Shaped(ArrayOut(AllQuoted(xs)))
    ensures Parsed(ArrayOut(AllQuoted(xs))) == Texts(AllQuoted(xs)) <==> forall x | x in xs :: !EndsInBackslash(x)
    ensures Parsed(ArrayOut(AllQuoted(xs))) == xs <==> forall x | x in xs :: '\\' !in x
  {
    var members := AllQuoted(xs);
    var input := ArrayOut(members);
    ArrayOutShaped(members);
    if xs != [] { ScanIff(input, 1, [], members); }
    assert forall k | 0 <= k < |xs| :: members[k] == Quoted(xs[k]);
    assert (forall m | m in members :: !EndsInBackslash(m.text)) <==> (forall x | x in xs :: !EndsInBackslash(x));
    OnlyBackslashFree(input, START);
    if forall x | x in xs :: '\\' !in x { TextsOfBackslashFree(xs); }
  }
}
