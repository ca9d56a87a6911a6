/** The lines that `NixQueueCmd::flush_stderr` makes of a command's stderr. */
module StderrLines {

  /** The complete lines of a text, but for empty ones, after what is already on the line. */
  function Lines(text: string, line: string): seq<string>
    decreases |text|
  {
    if text == "" then []
    else if LineEnd(text[0]) then (if line == "" then [] else [line]) + Lines(text[1..], "")
    else Lines(text[1..], line + [text[0]])
  }

  function LastLine(text: string, line: string): string
    decreases |text|
  {
    if text == "" then line
    else LastLine(text[1..], if LineEnd(text[0]) then "" else line + [text[0]])
  }

  predicate LineEnd(c: char) {
    c == '\n' || c == '\r'
  }

  /** What one flush logs. */
  function Flushed(text: string, onEnd: bool): seq<string> {
    Lines(text, "") + if onEnd && LastLine(text, "") != "" then [LastLine(text, "")] else []
  }

  // ----- Lines of stderr -----

  lemma {:induction false} LinesOfBoth(a: string, b: string, line: string)
    ensures Lines(a + b, line) == Lines(a, line) + Lines(b, LastLine(a, line))
    decreases |a|
  {
    if a == "" {
      assert a + b == b;
    } else {
      assert (a + b)[0] == a[0] && (a + b)[1..] == a[1..] + b;
      LinesOfBoth(a[1..], b, if LineEnd(a[0]) then "" else line + [a[0]]);
    }
  }

  predicate EndsNoLine(text: string) {
    forall i | 0 <= i < |text| :: !LineEnd(text[i])
  }

  lemma {:induction false} StartMatters(text: string, start: string, line: string)
    requires start != ""
    ensures Lines(text, start + line) == Lines(text, line) <==> EndsNoLine(text)
    decreases |text|
  {
    if text != "" {
      assert text == [text[0]] + text[1..];
      if LineEnd(text[0]) {
        assert !EndsNoLine(text);
        var rest := Lines(text[1..], "");
        assert ([start + line] + rest)[0] == start + line;
        if line != "" { assert ([line] + rest)[0] == line; }
      } else {
        assert start + line + [text[0]] == start + (line + [text[0]]);
        StartMatters(text[1..], start, line + [text[0]]);
        assert EndsNoLine(text) <==> EndsNoLine(text[1..]) by {
          if EndsNoLine(text[1..]) {
            forall i | 0 <= i < |text| ensures !LineEnd(text[i]) { if i > 0 { assert text[i] == text[1..][i - 1]; } }
          } else {
            var i :| 0 <= i < |text[1..]| && LineEnd(text[1..][i]);
            assert text[i + 1] == text[1..][i];
          }
        }
      }
    }
  }

  /** Flushing a text in two parts logs what flushing it at once logs, exactly when the first part ends
      with a line, or the second has no line end: a line that arrives in parts loses all but the last. */
  lemma FlushInPartsIff(a: string, b: string)
    ensures Flushed(a, false) + Flushed(b, false) == Flushed(a + b, false) <==> LastLine(a, "") == "" || EndsNoLine(b)
  {
    var rest := LastLine(a, "");
    LinesOfBoth(a, b, "");
    assert Flushed(a, false) == Lines(a, "") && Flushed(b, false) == Lines(b, "");
    assert Flushed(a + b, false) == Lines(a + b, "");
    assert Lines(a, "") + Lines(b, "") == Lines(a, "") + Lines(b, rest) <==> Lines(b, "") == Lines(b, rest) by {
      var x, y, z := Lines(a, ""), Lines(b, ""), Lines(b, rest);
      if x + y == x + z { assert y == (x + y)[|x|..] && z == (x + z)[|x|..]; }
    }
    if rest != "" {
      StartMatters(b, rest, "");
      assert rest + "" == rest;
    }
  }

  // ----- What a line is -----

  lemma {:induction false} NoEndsNoLines(text: string, line: string)
    requires '\n' !in text && '\r' !in text
    ensures Lines(text, line) == [] && LastLine(text, line) == line + text
    decreases |text|
  {
    if text == "" {
      assert line + text == line;
    } else {
      NoEndsNoLines(text[1..], line + [text[0]]);
      assert line + [text[0]] + text[1..] == line + text;
    }
  }

  /** A text without line ends is no line yet; and each line end, be it a newline or a carriage return,
      makes a line of what came after the one before, unless that is nothing. */
  lemma LinesAre(a: string, end: char, b: string)
    requires end == '\n' || end == '\r'
    ensures '\n' !in a && '\r' !in a ==> Lines(a, "") == [] && LastLine(a, "") == a
    ensures Lines(a + [end] + b, "")
         == Lines(a, "") + (if LastLine(a, "") == "" then [] else [LastLine(a, "")]) + Lines(b, "")
    ensures LastLine(a + [end] + b, "") == LastLine(b, "")
  {
    if '\n' !in a && '\r' !in a {
      NoEndsNoLines(a, "");
      assert "" + a == a;
    }
    LinesOfBoth(a + [end], b, "");
    LinesOfBoth(a, [end], "");
    LastOfBoth(a + [end], b, "");
    LastOfBoth(a, [end], "");
    OneEnd(end, LastLine(a, ""));
  }

  lemma OneEnd(end: char, line: string)
    requires end == '\n' || end == '\r'
    ensures Lines([end], line) == (if line == "" then [] else [line]) && LastLine([end], line) == ""
  {
  }

  lemma {:induction false} LastOfBoth(a: string, b: string, line: string)
    ensures LastLine(a + b, line) == LastLine(b, LastLine(a, line))
    decreases |a|
  {
    if a == "" {
      assert a + b == b;
    } else {
      assert (a + b)[0] == a[0] && (a + b)[1..] == a[1..] + b;
      LastOfBoth(a[1..], b, if LineEnd(a[0]) then "" else line + [a[0]]);
    }
  }

  /** Nothing that is logged is empty or holds a line end. */
  lemma {:induction false} LoggedLinesAreClean(text: string, line: string)
    requires '\n' !in line && '\r' !in line
    ensures forall l | l in Lines(text, line) + [LastLine(text, line)] :: '\n' !in l && '\r' !in l
    ensures "" !in Lines(text, line)
    decreases |text|
  {
    if text != "" {
      LoggedLinesAreClean(text[1..], if LineEnd(text[0]) then "" else line + [text[0]]);
    }
  }

  /** A text without its line ends. */
  function WithoutEnds(text: string): string {
    if text == "" then ""
    else (if text[0] == '\n' || text[0] == '\r' then "" else [text[0]]) + WithoutEnds(text[1..])
  }

  function Joined(lines: seq<string>): string {
    if lines == [] then "" else lines[0] + Joined(lines[1..])
  }

  lemma {:induction false} JoinedOfBoth(a: seq<string>, b: seq<string>)
    ensures Joined(a + b) == Joined(a) + Joined(b)
  {
    if a == [] {
      assert a + b == b;
    } else {
      assert (a + b)[0] == a[0] && (a + b)[1..] == a[1..] + b;
      JoinedOfBoth(a[1..], b);
    }
  }

  lemma JoinedOne(line: string)
    ensures Joined([]) == "" && Joined([line]) == line
  {
    assert Joined([line]) == line + Joined([line][1..]);
  }

  lemma LinesStep(text: string, line: string)
    requires text != ""
    ensures var line' := if LineEnd(text[0]) then "" else line + [text[0]];
            Lines(text, line)
            == (if LineEnd(text[0]) && line != "" then [line] else []) + Lines(text[1..], line')
            && LastLine(text, line) == LastLine(text[1..], line')
            && WithoutEnds(text) == (if LineEnd(text[0]) then "" else [text[0]]) + WithoutEnds(text[1..])
  {
  }

  lemma {:induction false} LinesJoined(text: string, line: string)
    ensures Joined(Lines(text, line)) + LastLine(text, line) == line + WithoutEnds(text)
    decreases |text|
  {
    if text == "" {
      assert line + WithoutEnds(text) == line;
    } else {
      hide Lines, LastLine, WithoutEnds, Joined, LineEnd;
      var first, rest := text[0], text[1..];
      LinesStep(text, line);
      JoinedOne(line);
      if LineEnd(first) {
        var more, last := Joined(Lines(rest, "")), LastLine(rest, "");
        LinesJoined(rest, "");
        JoinedOfBoth(if line == "" then [] else [line], Lines(rest, ""));
        assert "" + WithoutEnds(rest) == WithoutEnds(rest);
        assert line + more + last == line + (more + last);
      } else {
        LinesJoined(rest, line + [first]);
        assert [] + Lines(rest, line + [first]) == Lines(rest, line + [first]);
        assert line + [first] + WithoutEnds(rest) == line + ([first] + WithoutEnds(rest));
      }
    }
  }

  /** A flush at the end leaves nothing out, and one before it nothing but the line that is not complete. */
  lemma NothingLeftOut(text: string)
    ensures Joined(Flushed(text, true)) == WithoutEnds(text)
    ensures Joined(Flushed(text, false)) + LastLine(text, "") == WithoutEnds(text)
  {
    LinesJoined(text, "");
    var last := LastLine(text, "");
    JoinedOfBoth(Lines(text, ""), [last]);
    JoinedOne(last);
    assert Flushed(text, false) == Lines(text, "");
    assert "" + WithoutEnds(text) == WithoutEnds(text);
    if last == "" { assert Flushed(text, true) == Lines(text, ""); }
  }
}
