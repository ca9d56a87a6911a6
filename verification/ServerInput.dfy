/**
 * How the server reads the array and hstore texts that the runner prints: section 8.15.6 of the
 * PostgreSQL documentation and the hstore external representation, as far as quoted items go.
 */
module ServerInput {
  import opened Prelude
  import opened Quoting
  import ArrayText
  import HstoreText

  /** A quoted item, from behind its opening quote: a backslash takes whatever comes next as it is. */
  function QuotedItem(s: string): (r: Option<(string, string)>)
    ensures r.Some? ==> |r.value.1| < |s|
    decreases |s|
  {
    if s == "" then None
    else if s[0] == '\"' then Some(("", s[1..]))
    else if s[0] == '\\' then
      if |s| < 2 then None else Before(s[1], QuotedItem(s[2..]))
    else Before(s[0], QuotedItem(s[1..]))
  }

  function Before(c: char, r: Option<(string, string)>): Option<(string, string)> {
    if r.Some? then Some(([c] + r.value.0, r.value.1)) else None
  }

  /** Items up to the closing brace, from where one begins. */
  function ArrayItems(s: string): Option<seq<string>>
    decreases |s|
  {
    if s == "" || s[0] != '\"' then None
    else
      match QuotedItem(s[1..])
      case None => None
      case Some((item, rest)) =>
        if rest == "}" then Some([item])
        else if rest != "" && rest[0] == ',' then
          match ArrayItems(rest[1..])
          case None => None
          case Some(items) => Some([item] + items)
        else None
  }

  function ArrayIn(s: string): Option<seq<string>> {
    if s == "{}" then Some([])
    else if s != "" && s[0] == '{' then ArrayItems(s[1..])
    else None
  }

  function HstoreIn(s: string): Option<seq<HstoreText.Entry>>
    decreases |s|
  {
    if s == "" then Some([])
    else if s[0] != '\"' then None
    else
      match QuotedItem(s[1..])
      case None => None
      case Some((key, arrow)) =>
        if |arrow| < 3 || arrow[0] != '=' || arrow[1] != '>' || arrow[2] != '\"' then None
        else
          match QuotedItem(arrow[3..])
          case None => None
          case Some((value, rest)) =>
            if rest == "" then Some([HstoreText.Entry(key, value)])
            else if rest[0] == ',' && |rest| > 1 then
              match HstoreIn(rest[1..])
              case None => None
              case Some(entries) => Some([HstoreText.Entry(key, value)] + entries)
            else None
  }

  lemma {:induction false} ItemOf(x: string, rest: string)
    ensures QuotedItem(Escape(x) + "\"" + rest) == Some((x, rest))
    decreases |x|
  {
    var s := Escape(x) + "\"" + rest;
    if x == "" {
      assert s[1..] == rest;
    } else {
      var more := Escape(x[1..]) + "\"" + rest;
      ItemOf(x[1..], rest);
      assert x == [x[0]] + x[1..];
      if Special(x[0]) {
        assert s == ['\\', x[0]] + more;
      } else {
        assert s == [x[0]] + more;
      }
    }
  }

  lemma AfterQuote(x: string, rest: string)
    ensures var s := DoubleQuote(x) + rest;
            s != "" && s[0] == '\"' && QuotedItem(s[1..]) == Some((x, rest))
  {
    hide QuotedItem;
    ItemOf(x, rest);
    assert (DoubleQuote(x) + rest)[1..] == Escape(x) + "\"" + rest;
  }

  /** Whatever the members, the server reads the printed array back as they are. */
  lemma ArrayReadByServer(xs: seq<string>)
    ensures ArrayIn(ArrayText.ArrayOut(ArrayText.AllQuoted(xs))) == Some(xs)
  {
    if xs != [] {
      hide ArrayText.Closing, ArrayItems;
      ItemsRead(xs);
      var text := ArrayText.Closing(ArrayText.AllQuoted(xs));
      assert ("{" + text)[1..] == text;
      NotOnlyBrace(xs);
      assert "{" + text != "{}" by { assert ("{" + text)[1] == text[0]; }
    }
  }

  lemma NotOnlyBrace(xs: seq<string>)
    requires xs != []
    ensures var text := ArrayText.Closing(ArrayText.AllQuoted(xs)); text != "" && text[0] == '\"'
  {
  }

  lemma {:induction false} ItemsRead(xs: seq<string>)
    requires xs != []
    ensures ArrayItems(ArrayText.Closing(ArrayText.AllQuoted(xs))) == Some(xs)
  {
    hide QuotedItem, DoubleQuote;
    var members := ArrayText.AllQuoted(xs);
    if |xs| == 1 {
      AfterQuote(xs[0], "}");
      assert xs == [xs[0]];
    } else {
      var rest := ArrayText.Closing(ArrayText.AllQuoted(xs[1..]));
      assert members[1..] == ArrayText.AllQuoted(xs[1..]);
      assert ArrayText.Closing(members) == DoubleQuote(xs[0]) + ("," + rest);
      AfterQuote(xs[0], "," + rest);
      assert ("," + rest)[1..] == rest;
      ItemsRead(xs[1..]);
      assert xs == [xs[0]] + xs[1..];
    }
  }

  lemma HstoreStep(s: string, key: string, arrow: string, value: string, rest: string)
    requires s != "" && s[0] == '\"' && QuotedItem(s[1..]) == Some((key, arrow))
    requires |arrow| >= 3 && arrow[0] == '=' && arrow[1] == '>' && arrow[2] == '\"'
    requires QuotedItem(arrow[3..]) == Some((value, rest)) && (rest == "" || (rest[0] == ',' && |rest| > 1))
    ensures HstoreIn(s) == if rest == "" then Some([HstoreText.Entry(key, value)])
                           else if HstoreIn(rest[1..]).None? then None
                           else Some([HstoreText.Entry(key, value)] + HstoreIn(rest[1..]).value)
  {
    hide QuotedItem;
  }

  lemma ArrowGone(value: string)
    requires value != ""
    ensures var arrow := "=>" + value;
            |arrow| >= 3 && arrow[0] == '=' && arrow[1] == '>' && arrow[2] == value[0] && arrow[3..] == value[1..]
  {
  }

  /** One entry, and what comes behind it. */
  lemma EntryRead(e: HstoreText.Entry, rest: string)
    requires rest == "" || (rest[0] == ',' && |rest| > 1)
    ensures HstoreIn(HstoreText.EntryText(e) + rest)
         == if rest == "" then Some([e])
            else if HstoreIn(rest[1..]).None? then None
            else Some([e] + HstoreIn(rest[1..]).value)
  {
    hide QuotedItem, DoubleQuote, HstoreIn;
    var value := DoubleQuote(e.value) + rest;
    var s := DoubleQuote(e.key) + ("=>" + value);
    assert HstoreText.EntryText(e) + rest == s;
    AfterQuote(e.key, "=>" + value);
    AfterQuote(e.value, rest);
    ArrowGone(value);
    HstoreStep(s, e.key, "=>" + value, e.value, rest);
  }

  /** Whatever the keys and values, the server reads the printed hstore back as they are. */
  lemma {:induction false} HstoreReadByServer(entries: seq<HstoreText.Entry>)
    ensures HstoreIn(HstoreText.HstoreOut(entries)) == Some(entries)
  {
    if entries != [] {
      hide HstoreIn, HstoreText.EntryText;
      var e, more := entries[0], entries[1..];
      if more == [] {
        EntryRead(e, "");
        assert HstoreText.EntryText(e) + "" == HstoreText.EntryText(e);
        assert entries == [e];
      } else {
        var rest := "," + HstoreText.HstoreOut(more);
        NotNothing(more);
        EntryRead(e, rest);
        assert rest[1..] == HstoreText.HstoreOut(more);
        assert HstoreText.HstoreOut(entries) == HstoreText.EntryText(e) + rest;
        HstoreReadByServer(more);
        assert entries == [e] + more;
      }
    }
  }

  lemma NotNothing(entries: seq<HstoreText.Entry>)
    requires entries != []
    ensures HstoreText.HstoreOut(entries) != ""
  {
  }
}
