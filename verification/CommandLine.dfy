/**
 `cmd_line`, which prints a nix command for a POSIX shell, against how a shell reads words back, and
 the argument loop of `pg_nix_queue_cmd`, which takes the wrapped form apart.
 */
module CommandLine {
  import opened Prelude

  // ----- Printing -----

  predicate Triggers(c: char) {
    c == '\"' || c == '$' || c == ' ' || c == '\n' || c == '\t' || c == '`'
  }

  predicate NeedsQuoting(arg: string) {
    exists c | c in arg :: Triggers(c)
  }

  /** replace(arg, '''', '''\''''') */
  function CloseAndReopen(arg: string): string {
    if arg == "" then ""
    else (if arg[0] == '\'' then "'\\''" else [arg[0]]) + CloseAndReopen(arg[1..])
  }

  function PrintArg(arg: string): string {
    if NeedsQuoting(arg) then "'" + CloseAndReopen(arg) + "'" else arg
  }

  function CmdLine(argv: seq<string>): string {
    if argv == [] then ""
    else if |argv| == 1 then PrintArg(argv[0])
    else PrintArg(argv[0]) + " " + CmdLine(argv[1..])
  }

  // ----- Reading, after the POSIX.1-2017 Shell Command Language -----

  predicate Blank(c: char) {
    c == ' ' || c == '\t'
  }

  /** A character that does more outside quotes than stand for itself, or may do so depending on what
      files there are (sections 2.2 and 2.13). */
  predicate Special(c: char) {
    c in "|&;<>()$`\\\"' \t\n*?"
  }

  predicate Letter(c: char) {
    'a' <= c <= 'z' || 'A' <= c <= 'Z' || c == '_'
  }

  /** A word that names no command where a command's name is expected (section 2.4). */
  predicate Reserved(word: string) {
    || word in ["!", "{", "}", "case", "do", "done", "elif", "else", "esac", "fi", "for", "if", "in", "then", "until",
                "while", "[[", "]]", "function", "select"]
    || (|word| > 1 && word[|word| - 1] == ':' && Letter(word[0])
        && forall i | 0 <= i < |word| - 1 :: Letter(word[i]) || '0' <= word[i] <= '9')
  }

  datatype Mode = Between | Word | Quote | Escape

  /** The words read so far, and the one being read; it is bare as long as nothing in it was quoted,
      and open from its first `[` outside quotes on, to the next slash. Failed is for a text that holds
      more than words. */
  datatype Lexer = Failed | Lexer(words: seq<string>, mode: Mode, word: string, bare: bool, open: Option<nat>)

  function AtStart(words: seq<string>): Lexer {
    Lexer(words, Between, "", true, None)
  }

  /** A `]` here makes a bracket expression of what came after the `[` (section 2.13.1): that takes a
      member, and a `!` that comes first is none. A slash in between undoes it (section 2.13.3). */
  predicate Closes(l: Lexer)
    requires l.Lexer?
  {
    l.open.Some?
    && l.open.value + 1 < |l.word|
    && !(l.bare && |l.word| == l.open.value + 2 && l.word[l.open.value + 1] == '!')
  }

  function Add(l: Lexer, c: char): Lexer
    requires l.Lexer?
  {
    l.(word := l.word + [c], open := if c == '/' then None else l.open)
  }

  /** Outside quotes: `#` starts a comment and `~` a home directory only where a word begins (sections
      2.3 and 2.6.1), and `=` makes an assignment only before the command's name, and not where the
      word begins with it (section 2.10.2). */
  predicate Stands(l: Lexer, c: char)
    requires l.Lexer?
  {
    && !Special(c)
    && (l.mode.Between? ==> c != '#' && c != '~')
    && (c == ']' ==> !Closes(l))
    && (c == '=' && l.words == [] && !l.mode.Between? ==> l.bare && l.word != "" && l.word[0] == '=')
  }

  /** The first word is the command's name, so a reserved word will not do. */
  function Complete(l: Lexer): Lexer
    requires l.Lexer?
  {
    if l.words == [] && l.bare && Reserved(l.word) then Failed else AtStart(l.words + [l.word])
  }

  function Step(l: Lexer, c: char): Lexer {
    if l.Failed? then Failed
    else if l.mode.Quote? then
      if c == '\'' then l.(mode := Word) else Add(l, c)
    else if l.mode.Escape? then
      if c == '\n' then Failed else Add(l.(mode := Word), c)
    else if Blank(c) then
      if l.mode.Between? then l else Complete(l)
    else if c == '\'' then l.(mode := Quote, bare := false)
    else if c == '\\' then l.(mode := Escape, bare := false)
    else if Stands(l, c) then
      Add(l.(mode := Word, open := if c == '[' && l.open.None? then Some(|l.word|) else l.open), c)
    else Failed
  }

  function Feed(l: Lexer, s: string): Lexer
    decreases |s|
  {
    if s == "" then l else Feed(Step(l, s[0]), s[1..])
  }

  function Ended(l: Lexer): Option<seq<string>> {
    if l.Failed? then None
    else if l.mode.Between? then Some(l.words)
    else if l.mode.Word? && Complete(l).Lexer? then Some(l.words + [l.word])
    else None
  }

  /** The words of a text, with quotes removed (section 2.6.7). */
  function ShellWords(s: string): Option<seq<string>> {
    Ended(Feed(AtStart([]), s))
  }

  lemma {:induction false} FeedBoth(l: Lexer, a: string, b: string)
    ensures Feed(l, a + b) == Feed(Feed(l, a), b)
    decreases |a|
  {
    if a == "" {
      assert a + b == b;
    } else {
      assert (a + b)[0] == a[0] && (a + b)[1..] == a[1..] + b;
      FeedBoth(Step(l, a[0]), a[1..], b);
    }
  }

  lemma FeedOne(l: Lexer, c: char)
    ensures Feed(l, [c]) == Step(l, c)
  {
  }

  // ----- What is read back -----

  /** From k to i there is the inside of a bracket expression. */
  predicate Bracketed(arg: string, k: nat, i: nat)
    requires k < i <= |arg|
  {
    arg[k] == '[' && k + 1 < i && !(i == k + 2 && arg[k + 1] == '!') && NoSlash(arg, k, i)
  }

  predicate NoSlash(arg: string, k: nat, i: nat)
    requires k <= i <= |arg|
  {
    forall m | k <= m < i :: arg[m] != '/'
  }

  predicate LiteralAt(arg: string, i: nat, first: bool)
    requires i < |arg|
  {
    && !Special(arg[i])
    && (arg[i] == ']' ==> forall k | 0 <= k < i :: !Bracketed(arg, k, i))
    && (i == 0 ==> arg[i] != '#' && arg[i] != '~')
    && (first && i > 0 && arg[i] == '=' ==> arg[0] == '=')
  }

  predicate LiteralUpTo(arg: string, n: nat, first: bool)
    requires n <= |arg|
  {
    forall i | 0 <= i < n :: LiteralAt(arg, i, first)
  }

  predicate Literal(arg: string, first: bool) {
    LiteralUpTo(arg, |arg|, first)
  }

  /** An argument that survives: it triggers quoting, or has nothing to quote where it stands. */
  predicate Survives(arg: string, first: bool) {
    (exists c | c in arg :: c in "\"$ \n\t`") || (arg != "" && Literal(arg, first) && !(first && Reserved(arg)))
  }

  lemma QuotingIff(arg: string)
    ensures NeedsQuoting(arg) <==> exists c | c in arg :: c in "\"$ \n\t`"
  {
    hide Triggers;
    forall c ensures Triggers(c) <==> c in "\"$ \n\t`" { TriggersIff(c); }
  }

  lemma TriggersIff(c: char)
    ensures Triggers(c) <==> c in "\"$ \n\t`"
  {
  }

  lemma {:induction false} FeedQuoted(l: Lexer, arg: string)
    requires l.Lexer? && l.mode.Quote? && l.open.None?
    ensures Feed(l, CloseAndReopen(arg)) == l.(word := l.word + arg, bare := if '\'' in arg then false else l.bare)
    decreases |arg|
  {
    if arg == "" {
      assert l.word + arg == l.word;
    } else {
      var one := if arg[0] == '\'' then "'\\''" else [arg[0]];
      FeedBoth(l, one, CloseAndReopen(arg[1..]));
      if arg[0] == '\'' { FeedReopened(l); } else { FeedOne(l, arg[0]); }
      var next := Feed(l, one);
      FeedQuoted(next, arg[1..]);
      assert l.word + arg == l.word + [arg[0]] + arg[1..];
    }
  }

  /** Quote, escaped quote, quote: one quote more in the word. */
  lemma FeedReopened(l: Lexer)
    requires l.Lexer? && l.mode.Quote?
    ensures Feed(l, "'\\''") == l.(word := l.word + ['\''], bare := false)
  {
    hide Feed, Stands, Add, Complete;
    var a, b := ['\'', '\\'], ['\'', '\''];
    assert "'\\''" == a + b && a == ['\''] + ['\\'] && b == ['\''] + ['\''];
    FeedBoth(l, a, b);
    FeedBoth(l, ['\''], ['\\']);
    FeedBoth(Feed(l, a), ['\''], ['\'']);
    FeedOne(l, '\'');
    FeedOne(l.(mode := Word), '\\');
    FeedOne(l.(mode := Escape, bare := false), '\'');
    FeedOne(Add(l.(mode := Word, bare := false), '\''), '\'');
    AddQuote(l);
  }

  lemma AddQuote(l: Lexer)
    requires l.Lexer?
    ensures Add(l.(mode := Word, bare := false), '\'') == l.(mode := Word, bare := false, word := l.word + ['\''])
  {
  }

  lemma {:induction false} FeedLiteral(words: seq<string>, arg: string, i: nat)
    requires 0 < i <= |arg| && Literal(arg, words == [])
    ensures Feed(Lexer(words, Word, arg[..i], true, OpenAt(arg, i)), arg[i..])
         == Lexer(words, Word, arg, true, OpenAt(arg, |arg|))
    decreases |arg| - i
  {
    if i == |arg| {
      assert arg[..i] == arg;
    } else {
      var l := Lexer(words, Word, arg[..i], true, OpenAt(arg, i));
      StandsIff(words, arg, i);
      assert arg[i..][1..] == arg[i + 1..] && arg[..i] + [arg[i]] == arg[..i + 1];
      hide Stands, Literal;
      FeedLiteral(words, arg, i + 1);
    }
  }

  /** The lexer's rule, in a word that is bare so far, is the printer's. */
  lemma StandsIff(words: seq<string>, arg: string, i: nat)
    requires i < |arg|
    ensures var l := Lexer(words, if i == 0 then Between else Word, arg[..i], true, OpenAt(arg, i));
            (Stands(l, arg[i]) <==> LiteralAt(arg, i, words == []))
            && (Stands(l, arg[i]) ==>
                  Step(l, arg[i]) == Lexer(words, Word, arg[..i] + [arg[i]], true, OpenAt(arg, i + 1)))
  {
    OpenIs(arg, i);
    ClosesIff(words, if i == 0 then Between else Word, arg, i);
    hide Reserved, Closes, Bracketed, NoSlash;
  }

  /** Where the word is open after its first i characters. */
  function OpenAt(arg: string, i: nat): Option<nat>
    requires i <= |arg|
  {
    if i == 0 || arg[i - 1] == '/' then None
    else if OpenAt(arg, i - 1).None? && arg[i - 1] == '[' then Some(i - 1)
    else OpenAt(arg, i - 1)
  }

  /** It is the first `[` that no slash follows. */
  lemma {:induction false} OpenIs(arg: string, i: nat)
    requires i <= |arg|
    ensures var open := OpenAt(arg, i);
            (open.Some? ==> open.value < i && arg[open.value] == '[' && NoSlash(arg, open.value, i))
            && (forall k | 0 <= k < i && arg[k] == '[' && NoSlash(arg, k, i) :: open.Some? && open.value <= k)
  {
    if i > 0 {
      OpenIs(arg, i - 1);
      forall k | 0 <= k < i - 1 && NoSlash(arg, k, i) ensures NoSlash(arg, k, i - 1) {}
    }
  }

  lemma ClosesIff(words: seq<string>, mode: Mode, arg: string, i: nat)
    requires i <= |arg|
    ensures Closes(Lexer(words, mode, arg[..i], true, OpenAt(arg, i)))
            <==> exists k | 0 <= k < i :: Bracketed(arg, k, i)
  {
    OpenIs(arg, i);
    var open := OpenAt(arg, i);
    if Closes(Lexer(words, mode, arg[..i], true, open)) {
      assert Bracketed(arg, open.value, i);
    }
  }

  /** A surviving argument is read as it was, and nothing keeps the word from being completed. */
  lemma FeedArg(words: seq<string>, arg: string) returns (l: Lexer)
    requires Survives(arg, words == [])
    ensures Feed(AtStart(words), PrintArg(arg)) == l && l.Lexer? && l.words == words && l.mode.Word? && l.word == arg
    ensures Complete(l) == AtStart(words + [arg])
  {
    hide Reserved, Special, NeedsQuoting;
    QuotingIff(arg);
    var start := AtStart(words);
    if NeedsQuoting(arg) {
      l := Lexer(words, Word, arg, false, None);
      var quoted := CloseAndReopen(arg);
      FeedBoth(start, "'" + quoted, "'");
      FeedBoth(start, "'", quoted);
      FeedOne(start, '\'');
      FeedQuoted(Lexer(words, Quote, "", false, None), arg);
      assert "" + arg == arg;
      FeedOne(Lexer(words, Quote, arg, false, None), '\'');
    } else {
      l := Lexer(words, Word, arg, true, OpenAt(arg, |arg|));
      StandsIff(words, arg, 0);
      assert "" + [arg[0]] == arg[..1];
      FeedLiteral(words, arg, 1);
    }
  }

  // ----- And what is not: reading gains nothing -----

  function Weight(words: seq<string>): nat {
    if words == [] then 0 else Weight(words[..|words| - 1]) + |words[|words| - 1]| + 1
  }

  /** The characters read so far, counting one for the end of each word; a backslash counts until it has
      escaped something. */
  function WeightOf(l: Lexer): nat
    requires l.Lexer?
  {
    Weight(l.words) + |l.word| + Count(l.mode.Escape?)
  }

  predicate Valid(l: Lexer) {
    l.Lexer? && l.mode.Between? ==> l.word == "" && l.bare && l.open.None?
  }

  function NotQuotes(s: string): nat {
    if s == "" then 0 else Count(s[0] != '\'') + NotQuotes(s[1..])
  }

  lemma WeightOfMore(words: seq<string>, word: string)
    ensures Weight(words + [word]) == Weight(words) + |word| + 1
  {
    assert (words + [word])[..|words|] == words;
  }

  lemma {:induction false} WeightOfBoth(a: seq<string>, b: seq<string>)
    ensures Weight(a + b) == Weight(a) + Weight(b)
  {
    if b == [] {
      assert a + b == a;
    } else {
      WeightOfBoth(a, b[..|b| - 1]);
      assert (a + b)[..|a + b| - 1] == a + b[..|b| - 1];
    }
  }

  lemma StepGains(l: Lexer, c: char)
    requires Valid(l) && Step(l, c).Lexer?
    ensures Valid(Step(l, c)) && WeightOf(Step(l, c)) <= WeightOf(l) + Count(c != '\'')
  {
    hide Reserved, Special;
    WeightOfMore(l.words, l.word);
  }

  lemma FeedFailed(s: string)
    ensures Feed(Failed, s) == Failed
    decreases |s|
  {
    if s != "" { FeedFailed(s[1..]); }
  }

  /** No text gives more than its characters, single quotes not counted. */
  lemma {:induction false} FeedGains(l: Lexer, s: string)
    requires Valid(l) && Feed(l, s).Lexer?
    ensures Valid(Feed(l, s)) && l.Lexer? && WeightOf(Feed(l, s)) <= WeightOf(l) + NotQuotes(s)
    decreases |s|
  {
    hide Step, WeightOf;
    if l.Failed? {
      FeedFailed(s);
    } else if s != "" {
      if Step(l, s[0]).Failed? { FeedFailed(s[1..]); }
      StepGains(l, s[0]);
      FeedGains(Step(l, s[0]), s[1..]);
    }
  }

  lemma {:induction false} NotQuotesOfBoth(a: string, b: string)
    ensures NotQuotes(a + b) == NotQuotes(a) + NotQuotes(b)
    decreases |a|
  {
    if a == "" {
      assert a + b == b;
    } else {
      assert (a + b)[0] == a[0] && (a + b)[1..] == a[1..] + b;
      NotQuotesOfBoth(a[1..], b);
    }
  }

  lemma {:induction false} NotQuotesAtMost(s: string)
    ensures NotQuotes(s) <= |s|
  {
    if s != "" { NotQuotesAtMost(s[1..]); }
  }

  lemma {:induction false} NotQuotesReopened(arg: string)
    ensures NotQuotes(CloseAndReopen(arg)) == |arg|
    decreases |arg|
  {
    if arg != "" {
      var one := if arg[0] == '\'' then "'\\''" else [arg[0]];
      NotQuotesOfBoth(one, CloseAndReopen(arg[1..]));
      NotQuotesReopened(arg[1..]);
      OneNotQuote(arg[0]);
    }
  }

  lemma OneNotQuote(c: char)
    ensures NotQuotes("'\\''") == 1 && NotQuotes("'") == 0 && (c != '\'' ==> NotQuotes([c]) == 1)
  {
    var s := "'\\''";
    assert s[1..] == ['\\', '\'', '\''] && s[1..][1..] == ['\'', '\''] && s[1..][1..][1..] == ['\''];
    assert NotQuotes(['\'']) == 0;
    assert NotQuotes(['\'', '\'']) == 0;
  }

  lemma NotQuotesPrinted(arg: string)
    ensures NotQuotes(PrintArg(arg)) <= |arg|
  {
    hide NeedsQuoting;
    if NeedsQuoting(arg) {
      NotQuotesOfBoth("'" + CloseAndReopen(arg), "'");
      NotQuotesOfBoth("'", CloseAndReopen(arg));
      NotQuotesReopened(arg);
      OneNotQuote('a');
    } else {
      NotQuotesAtMost(arg);
    }
  }

  lemma {:induction false} NotQuotesOfLine(argv: seq<string>)
    requires argv != []
    ensures NotQuotes(CmdLine(argv)) < Weight(argv)
  {
    hide PrintArg;
    NotQuotesPrinted(argv[0]);
    assert argv == [argv[0]] + argv[1..];
    WeightOfBoth([argv[0]], argv[1..]);
    WeightOfMore([], argv[0]);
    assert [] + [argv[0]] == [argv[0]];
    if |argv| > 1 {
      NotQuotesOfLine(argv[1..]);
      NotQuotesOfBoth(PrintArg(argv[0]) + " ", CmdLine(argv[1..]));
      NotQuotesOfBoth(PrintArg(argv[0]), " ");
      OneNotQuote(' ');
    }
  }

  /** So an empty argument, of which nothing is printed, is missed. */
  lemma EmptyIsMissed(words: seq<string>, argv: seq<string>)
    requires argv != [] && argv[0] == ""
    ensures Ended(Feed(AtStart(words), CmdLine(argv))) != Some(words + argv)
  {
    hide Reserved;
    var rest := argv[1..];
    var text := if rest == [] then "" else CmdLine(rest);
    assert argv == [""] + rest;
    assert rest != [] ==> CmdLine(argv)[1..] == text;
    var l := Feed(AtStart(words), text);
    assert Feed(AtStart(words), CmdLine(argv)) == l;
    if Ended(l).Some? {
      FeedGains(AtStart(words), text);
      if rest != [] { NotQuotesOfLine(rest); }
      WeightOfMore(l.words, l.word);
      WeightOfBoth(words, argv);
      WeightOfBoth([""], rest);
      WeightOfMore([], "");
      assert [] + [""] == [""];
    }
  }

  // ----- And what is not: quotes and backslashes outside quotes -----

  /** Where a bare argument has got the lexer after its first i characters. */
  ghost predicate Reached(l: Lexer, words: seq<string>, arg: string, i: nat)
    requires i <= |arg|
  {
    l.Lexer? ==>
      l.words == words && (l.mode.Between? <==> i == 0) && |l.word| <= i
      && (if l.bare then
            (l.mode.Between? || l.mode.Word?) && l.word == arg[..i] && l.open == OpenAt(arg, i)
            && LiteralUpTo(arg, i, words == [])
          else |l.word| < i)
  }

  lemma ReachedStep(l: Lexer, words: seq<string>, arg: string, i: nat)
    requires i < |arg| && Reached(l, words, arg, i) && !Blank(arg[i])
    ensures Reached(Step(l, arg[i]), words, arg, i + 1)
  {
    hide Stands, LiteralAt, OpenAt, Reserved, Special;
    StandsIff(words, arg, i);
    assert arg[..i] + [arg[i]] == arg[..i + 1];
  }

  lemma {:induction false} ReachedAll(l: Lexer, words: seq<string>, arg: string, i: nat)
    requires i <= |arg| && Reached(l, words, arg, i) && forall c | c in arg :: !Blank(c)
    ensures Reached(Feed(l, arg[i..]), words, arg, |arg|)
    decreases |arg| - i
  {
    if i < |arg| {
      hide Reached, Step;
      ReachedStep(l, words, arg, i);
      assert arg[i..][1..] == arg[i + 1..];
      ReachedAll(Step(l, arg[i]), words, arg, i + 1);
    }
  }

  /** Words once read stay, and the word begun stays at their end. */
  predicate Holds(ws: seq<string>, l: Lexer)
    requires l.Lexer?
  {
    l.words <= ws && (!l.mode.Between? ==> |l.words| < |ws| && l.word <= ws[|l.words|])
  }

  lemma HoldsStep(l: Lexer, c: char, ws: seq<string>)
    requires l.Lexer? && Step(l, c).Lexer? && Holds(ws, Step(l, c))
    ensures Holds(ws, l)
  {
    hide Reserved, Special;
    var m := Step(l, c);
    if m.words != l.words {
      assert m.words[|l.words|] == l.word;
    }
  }

  lemma {:induction false} HoldsOn(l: Lexer, s: string, ws: seq<string>)
    requires Ended(Feed(l, s)) == Some(ws)
    ensures l.Lexer? && Holds(ws, l)
    decreases |s|
  {
    hide Reserved;
    if l.Failed? {
      FeedFailed(s);
    } else if s != "" {
      hide Holds, Step, Ended;
      HoldsOn(Step(l, s[0]), s[1..], ws);
      HoldsStep(l, s[0], ws);
    }
  }

  /** A non-empty argument that does not survive is cut short, or runs on into the next one, or makes the
      text more than words. */
  lemma BareIsMisread(words: seq<string>, argv: seq<string>)
    requires argv != [] && argv[0] != "" && !Survives(argv[0], words == [])
    ensures Ended(Feed(AtStart(words), CmdLine(argv))) != Some(words + argv)
  {
    hide Reserved, Special;
    var arg := argv[0];
    forall c | c in arg ensures !Blank(c) { assert !Triggers(c); }
    ReachedAll(AtStart(words), words, arg, 0);
    assert arg[0..] == arg;
    var l := Feed(AtStart(words), arg);
    var more := if |argv| == 1 then "" else " " + CmdLine(argv[1..]);
    assert CmdLine(argv) == arg + more;
    FeedBoth(AtStart(words), arg, more);
    if l.Failed? {
      FeedFailed(more);
    } else {
      hide Feed, CmdLine, LiteralAt;
      Misread(l, words, argv, more);
    }
  }

  lemma Misread(l: Lexer, words: seq<string>, argv: seq<string>, more: string)
    requires argv != [] && argv[0] != "" && !Survives(argv[0], words == [])
    requires l.Lexer? && Reached(l, words, argv[0], |argv[0]|)
    requires more == "" || more[0] == ' '
    ensures Ended(Feed(l, more)) != Some(words + argv)
  {
    hide Reserved, Special, LiteralAt;
    var arg := argv[0];
    var ws := words + argv;
    assert arg[..|arg|] == arg;
    assert ws[|words|] == arg;
    assert ' ' !in arg by { assert Triggers(' '); }
    if more != "" {
      var m := Step(l, ' ');
      assert Feed(l, more) == Feed(m, more[1..]);
      var read := Ended(Feed(m, more[1..]));
      if read.Some? {
        HoldsOn(m, more[1..], read.value);
        if l.mode.Word? {
          assert m.words[|words|] == l.word;
        } else {
          assert m.word[|l.word|] == ' ';
          assert read.value[|words|][|l.word|] == ' ';
        }
      }
    }
  }

  predicate AllSurvive(argv: seq<string>, first: bool) {
    forall i | 0 <= i < |argv| :: Survives(argv[i], first && i == 0)
  }

  lemma AllSurviveStep(argv: seq<string>, first: bool)
    ensures argv != [] ==>
              (AllSurvive(argv, first) <==> Survives(argv[0], first) && AllSurvive(argv[1..], false))
    ensures argv == [] ==> AllSurvive(argv, first)
  {
    hide Survives;
    if argv != [] {
      var rest := argv[1..];
      assert forall i | 0 <= i < |rest| :: rest[i] == argv[i + 1];
      assert forall i | 0 < i < |argv| :: argv[i] == rest[i - 1];
    }
  }

  lemma {:induction false} ReadBackFrom(words: seq<string>, argv: seq<string>)
    ensures Ended(Feed(AtStart(words), CmdLine(argv))) == Some(words + argv) <==> AllSurvive(argv, words == [])
    decreases |argv|
  {
    hide Survives, AllSurvive, CmdLine, Feed, Ended;
    AllSurviveStep(argv, words == []);
    if argv == [] {
      NothingRead(words);
      assert words + argv == words;
    } else if !Survives(argv[0], words == []) {
      if argv[0] == "" { EmptyIsMissed(words, argv); } else { BareIsMisread(words, argv); }
    } else {
      FirstIsRead(words, argv);
      ReadBackFrom(words + [argv[0]], argv[1..]);
      assert words + [argv[0]] + argv[1..] == words + argv;
    }
  }

  lemma NothingRead(words: seq<string>)
    ensures Ended(Feed(AtStart(words), CmdLine([]))) == Some(words)
  {
  }

  /** A surviving first argument is read, and the rest from there. */
  lemma FirstIsRead(words: seq<string>, argv: seq<string>)
    requires argv != [] && Survives(argv[0], words == [])
    ensures Ended(Feed(AtStart(words), CmdLine(argv))) == Ended(Feed(AtStart(words + [argv[0]]), CmdLine(argv[1..])))
  {
    hide Survives, PrintArg, Step, Complete;
    var l := FeedArg(words, argv[0]);
    var rest := argv[1..];
    if |argv| > 1 {
      FeedBoth(AtStart(words), PrintArg(argv[0]), " " + CmdLine(rest));
      assert CmdLine(argv) == PrintArg(argv[0]) + (" " + CmdLine(rest));
      FeedSpace(l, CmdLine(rest));
    }
  }

  lemma FeedSpace(l: Lexer, s: string)
    requires l.Lexer? && l.mode.Word?
    ensures Feed(l, " " + s) == Feed(Complete(l), s)
  {
    assert (" " + s)[1..] == s;
  }

  /** A shell reads the printed command line back as the very words that were printed if and only if
      every one of them triggers quoting, or is not empty and has nothing to quote where it stands. */
  lemma ReadBackIff(argv: seq<string>)
    ensures ShellWords(CmdLine(argv)) == Some(argv) <==> forall i | 0 <= i < |argv| :: Survives(argv[i], i == 0)
  {
    hide Survives, Feed, CmdLine;
    ReadBackFrom([], argv);
    assert [] + argv == argv;
  }

  // ----- pg_nix_queue_cmd's argument loop -----

  datatype Outcome =
    | Help
    | TooManyFields
    | UnrecognizedOption(arg: string)
    | TooFewFields
    | NoArgv
    | Recognized(
        outputUpdate: bool, execUpdate: bool, class_: string, id: string, subid: Option<string>, argv: seq<string>)

  predicate Dashed(arg: string) {
    |arg| >= 2 && arg[..2] == "--"
  }

  /** The outcome for the arguments still to come, after some flags and fields. */
  function Scan(args: seq<string>, outputUpdate: bool, execUpdate: bool, fields: seq<string>): Outcome {
    if args == [] then Finish([], outputUpdate, execUpdate, fields)
    else if args[0] == "--help" then Help
    else if args[0] == "--output-update" then Scan(args[1..], true, execUpdate, fields)
    else if args[0] == "--exec-update" then Scan(args[1..], outputUpdate, true, fields)
    else if !Dashed(args[0]) then
      if |fields| >= 3 then TooManyFields else Scan(args[1..], outputUpdate, execUpdate, fields + [args[0]])
    else if args[0] == "--" then Finish(args[1..], outputUpdate, execUpdate, fields)
    else UnrecognizedOption(args[0])
  }

  function Finish(argv: seq<string>, outputUpdate: bool, execUpdate: bool, fields: seq<string>): Outcome {
    if |fields| < 2 then TooFewFields
    else if argv == [] then NoArgv
    else
      Recognized(outputUpdate, execUpdate, fields[0], fields[1], if |fields| > 2 then Some(fields[2]) else None, argv)
  }

  /** The fields the loop has taken so far, from its counter and three variables. */
  function Taken(identified: int, class_: string, id: string, subid: Option<string>): seq<string> {
    if identified <= 0 then []
    else if identified == 1 then [class_]
    else if identified == 2 then [class_, id]
    else [class_, id, if subid.Some? then subid.value else ""]
  }

  /** The loop; args[0] is the program's name. */
  method ParseArguments(args: seq<string>) returns (outcome: Outcome)
    requires |args| > 0
    ensures outcome == Scan(args[1..], false, false, [])
  {
    hide Dashed;
    var outputUpdate, execUpdate := false, false;
    var class_, id: string := "", "";
    var subid: Option<string> := None;
    var identified := 0;
    var argv: seq<string> := [];
    var i := 1;
    while i < |args|
      invariant 1 <= i <= |args|
      invariant 0 <= identified <= 3
      invariant subid.Some? <==> identified == 3
      invariant argv != [] ==> i == |args|
      invariant Scan(args[1..], false, false, []) ==
                if argv == [] then Scan(args[i..], outputUpdate, execUpdate, Taken(identified, class_, id, subid))
                else Finish(argv, outputUpdate, execUpdate, Taken(identified, class_, id, subid))
    {
      var arg := args[i];
      assert args[i..] == [arg] + args[i + 1..];
      if arg == "--help" {
        return Help;
      } else if arg == "--output-update" {
        outputUpdate := true;
      } else if arg == "--exec-update" {
        execUpdate := true;
      } else if !Dashed(arg) {
        ghost var before := Taken(identified, class_, id, subid);
        identified := identified + 1;
        if identified == 1 {
          class_ := arg;
        } else if identified == 2 {
          id := arg;
        } else if identified == 3 {
          subid := Some(arg);
        } else {
          return TooManyFields;
        }
        assert Taken(identified, class_, id, subid) == before + [arg];
      } else if arg == "--" {
        ghost var first := i + 1;
        i := i + 1;
        while i < |args|
          invariant first <= i <= |args|
          invariant argv == args[first..i]
        {
          argv := argv + [args[i]];
          i := i + 1;
        }
        assert argv == args[first..];
        i := i - 1;
      } else {
        return UnrecognizedOption(arg);
      }
      i := i + 1;
    }
    if identified < 2 {
      return TooFewFields;
    }
    if |argv| < 1 {
      return NoArgv;
    }
    return Recognized(outputUpdate, execUpdate, class_, id, subid, argv);
  }

  // ----- Which arguments have which outcome -----

  predicate OptionLike(arg: string) {
    |arg| > 1 && arg[0] == '-' && arg[1] == '-'
  }

  /** The arguments that are taken for fields. */
  function FieldsIn(args: seq<string>): seq<string> {
    if args == [] then []
    else FieldsIn(args[..|args| - 1]) + if OptionLike(args[|args| - 1]) then [] else [args[|args| - 1]]
  }

  /** Nothing but fields, at most three of them, and the two flags. */
  predicate Ordinary(args: seq<string>) {
    |FieldsIn(args)| <= 3
    && forall i | 0 <= i < |args| :: OptionLike(args[i]) ==> args[i] == "--output-update" || args[i] == "--exec-update"
  }

  lemma ScanOrdinary(arg: string, rest: seq<string>, o: bool, e: bool, fields: seq<string>)
    requires OptionLike(arg) ==> arg == "--output-update" || arg == "--exec-update"
    requires |fields| < 3 || OptionLike(arg)
    ensures Scan([arg] + rest, o, e, fields)
         == Scan(rest, o || arg == "--output-update", e || arg == "--exec-update",
                 fields + if OptionLike(arg) then [] else [arg])
  {
    DashedIs(arg);
    assert ([arg] + rest)[1..] == rest && fields + [] == fields;
  }

  lemma {:induction false} ScanPast(args: seq<string>, n: nat)
    requires n <= |args| && Ordinary(args[..n])
    ensures Scan(args, false, false, [])
         == Scan(args[n..], "--output-update" in args[..n], "--exec-update" in args[..n], FieldsIn(args[..n]))
  {
    if n > 0 {
      var before, arg := args[..n - 1], args[n - 1];
      assert args[..n][..n - 1] == before && args[..n] == before + [arg] && args[..n][n - 1] == arg;
      assert |FieldsIn(before)| <= |FieldsIn(args[..n])|;
      forall i | 0 <= i < n - 1 ensures before[i] == args[..n][i] {}
      ScanPast(args, n - 1);
      assert args[n - 1..] == [arg] + args[n..];
      ScanOrdinary(arg, args[n..], "--output-update" in before, "--exec-update" in before, FieldsIn(before));
      hide Scan;
    } else {
      assert args[0..] == args;
    }
  }

  lemma DashedIs(arg: string)
    ensures Dashed(arg) <==> OptionLike(arg)
    ensures OptionLike("--help") && OptionLike("--") && OptionLike("--output-update") && OptionLike("--exec-update")
  {
    if |arg| > 1 { assert arg[..2] == [arg[0], arg[1]]; }
  }

  /** The first argument that is neither a flag nor one of the first three fields decides: after it
      nothing is looked at, and before it the fields and flags are those that are there. */
  lemma ScanIs(args: seq<string>, n: nat)
    requires n <= |args| && Ordinary(args[..n])
    ensures var outcome, fields := Scan(args, false, false, []), FieldsIn(args[..n]);
            && (n < |args| && args[n] == "--help" ==> outcome == Help)
            && (n < |args| && !OptionLike(args[n]) && |fields| == 3 ==> outcome == TooManyFields)
            && (n < |args| && OptionLike(args[n])
                && args[n] !in ["--help", "--output-update", "--exec-update", "--"] ==>
                  outcome == UnrecognizedOption(args[n]))
            && (n == |args| || args[n] == "--" ==>
                  var argv := if n == |args| then [] else args[n + 1..];
                  outcome == if |fields| < 2 then TooFewFields
                             else if argv == [] then NoArgv
                             else Recognized(
                                 "--output-update" in args[..n], "--exec-update" in args[..n], fields[0], fields[1],
                                 if |fields| == 3 then Some(fields[2]) else None, argv))
  {
    ScanPast(args, n);
    if n < |args| {
      assert args[n..][0] == args[n] && args[n..][1..] == args[n + 1..];
      DashedIs(args[n]);
    }
  }

  /** And there is always such an argument, or the end. */
  lemma {:induction false} DecidedAt(args: seq<string>, from: nat) returns (n: nat)
    requires from <= |args| && Ordinary(args[..from])
    ensures n <= |args| && Ordinary(args[..n])
    ensures n == |args| || args[n] == "--" || args[n] == "--help"
            || (!OptionLike(args[n]) && |FieldsIn(args[..n])| == 3)
            || (OptionLike(args[n]) && args[n] !in ["--help", "--output-update", "--exec-update", "--"])
    decreases |args| - from
  {
    n := from;
    if from < |args| {
      var next := args[..from + 1];
      assert next[..from] == args[..from] && next[from] == args[from];
      if Ordinary(next) {
        n := DecidedAt(args, from + 1);
      } else {
        DashedIs(args[from]);
        assert forall i | 0 <= i < from :: next[i] == args[..from][i];
      }
    }
  }

  /** The wrapped form of a queue entry: what is printed for re-running it by hand. */
  function Wrapped(class_: string, id: string, subid: Option<string>, argv: seq<string>): seq<string> {
    ["pg_nix_queue_cmd", "--output-update", class_, id]
    + (if subid.Some? then [subid.value] else [])
    + ["--"] + argv
  }

  predicate NoneDashed(fields: seq<string>) {
    forall i | 0 <= i < |fields| :: !Dashed(fields[i])
  }

  predicate Identifies(class_: string, id: string, subid: Option<string>) {
    !Dashed(class_) && !Dashed(id) && (subid.Some? ==> !Dashed(subid.value))
  }

  /** Whatever the command line, no recognized field looks like an option, and some argv is there. */
  lemma {:induction false} FieldsAreNotOptions(
    args: seq<string>, outputUpdate: bool, execUpdate: bool, fields: seq<string>)
    requires NoneDashed(fields)
    ensures var o := Scan(args, outputUpdate, execUpdate, fields);
            o.Recognized? ==> Identifies(o.class_, o.id, o.subid) && o.argv != []
    decreases |args|
  {
    if args != [] {
      if args[0] == "--output-update" || args[0] == "--exec-update" {
        FieldsAreNotOptions(args[1..], outputUpdate || args[0] == "--output-update",
                            execUpdate || args[0] == "--exec-update", fields);
      } else if !Dashed(args[0]) && |fields| < 3 {
        FieldsAreNotOptions(args[1..], outputUpdate, execUpdate, fields + [args[0]]);
      }
    }
  }

  lemma ScanField(field: string, rest: seq<string>, o: bool, e: bool, fields: seq<string>)
    requires !Dashed(field) && |fields| < 3
    ensures Scan([field] + rest, o, e, fields) == Scan(rest, o, e, fields + [field])
  {
    assert ([field] + rest)[1..] == rest;
  }

  lemma ScanEnd(argv: seq<string>, o: bool, e: bool, fields: seq<string>)
    ensures Scan(["--"] + argv, o, e, fields) == Finish(argv, o, e, fields)
  {
    assert (["--"] + argv)[1..] == argv;
  }

  /** The loop takes the wrapped form apart into what it was made of exactly when none of the three
      fields could be taken for an option and there is a command to run. */
  lemma UnwrappedIff(class_: string, id: string, subid: Option<string>, argv: seq<string>)
    ensures (Scan(Wrapped(class_, id, subid, argv)[1..], false, false, [])
             == Recognized(true, false, class_, id, subid, argv))
            <==> Identifies(class_, id, subid) && argv != []
  {
    var args := Wrapped(class_, id, subid, argv)[1..];
    FieldsAreNotOptions(args, false, false, []);
    if Identifies(class_, id, subid) && argv != [] {
      var last := ["--"] + argv;
      var third := if subid.Some? then [subid.value] + last else last;
      assert args[0] == "--output-update" && args[1..] == [class_] + ([id] + third);
      assert Scan(args, false, false, []) == Scan([class_] + ([id] + third), true, false, []);
      ScanField(class_, [id] + third, true, false, []);
      ScanField(id, third, true, false, [class_]);
      var two := [class_] + [id];
      assert [] + [class_] == [class_];
      if subid.Some? {
        ScanField(subid.value, last, true, false, two);
        ScanEnd(argv, true, false, two + [subid.value]);
      } else {
        ScanEnd(argv, true, false, two);
      }
    }
  }

  /** End to end: printed in wrapped form, read by a shell, taken apart by the loop. */
  lemma PrintedReadAndUnwrapped(class_: string, id: string, subid: Option<string>, argv: seq<string>)
    requires Identifies(class_, id, subid) && argv != []
    requires Survives(class_, false) && Survives(id, false) && (subid.Some? ==> Survives(subid.value, false))
    requires forall arg | arg in argv :: Survives(arg, false)
    ensures var words := ShellWords(CmdLine(Wrapped(class_, id, subid, argv)));
            words.Some? && words.value != []
            && Scan(words.value[1..], false, false, []) == Recognized(true, false, class_, id, subid, argv)
  {
    hide Survives, ShellWords, CmdLine, Scan, Identifies;
    var w := Wrapped(class_, id, subid, argv);
    FixedWordsSurvive();
    forall i | 0 <= i < |w| ensures Survives(w[i], i == 0) {
      assert i > 4 && w[i] != "--" ==> w[i] in argv;
    }
    ReadBackIff(w);
    UnwrappedIff(class_, id, subid, argv);
  }

  predicate Tame(c: char) {
    'a' <= c <= 'z' || c == '_' || c == '-'
  }

  lemma TameSurvives(s: string, first: bool)
    requires s != "" && (forall i | 0 <= i < |s| :: Tame(s[i])) && !(first && Reserved(s))
    ensures Survives(s, first)
  {
    hide Reserved;
    forall i | 0 <= i < |s| ensures LiteralAt(s, i, first) {}
  }

  lemma FixedWordsSurvive()
    ensures Survives("pg_nix_queue_cmd", true) && Survives("--output-update", false) && Survives("--", false)
  {
    assert !Reserved("pg_nix_queue_cmd") by { assert |"pg_nix_queue_cmd"| == 16; }
    hide Survives, Reserved;
    TameSurvives("pg_nix_queue_cmd", true);
    TameSurvives("--output-update", false);
    TameSurvives("--", false);
  }
}
