/** Quoting round trip of the shell lexer (clients/bash-file-access.ts:180-304): single-quoted
    commands joined by operators come back as exactly their arguments. Quoting is that of
    section 2.2.2 of IEEE Std 1003.1-2017, with an embedded quote written as '\''. */
module ShellQuoting {
  import opened JsMap
  import opened Text
  import opened ShellLexer

  datatype Separator = Semicolon | And | Or | Pipe

  /** One or more commands; every command is a list of arguments. */
  datatype Script = Last(args: seq<string>) | Then(args: seq<string>, sep: Separator, rest: Script)

  // ---- printing ------------------------------------------------------------------

  function Escape(arg: string): string {
    if arg == "" then "" else (if arg[0] == '\'' then "'\\''" else [arg[0]]) + Escape(arg[1..])
  }

  function QuoteArg(arg: string): string { "'" + (Escape(arg) + "'") }

  /** Quoted arguments separated by single spaces. */
  function Words(args: seq<string>): (text: string)
    requires args != []
    ensures text != "" && text[0] == '\''
  {
    if |args| == 1 then QuoteArg(args[0]) else QuoteArg(args[0]) + (" " + Words(args[1..]))
  }

  function SeparatorText(sep: Separator): string {
    match sep case Semicolon => ";" case And => "&&" case Or => "||" case Pipe => "|"
  }

  /** Every command has at least one argument, possibly an empty one. */
  predicate HasWords(script: Script) {
    script.args != [] && (script.Then? ==> HasWords(script.rest))
  }

  function Render(script: Script): (text: string)
    requires HasWords(script)
    ensures text != "" && text[0] == '\''
  {
    match script
    case Last(args) => Words(args)
    case Then(args, sep, rest) => Words(args) + (SeparatorText(sep) + Render(rest))
  }

  // ---- what comes back -----------------------------------------------------------

  /** The arguments the lexer can see: an empty word is never pushed. */
  function NonEmpty(args: seq<string>): seq<string> {
    if args == [] then [] else (if args[0] == "" then [] else [args[0]]) + NonEmpty(args[1..])
  }

  lemma {:induction false} NonEmptyKeeps(args: seq<string>)
    ensures |NonEmpty(args)| <= |args|
    ensures NonEmpty(args) == args <==> "" !in args
  {
    if args == [] {
    } else {
      NonEmptyKeeps(args[1..]);
      assert args == [args[0]] + args[1..];
      if args[0] != "" { assert NonEmpty(args) == [args[0]] + NonEmpty(args[1..]); }
    }
  }

  /** A command of empty words leaves no segment, unless a pipe marks it. */
  function SegmentOf(args: seq<string>, pipe: bool): seq<Segment> {
    if NonEmpty(args) == [] && !pipe then [] else [Segment(NonEmpty(args), pipe, pipe)]
  }

  function Recovered(script: Script): seq<Segment> {
    match script
    case Last(args) => SegmentOf(args, false)
    case Then(args, sep, rest) => SegmentOf(args, sep == Pipe) + Recovered(rest)
  }

  /** One segment per command with its very arguments. */
  function Verbatim(script: Script): (r: seq<Segment>)
    ensures |r| > 0
  {
    match script
    case Last(args) => [Segment(args, false, false)]
    case Then(args, sep, rest) => [Segment(args, sep == Pipe, sep == Pipe)] + Verbatim(rest)
  }

  predicate NoEmptyArgument(script: Script) {
    "" !in script.args && (script.Then? ==> NoEmptyArgument(script.rest))
  }

  // ---- one argument --------------------------------------------------------------

  /** One ordinary character inside single quotes. */
  lemma PlainInside(prev: Option<char>, c: char, tail: string, st: Lexer)
    requires st.quote == Single && c != '\''
    ensures Lex(prev, [c] + tail, st) == Lex(Some(c), tail, st.(word := st.word + [c]))
  {
    hide Lex;
    LexOne(prev, [c] + tail, st, st.(word := st.word + [c]), tail);
  }

  lemma ClosingQuote(prev: Option<char>, tail: string, st: Lexer)
    requires st.quote == Single
    ensures Lex(prev, "'" + tail, st) == Lex(Some('\''), tail, st.(quote := Unquoted))
  {
    hide Lex;
    LexOne(prev, "'" + tail, st, st.(quote := Unquoted), tail);
  }

  /** Inside single quotes, up to and including the closing one. */
  lemma {:induction false} EscapedReadsBack(prev: Option<char>, arg: string, rest: string, st: Lexer, word: string)
    requires st.quote == Single && !st.escaped && !st.atTokenStart && word == st.word + arg
    ensures Lex(prev, Escape(arg) + ("'" + rest), st) == Lex(Some('\''), rest, st.(word := word, quote := Unquoted))
    decreases |arg|
  {
    hide Lex;
    if arg == "" {
      assert Escape(arg) + ("'" + rest) == "'" + rest && word == st.word;
      ClosingQuote(prev, rest, st);
    } else {
      var close := "'" + rest;
      var tail := Escape(arg[1..]) + close;
      Associates(if arg[0] == '\'' then "'\\''" else [arg[0]], Escape(arg[1..]), close);
      assert arg == [arg[0]] + arg[1..];
      Associates(st.word, [arg[0]], arg[1..]);
      if arg[0] != '\'' {
        PlainInside(prev, arg[0], tail, st);
      } else {
        QuoteInside(prev, tail, st);
      }
      EscapedReadsBack(Some(arg[0]), arg[1..], rest, st.(word := st.word + [arg[0]]), word);
    }
  }

  /** `'\''` inside single quotes: close, escape a quote, open again. */
  lemma QuoteInside(prev: Option<char>, tail: string, st: Lexer)
    requires st.quote == Single && !st.escaped && !st.atTokenStart
    ensures Lex(prev, "'\\''" + tail, st) == Lex(Some('\''), tail, st.(word := st.word + ['\'']))
  {
    hide Lex;
    var s0 := "'\\''" + tail;
    var s1, s2, s3 := "\\''" + tail, "''" + tail, "'" + tail;
    assert s0[1..] == s1 && s1[1..] == s2 && s2[1..] == s3 && s3[1..] == tail;
    var st1, st2, st3 := st.(quote := Unquoted), st.(quote := Unquoted, escaped := true),
                         st.(word := st.word + ['\''], quote := Unquoted);
    LexOne(prev, s0, st, st1, s1);
    LexOne(Some('\''), s1, st1, st2, s2);
    LexOne(Some('\\'), s2, st2, st3, s3);
    LexOne(Some('\''), s3, st3, st.(word := st.word + ['\'']), tail);
  }

  /** A step that completes no segment. */
  lemma LexOne(prev: Option<char>, s: string, st: Lexer, next: Lexer, tail: string)
    requires s != "" && Advance(prev, s, st) == Move(next, 1, [], []) && s[1..] == tail
    ensures Lex(prev, s, st) == Lex(Some(s[0]), tail, next)
  {
    hide Lex, Advance;
    LexUnfold(prev, s, st, Move(next, 1, [], []), tail);
    assert [] + TokenizeAll([]) + Lex(Some(s[0]), tail, next) == Lex(Some(s[0]), tail, next);
  }

  predicate BetweenWords(st: Lexer) {
    st.quote == Unquoted && !st.escaped && st.word == ""
  }

  /** The state after a quoted argument. */
  function AfterWord(st: Lexer, arg: string): Lexer { st.(word := arg, atTokenStart := false) }

  lemma QuotedReadsBack(prev: Option<char>, arg: string, rest: string, st: Lexer)
    requires BetweenWords(st)
    ensures Lex(prev, QuoteArg(arg) + rest, st) == Lex(Some('\''), rest, AfterWord(st, arg))
  {
    var tail := Escape(arg) + ("'" + rest);
    var s := QuoteArg(arg) + rest;
    assert s == "'" + tail && s[1..] == tail;
    var open := st.(quote := Single, atTokenStart := false);
    LexOne(prev, s, st, open, tail);
    assert open.word + arg == arg;
    EscapedReadsBack(Some('\''), arg, rest, open, arg);
    assert open.(word := arg, quote := Unquoted) == AfterWord(st, arg);
  }

  // ---- one command ---------------------------------------------------------------

  /** The state after a list of arguments: the last one is still being built. */
  function AfterWords(st: Lexer, args: seq<string>): Lexer
    requires args != []
  {
    AfterWord(st.(tokens := st.tokens + NonEmpty(args[..|args| - 1])), args[|args| - 1])
  }

  lemma {:induction false} NonEmptyCons(arg: string, args: seq<string>)
    ensures NonEmpty([arg] + args) == NonEmpty([arg]) + NonEmpty(args)
  {
    assert ([arg] + args)[1..] == args && [arg][1..] == [];
  }

  lemma {:induction false} NonEmptySnoc(args: seq<string>, arg: string)
    ensures NonEmpty(args + [arg]) == NonEmpty(args) + NonEmpty([arg])
    decreases |args|
  {
    if args == [] {
      assert args + [arg] == [arg];
    } else {
      assert (args + [arg])[1..] == args[1..] + [arg];
      NonEmptySnoc(args[1..], arg);
      Associates(if args[0] == "" then [] else [args[0]], NonEmpty(args[1..]), NonEmpty([arg]));
    }
  }

  lemma SpaceEndsWord(rest: string, st: Lexer, arg: string)
    requires BetweenWords(st)
    ensures Lex(Some('\''), " " + rest, AfterWord(st, arg)) == Lex(Some(' '), rest, FlushWord(AfterWord(st, arg)))
  {
    hide Lex;
    LexOne(Some('\''), " " + rest, AfterWord(st, arg), FlushWord(AfterWord(st, arg)), rest);
  }

  /** Finishing one argument and reading on is reading them all. */
  lemma AfterWordsCons(st: Lexer, args: seq<string>)
    requires |args| > 1 && BetweenWords(st)
    ensures AfterWords(FlushWord(AfterWord(st, args[0])), args[1..]) == AfterWords(st, args)
  {
    var gap := FlushWord(AfterWord(st, args[0]));
    var front := args[1..][..|args| - 2];
    assert args[..|args| - 1] == [args[0]] + front;
    NonEmptyCons(args[0], front);
    NonEmptyOne(args[0]);
    assert gap.tokens == st.tokens + NonEmpty([args[0]]);
    Associates(st.tokens, NonEmpty([args[0]]), NonEmpty(front));
  }

  lemma NonEmptyOne(arg: string)
    ensures NonEmpty([arg]) == if arg == "" then [] else [arg]
  {
    assert [arg][1..] == [] && NonEmpty([]) == [];
  }

  lemma {:induction false} WordsReadBack(prev: Option<char>, args: seq<string>, rest: string, st: Lexer)
    requires args != [] && BetweenWords(st)
    ensures Lex(prev, Words(args) + rest, st) == Lex(Some('\''), rest, AfterWords(st, args))
    decreases |args|
  {
    hide Lex;
    if |args| == 1 {
      QuotedReadsBack(prev, args[0], rest, st);
      assert st.tokens + NonEmpty(args[..0]) == st.tokens;
    } else {
      var more := Words(args[1..]) + rest;
      assert Words(args) + rest == QuoteArg(args[0]) + (" " + more);
      QuotedReadsBack(prev, args[0], " " + more, st);
      SpaceEndsWord(more, st, args[0]);
      WordsReadBack(Some(' '), args[1..], rest, FlushWord(AfterWord(st, args[0])));
      AfterWordsCons(st, args);
    }
  }

  /** What flushing after the arguments yields. */
  lemma WordsFlush(args: seq<string>, pipe: bool)
    requires args != []
    ensures var st := AfterWords(FRESH, args);
            Flushed(if pipe then st.(unsupported := true) else st, pipe) == SegmentOf(args, pipe)
            && FlushWord(st) == FRESH.(tokens := NonEmpty(args))
  {
    var front, last := args[..|args| - 1], args[|args| - 1];
    assert args == front + [last];
    NonEmptySnoc(front, last);
    assert FRESH.tokens + NonEmpty(front) == NonEmpty(front);
    NonEmptyOne(last);
    assert NonEmpty(front) + [] == NonEmpty(front);
  }

  // ---- the script ----------------------------------------------------------------

  lemma SeparatorEnds(prev: Option<char>, sep: Separator, rest: string, args: seq<string>)
    requires args != [] && rest != "" && rest[0] == '\''
    ensures Lex(prev, SeparatorText(sep) + rest, AfterWords(FRESH, args))
            == SegmentOf(args, sep == Pipe) + Lex(Some(SeparatorText(sep)[0]), rest, FRESH)
  {
    hide Words, SegmentOf, Lex, AfterWords, Operator;
    var s, st := SeparatorText(sep) + rest, AfterWords(FRESH, args);
    SeparatorMove(s, sep, rest, args);
    var m := Move(FRESH, |SeparatorText(sep)|, SegmentOf(args, sep == Pipe), []);
    OperatorAdvances(prev, s, args);
    LexUnfold(prev, s, st, m, rest);
    assert SegmentOf(args, sep == Pipe) + TokenizeAll([]) == SegmentOf(args, sep == Pipe);
  }

  lemma OperatorAdvances(prev: Option<char>, s: string, args: seq<string>)
    requires args != [] && s != "" && IsOperator(s[0])
    ensures Advance(prev, s, AfterWords(FRESH, args)) == Operator(s, AfterWords(FRESH, args))
  {
    hide Operator;
  }

  lemma SeparatorMove(s: string, sep: Separator, rest: string, args: seq<string>)
    requires args != [] && rest != "" && rest[0] == '\'' && s == SeparatorText(sep) + rest
    ensures s[0] == SeparatorText(sep)[0] && s[|SeparatorText(sep)| - 1] == s[0] && s[|SeparatorText(sep)|..] == rest
    ensures IsOperator(s[0])
    ensures Operator(s, AfterWords(FRESH, args)) == Move(FRESH, |SeparatorText(sep)|, SegmentOf(args, sep == Pipe), [])
  {
    hide SegmentOf, Consume;
    WordsFlush(args, sep == Pipe);
  }

  lemma WordsEnd(args: seq<string>)
    requires args != []
    ensures Lex(Some('\''), "", AfterWords(FRESH, args)) == SegmentOf(args, false)
  {
    hide Lex;
    LexEnd(Some('\''), AfterWords(FRESH, args));
    WordsFlush(args, false);
  }

  lemma {:induction false} ScriptReadsBack(prev: Option<char>, script: Script)
    requires HasWords(script)
    ensures Lex(prev, Render(script), FRESH) == Recovered(script)
    decreases script
  {
    hide Lex, AfterWords;
    var st := AfterWords(FRESH, script.args);
    match script {
      case Last(args) =>
        WordsReadBack(prev, args, "", FRESH);
        assert Words(args) + "" == Words(args);
        WordsEnd(args);
      case Then(args, sep, rest) =>
        WordsReadBack(prev, args, SeparatorText(sep) + Render(rest), FRESH);
        SeparatorEnds(Some('\''), sep, Render(rest), args);
        ScriptReadsBack(Some(SeparatorText(sep)[0]), rest);
    }
  }

  /** Lexing a rendered script gives, for each command, its non-empty arguments, in order,
      marked as piped and unsupported exactly where a single `|` follows. */
  lemma QuotingRoundTrip(script: Script)
    requires HasWords(script)
    ensures Tokenize(Render(script)) == Recovered(script)
  {
    ScriptReadsBack(None, script);
  }

  lemma {:induction false} RecoveredIsShorter(script: Script)
    ensures |Recovered(script)| <= |Verbatim(script)|
  {
    if script.Last? {
    } else {
      RecoveredIsShorter(script.rest);
    }
  }

  lemma {:induction false} VerbatimIffNoEmpty(script: Script)
    requires HasWords(script)
    ensures Recovered(script) == Verbatim(script) <==> NoEmptyArgument(script)
  {
    if script.Then? {
      VerbatimIffNoEmpty(script.rest);
      RecoveredIsShorter(script.rest);
      NonEmptyKeeps(script.args);
      var mine := SegmentOf(script.args, script.sep == Pipe);
      if Recovered(script) == Verbatim(script) {
        assert |mine| == 1;
        assert Recovered(script)[0] == mine[0];
        assert Recovered(script)[1..] == Recovered(script.rest);
        assert Verbatim(script)[1..] == Verbatim(script.rest);
      }
    } else {
      NonEmptyKeeps(script.args);
      if Recovered(script) == Verbatim(script) { assert Recovered(script)[0].tokens == script.args; }
    }
  }

  /** One segment per command with exactly its arguments comes back if and only if no argument
      is the empty string: the lexer has no way to represent ''. */
  lemma VerbatimRoundTripIff(script: Script)
    requires HasWords(script)
    ensures Tokenize(Render(script)) == Verbatim(script) <==> NoEmptyArgument(script)
  {
    QuotingRoundTrip(script);
    VerbatimIffNoEmpty(script);
  }

  /** The smallest loss: a quoted empty argument is dropped. */
  lemma EmptyArgumentIsLost()
    ensures Tokenize(Render(Last(["git", ""]))) == [Segment(["git"], false, false)]
  {
    hide Render, Tokenize;
    QuotingRoundTrip(Last(["git", ""]));
    NonEmptyCons("git", [""]);
    NonEmptyOne("git");
    NonEmptyOne("");
    assert ["git"] + [""] == ["git", ""];
  }
}
