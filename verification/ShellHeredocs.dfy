/** Here-documents in the shell lexer (clients/bash-file-access.ts:65-178, 260-296): what a
    command line followed by a here-document contributes. Compare section 2.7.4 of
    IEEE Std 1003.1-2017. */
module ShellHeredocs {
  import opened JsMap
  import opened Text
  import opened ShellLexer
  import opened ShellQuoting

  predicate OneLine(line: string) { '\n' !in line }

  /** Lines, each ended by a newline. */
  function Join(lines: seq<string>): string {
    if lines == [] then "" else (lines[0] + "\n") + Join(lines[1..])
  }

  predicate AllOpen(h: Heredoc, lines: seq<string>) {
    forall i :: 0 <= i < |lines| ==> OneLine(lines[i]) && !Closes(h, lines[i])
  }

  // ---- finding the closing line --------------------------------------------------

  lemma FirstLineIs(line: string, t: string)
    requires OneLine(line)
    ensures FirstLine(line + "\n" + t) == line && LineLength(line + "\n" + t) == |line| + 1
  {
    var s := line + "\n" + t;
    Associates(line, "\n", t);
    FirstIndexIs(line, '\n', t);
    assert s[..|line|] == line;
  }

  lemma ScanClosing(h: Heredoc, line: string, t: string)
    requires OneLine(line) && Closes(h, line)
    ensures Scan(line + "\n" + t, h) == Scanned("", true, |line| + 1)
  {
    hide Closes, FirstLine, LineLength;
    FirstLineIs(line, t);
  }

  lemma ScanOpen(h: Heredoc, line: string, t: string)
    requires OneLine(line) && !Closes(h, line)
    ensures var r := Scan(t, h);
            Scan(line + "\n" + t, h) == Scanned(line + "\n" + r.body, r.found, |line| + 1 + r.used)
  {
    hide Scan, Closes, FirstLine, LineLength;
    var s := line + "\n" + t;
    FirstLineIs(line, t);
    assert s[|line| + 1..] == t && s[..|line| + 1] == line + "\n";
    ScanUnfold(s, h, t);
  }

  /** Lines that do not close are body; what follows them decides. */
  lemma {:induction false} ScanLines(h: Heredoc, lines: seq<string>, t: string)
    requires AllOpen(h, lines)
    ensures var r := Scan(t, h);
            Scan(Join(lines) + t, h) == Scanned(Join(lines) + r.body, r.found, |Join(lines)| + r.used)
    decreases |lines|
  {
    hide Scan, Closes;
    if lines == [] {
      assert "" + t == t && "" + Scan(t, h).body == Scan(t, h).body;
    } else {
      assert OneLine(lines[0]) && !Closes(h, lines[0]);
      ScanLines(h, lines[1..], t);
      Associates(lines[0] + "\n", Join(lines[1..]), t);
      ScanOpen(h, lines[0], Join(lines[1..]) + t);
      Associates(lines[0] + "\n", Join(lines[1..]), Scan(t, h).body);
    }
  }

  lemma ScanDocument(h: Heredoc, lines: seq<string>, close: string, rest: string)
    requires AllOpen(h, lines) && OneLine(close) && Closes(h, close)
    ensures Scan(Join(lines) + (close + "\n" + rest), h) == Scanned(Join(lines), true, |Join(lines)| + |close| + 1)
  {
    hide Scan, Closes;
    ScanLines(h, lines, close + "\n" + rest);
    ScanClosing(h, close, rest);
    assert Join(lines) + "" == Join(lines);
  }

  // ---- the delimiter word --------------------------------------------------------

  /** `'d'`, after a dash if leading tabs are stripped. */
  function QuotedWord(stripTabs: bool, d: string): string {
    (if stripTabs then "-" else "") + ("'" + d + "'")
  }

  lemma PieceIsQuoted(d: string, t: string)
    requires '\'' !in d
    ensures Piece("'" + d + "'" + t) == Some(Delimiter(d, true, |d| + 2))
  {
    var s := "'" + d + "'" + t;
    var inner := d + "'" + t;
    assert s[1..] == inner;
    Associates(d, "'", t);
    FirstIndexIs(d, '\'', t);
    assert s[1..|d| + 1] == d;
  }

  lemma ReadsOnePiece(s: string, p: Delimiter, tail: string)
    requires s != "" && !EndsDelimiter(s[0]) && Piece(s) == Some(p) && tail == s[p.used..]
    requires tail != "" && EndsDelimiter(tail[0])
    ensures ReadDelimiter(s) == Prepend(p.text, p.quoted, p.used, Some(Delimiter("", false, 0)))
  {
    hide Piece;
  }

  lemma ReadsQuoted(d: string, t: string)
    requires '\'' !in d
    ensures ReadDelimiter("'" + d + "'" + ("\n" + t)) == Some(Delimiter(d, true, |d| + 2))
  {
    hide Piece, ReadDelimiter;
    var tail := "\n" + t;
    var s := "'" + d + "'" + tail;
    PieceIsQuoted(d, tail);
    assert s[|d| + 2..] == tail;
    ReadsOnePiece(s, Delimiter(d, true, |d| + 2), tail);
    assert d + "" == d;
  }

  lemma ParsesQuoted(stripTabs: bool, d: string, t: string)
    requires d != "" && '\'' !in d
    ensures ParseHeredoc(QuotedWord(stripTabs, d) + ("\n" + t))
            == Some(Parsed(Heredoc(d, stripTabs, true), |QuotedWord(stripTabs, d)|))
  {
    hide ReadDelimiter;
    var s := QuotedWord(stripTabs, d) + ("\n" + t);
    var dash := if stripTabs then 1 else 0;
    var word := "'" + d + "'" + ("\n" + t);
    assert s[dash..] == word;
    assert SpacesAhead(word) == 0;
    ReadsQuoted(d, t);
  }

  predicate IsPlain(d: string) {
    forall i :: 0 <= i < |d| ==> !EndsDelimiter(d[i]) && d[i] != '\'' && d[i] != '"' && d[i] != '\\'
  }

  lemma {:induction false} ReadsPlain(d: string, t: string)
    requires IsPlain(d)
    ensures ReadDelimiter(d + ("\n" + t)) == Some(Delimiter(d, false, |d|))
    decreases |d|
  {
    var s := d + ("\n" + t);
    if d == "" {
      assert s == "\n" + t;
    } else {
      ReadsPlain(d[1..], t);
      PlainStep(d, s, d[1..] + ("\n" + t));
    }
  }

  lemma PlainStep(d: string, s: string, tail: string)
    requires d != "" && IsPlain(d) && |tail| + 1 == |s| && s == [d[0]] + tail
    requires ReadDelimiter(tail) == Some(Delimiter(d[1..], false, |d| - 1))
    ensures ReadDelimiter(s) == Some(Delimiter(d, false, |d|))
  {
    assert s[1..] == tail;
    assert Piece(s) == Some(Delimiter([d[0]], false, 1));
    assert [d[0]] + d[1..] == d;
  }

  lemma ParsesPlain(d: string, t: string)
    requires d != "" && IsPlain(d) && d[0] != '-'
    ensures ParseHeredoc(d + ("\n" + t)) == Some(Parsed(Heredoc(d, false, false), |d|))
  {
    hide ReadDelimiter;
    var s := d + ("\n" + t);
    assert s[0..] == s && s[0] == d[0];
    assert SpacesAhead(s) == 0;
    ReadsPlain(d, t);
  }

  // ---- one here-document ---------------------------------------------------------

  /** Only a preceding `<` matters. */
  lemma PrevIrrelevant(prev: Option<char>, s: string, st: Lexer)
    requires prev != Some('<')
    ensures Lex(prev, s, st) == Lex(None, s, st)
  {
    hide Lex, Operator;
    if s == "" {
      LexEnd(prev, st);
      LexEnd(None, st);
    } else {
      var m := Advance(prev, s, st);
      assert Advance(None, s, st) == m;
      LexUnfold(prev, s, st, m, s[m.used..]);
      LexUnfold(None, s, st, m, s[m.used..]);
    }
  }

  lemma RedirectOpens(prev: Option<char>, st: Lexer, word: string, after: string, h: Heredoc)
    requires st.quote == Unquoted && !st.escaped && prev != Some('<') && word != "" && word[0] != '<'
    requires ParseHeredoc(word + ("\n" + after)) == Some(Parsed(h, |word|))
    ensures var next := FlushWord(st).(pending := st.pending + [h], unsupported := true);
            Lex(prev, "<<" + (word + ("\n" + after)), st) == Lex(Some(word[|word| - 1]), "\n" + after, next)
  {
    hide Lex, ParseHeredoc;
    var s := "<<" + (word + ("\n" + after));
    var next := FlushWord(st).(pending := st.pending + [h], unsupported := true);
    assert s[2..] == word + ("\n" + after) && s[2] == word[0];
    var m := Move(next, 2 + |word|, [], []);
    assert Redirect(prev, s, st) == m;
    assert Advance(prev, s, st) == m;
    assert s[m.used..] == "\n" + after && s[m.used - 1] == word[|word| - 1];
    LexUnfold(prev, s, st, m, "\n" + after);
    assert [] + TokenizeAll([]) + Lex(Some(word[|word| - 1]), "\n" + after, next)
           == Lex(Some(word[|word| - 1]), "\n" + after, next);
  }

  lemma ConsumeOne(s: string, h: Heredoc, r: Scanned)
    requires r == Scan(s, h)
    ensures Consume(s, [h]) == Consumed(BodySubstitutions(h, r.body), r.used)
  {
    hide Scan, BodySubstitutions;
    ConsumeUnfold(s, [h], r, s[r.used..], []);
    assert BodySubstitutions(h, r.body) + [] == BodySubstitutions(h, r.body);
  }

  lemma NewlineConsumes(prev: Option<char>, st: Lexer, after: string, h: Heredoc, r: Scanned)
    requires st.quote == Unquoted && !st.escaped && st.pending == [h] && r == Scan(after, h)
    ensures Lex(prev, "\n" + after, st)
            == Flushed(st, false) + TokenizeAll(BodySubstitutions(h, r.body)) + Lex(None, after[r.used..], FRESH)
  {
    hide Lex, Scan, BodySubstitutions, Consume;
    var s := "\n" + after;
    assert s[1..] == after;
    ConsumeOne(after, h, r);
    var subs := BodySubstitutions(h, r.body);
    var m := Move(FRESH, 1 + r.used, Flushed(st, false), subs);
    assert Operator(s, st) == m;
    assert Advance(prev, s, st) == m;
    assert s[m.used..] == after[r.used..];
    LexUnfold(prev, s, st, m, after[r.used..]);
    EndsAtLineBreak(after, h, r);
    assert s[m.used - 1] == if r.used == 0 then '\n' else after[r.used - 1];
    if s[m.used - 1] != '<' { PrevIrrelevant(Some(s[m.used - 1]), after[r.used..], FRESH); }
    else { LexEnds(Some('<'), after[r.used..]); }
  }

  lemma LexEnds(prev: Option<char>, s: string)
    requires s == ""
    ensures Lex(prev, s, FRESH) == Lex(None, s, FRESH)
  {}

  /** A document ends at a newline or with the command. */
  lemma {:induction false} EndsAtLineBreak(s: string, h: Heredoc, r: Scanned)
    requires r == Scan(s, h)
    ensures r.used < |s| ==> r.used > 0 && s[r.used - 1] == '\n'
    decreases |s|
  {
    hide Closes;
    if s == "" {
    } else {
      var n := LineLength(s);
      if !Closes(h, FirstLine(s)) {
        EndsAtLineBreak(s[n..], h, Scan(s[n..], h));
      }
    }
  }

  /** A here-document contributes the segment of its command line and then the commands
      substituted in its body, after which lexing starts afresh behind the closing line. */
  lemma HeredocDelivers(prev: Option<char>, st: Lexer, word: string, h: Heredoc, lines: seq<string>, close: string,
                        rest: string)
    requires st.quote == Unquoted && !st.escaped && st.pending == [] && prev != Some('<') && word != ""
             && word[0] != '<'
    requires ParseHeredoc(word + ("\n" + (Join(lines) + (close + "\n" + rest)))) == Some(Parsed(h, |word|))
    requires AllOpen(h, lines) && OneLine(close) && Closes(h, close)
    ensures Lex(prev, "<<" + (word + ("\n" + (Join(lines) + (close + "\n" + rest)))), st)
            == Flushed(st.(unsupported := true), false) + TokenizeAll(BodySubstitutions(h, Join(lines)))
              + Tokenize(rest)
  {
    hide Lex, ParseHeredoc, Scan, BodySubstitutions, Closes;
    var after := Join(lines) + (close + "\n" + rest);
    var next := FlushWord(st).(pending := [h], unsupported := true);
    assert st.pending + [h] == [h];
    RedirectOpens(prev, st, word, after, h);
    ScanDocument(h, lines, close, rest);
    NewlineConsumes(Some(word[|word| - 1]), next, after, h, Scanned(Join(lines), true, |Join(lines)| + |close| + 1));
    assert after[|Join(lines)| + |close| + 1..] == rest;
    assert Flushed(next, false) == Flushed(st.(unsupported := true), false);
  }

  /** The command in front of the redirection. */
  lemma CommandThenHeredoc(args: seq<string>, text: string)
    requires args != []
    ensures Tokenize(Words(args) + (" " + text)) == Lex(Some(' '), text, FRESH.(tokens := NonEmpty(args)))
  {
    hide Words, AfterWords;
    hide Lex;
    WordsReadBack(None, args, " " + text, FRESH);
    WordsFlush(args, false);
    var st := AfterWords(FRESH, args);
    LexOne(Some('\''), " " + text, st, FlushWord(st), text);
  }

  function Document(word: string, lines: seq<string>, close: string, rest: string): string {
    "<<" + (word + ("\n" + (Join(lines) + (close + "\n" + rest))))
  }

  /** With a quoted delimiter the body is inert: whatever quotes, operators, comments or
      substitutions its lines hold, the segments are that of the command and those of the text
      behind the closing line. */
  lemma QuotedHeredocIsInert(args: seq<string>, stripTabs: bool, d: string, lines: seq<string>, close: string,
                             rest: string)
    requires args != [] && d != "" && '\'' !in d
    requires AllOpen(Heredoc(d, stripTabs, true), lines) && OneLine(close) && Closes(Heredoc(d, stripTabs, true), close)
    ensures Tokenize(Words(args) + (" " + Document(QuotedWord(stripTabs, d), lines, close, rest)))
            == [Segment(NonEmpty(args), true, false)] + Tokenize(rest)
  {
    hide Lex, Tokenize, ParseHeredoc, Closes;
    var word, h := QuotedWord(stripTabs, d), Heredoc(d, stripTabs, true);
    CommandThenHeredoc(args, Document(word, lines, close, rest));
    ParsesQuoted(stripTabs, d, Join(lines) + (close + "\n" + rest));
    HeredocDelivers(Some(' '), FRESH.(tokens := NonEmpty(args)), word, h, lines, close, rest);
    assert BodySubstitutions(h, Join(lines)) == [] && TokenizeAll([]) == [];
    var mine := [Segment(NonEmpty(args), true, false)];
    assert mine + [] + Tokenize(rest) == mine + Tokenize(rest);
  }

  /** With a plain delimiter exactly the substitutions of the body are lexed, in between. */
  lemma PlainHeredocRunsSubstitutions(args: seq<string>, d: string, lines: seq<string>, close: string, rest: string)
    requires args != [] && d != "" && IsPlain(d) && d[0] != '-'
    requires AllOpen(Heredoc(d, false, false), lines) && OneLine(close) && Closes(Heredoc(d, false, false), close)
    ensures Tokenize(Words(args) + (" " + Document(d, lines, close, rest)))
            == [Segment(NonEmpty(args), true, false)] + TokenizeAll(Substitutions(None, Join(lines))) + Tokenize(rest)
  {
    hide Lex, Tokenize, ParseHeredoc, Closes, Substitutions;
    var h := Heredoc(d, false, false);
    CommandThenHeredoc(args, Document(d, lines, close, rest));
    ParsesPlain(d, Join(lines) + (close + "\n" + rest));
    HeredocDelivers(Some(' '), FRESH.(tokens := NonEmpty(args)), d, h, lines, close, rest);
  }

  /** Lines that do not close, and a last one that the command may end in. */
  predicate NeverCloses(h: Heredoc, lines: seq<string>, last: string) {
    AllOpen(h, lines) && OneLine(last) && (last == "" || !Closes(h, last))
  }

  lemma ScanUnclosed(h: Heredoc, lines: seq<string>, last: string)
    requires NeverCloses(h, lines, last)
    ensures var body := Join(lines) + last; Scan(body, h) == Scanned(body, false, |body|)
  {
    hide Closes, Join;
    if last != "" {
      assert FirstLine(last) == last && LineLength(last) == |last|;
      assert last[|last|..] == "" && last[..|last|] + "" == last;
    }
    ScanLines(h, lines, last);
  }

  /** A document that is never closed swallows the rest of the command, whatever its delimiter:
      behind the segment of the command line only substitutions of the body are left. */
  lemma UnclosedHeredocSwallowsRest(prev: Option<char>, st: Lexer, word: string, h: Heredoc, lines: seq<string>,
                                    last: string)
    requires st.quote == Unquoted && !st.escaped && st.pending == [] && prev != Some('<') && word != ""
             && word[0] != '<'
    requires ParseHeredoc(word + ("\n" + (Join(lines) + last))) == Some(Parsed(h, |word|))
    requires NeverCloses(h, lines, last)
    ensures Lex(prev, "<<" + (word + ("\n" + (Join(lines) + last))), st)
            == Flushed(st.(unsupported := true), false) + TokenizeAll(BodySubstitutions(h, Join(lines) + last))
  {
    hide Lex, ParseHeredoc, Scan, BodySubstitutions, NeverCloses, Join;
    var after := Join(lines) + last;
    var next := FlushWord(st).(pending := [h], unsupported := true);
    assert st.pending + [h] == [h];
    RedirectOpens(prev, st, word, after, h);
    ScanUnclosed(h, lines, last);
    NewlineConsumes(Some(word[|word| - 1]), next, after, h, Scanned(after, false, |after|));
    assert after[|after|..] == "";
    LexEnd(None, FRESH);
    assert Flushed(FRESH, false) == [];
    assert Flushed(next, false) == Flushed(st.(unsupported := true), false);
  }

  /** With a quoted delimiter that leaves the command alone. */
  lemma UnclosedQuotedHeredoc(args: seq<string>, stripTabs: bool, d: string, lines: seq<string>, last: string)
    requires args != [] && d != "" && '\'' !in d && NeverCloses(Heredoc(d, stripTabs, true), lines, last)
    ensures Tokenize(Words(args) + (" " + ("<<" + (QuotedWord(stripTabs, d) + ("\n" + (Join(lines) + last))))))
            == [Segment(NonEmpty(args), true, false)]
  {
    hide Lex, Tokenize, ParseHeredoc, NeverCloses;
    var word, h, after := QuotedWord(stripTabs, d), Heredoc(d, stripTabs, true), Join(lines) + last;
    CommandThenHeredoc(args, "<<" + (word + ("\n" + after)));
    ParsesQuoted(stripTabs, d, after);
    UnclosedHeredocSwallowsRest(Some(' '), FRESH.(tokens := NonEmpty(args)), word, h, lines, last);
    assert BodySubstitutions(h, after) == [] && TokenizeAll([]) == [];
  }

  // ---- edge cases of the closing line --------------------------------------------

  lemma {:induction false} StripTabsIs(line: string)
    ensures |StripTabs(line)| <= |line| && !Peek(StripTabs(line), 0, '\t')
    ensures StripTabs(line) == line <==> !Peek(line, 0, '\t')
  {
    if !Peek(line, 0, '\t') {
    } else {
      StripTabsIs(line[1..]);
    }
  }

  /** The delimiter as a line of its own closes the document unless it ends in a carriage
      return, or starts with a tab that `<<-` strips. */
  lemma DelimiterClosesItself(h: Heredoc)
    requires h.delimiter != ""
    ensures Closes(h, h.delimiter)
            <==> h.delimiter[|h.delimiter| - 1] != '\r' && (h.stripTabs ==> h.delimiter[0] != '\t')
  {
    StripTabsIs(h.delimiter);
  }

  /** A concrete document that its own delimiter does not close. */
  lemma ReturnDelimiterNeverCloses()
    ensures !Closes(Heredoc("E\r", false, true), "E\r")
  {
    DelimiterClosesItself(Heredoc("E\r", false, true));
  }

  /** A closing line may carry one carriage return. */
  lemma ReturnTolerated(h: Heredoc)
    requires h.delimiter != "" && (h.stripTabs ==> h.delimiter[0] != '\t')
    ensures Closes(h, h.delimiter + "\r")
  {
    var line := h.delimiter + "\r";
    StripTabsIs(line);
    assert line[0] == h.delimiter[0] && line[..|line| - 1] == h.delimiter;
  }

  // ---- substitutions -------------------------------------------------------------

  /** A body without a dollar sign and without a backtick runs nothing. */
  lemma {:induction false} NothingToSubstitute(prev: Option<char>, body: string)
    requires '$' !in body && '`' !in body
    ensures Substitutions(prev, body) == []
    decreases |body|
  {
    if body == "" {
    } else {
      assert SubstitutionAt(prev, body) == Found(None, 1);
      NothingToSubstitute(Some(body[0]), body[1..]);
      SubstitutionsUnfold(prev, body, Found(None, 1), body[1..]);
    }
  }

  /** Scanned as the inside of `$(...)`, with `nested` further ones open, the text never closes
      more than it opened and ends outside of them and outside of quotes. */
  predicate Encloses(before: char, inner: string, nested: nat, quote: Quote)
    decreases |inner|
  {
    if inner == "" then nested == 0 && quote == Unquoted
    else
      var p := ParenStep(before, inner, nested + 1, quote);
      p.depth > 0 && Encloses(inner[p.used - 1], inner[p.used..], p.depth - 1, p.quote)
  }

  lemma EnclosesUnfold(before: char, inner: string, nested: nat, quote: Quote, p: Paren, tail: string)
    requires inner != "" && p == ParenStep(before, inner, nested + 1, quote) && tail == inner[p.used..]
    ensures Encloses(before, inner, nested, quote)
            <==> p.depth > 0 && Encloses(inner[p.used - 1], tail, p.depth - 1, p.quote)
  {}

  /** A step sees no further than the text in front of a parenthesis that closes. */
  lemma StepStaysInside(before: char, inner: string, t: string, depth: nat, quote: Quote)
    requires inner != ""
    ensures ParenStep(before, inner + (")" + t), depth, quote) == ParenStep(before, inner, depth, quote)
  {
    var s := inner + (")" + t);
    assert s[0] == inner[0] && (|inner| == 1 ==> s[1] == ')') && (|inner| > 1 ==> s[1] == inner[1]);
  }

  /** The parenthesis behind a text is the closing one exactly when the text is enclosed. */
  lemma {:induction false} ClosesBehind(before: char, inner: string, t: string, nested: nat, quote: Quote)
    ensures CloseParen(before, inner + (")" + t), nested + 1, quote) == Some(|inner|)
            <==> Encloses(before, inner, nested, quote)
    decreases |inner|
  {
    hide CloseParen, Encloses;
    var s := inner + (")" + t);
    if inner == "" {
      assert s == ")" + t && s[1..] == t;
      CloseParenUnfold(before, s, nested + 1, quote, ParenStep(before, s, nested + 1, quote), t);
      EmptyEncloses(before, nested, quote);
    } else {
      StepStaysInside(before, inner, t, nested + 1, quote);
      var p := ParenStep(before, inner, nested + 1, quote);
      var tail := inner[p.used..];
      assert s[p.used..] == tail + (")" + t) && s[p.used - 1] == inner[p.used - 1];
      CloseParenUnfold(before, s, nested + 1, quote, p, tail + (")" + t));
      EnclosesUnfold(before, inner, nested, quote, p, tail);
      if p.depth > 0 { ClosesBehind(inner[p.used - 1], tail, t, p.depth - 1, p.quote); }
    }
  }

  lemma EmptyEncloses(before: char, nested: nat, quote: Quote)
    ensures Encloses(before, "", nested, quote) <==> nested == 0 && quote == Unquoted
  {}

  /** In `$(inner)t` the substitution found is `inner`, whole, if and only if `inner` encloses;
      the search then resumes behind it. */
  lemma SubstitutionFoundIff(prev: Option<char>, inner: string, t: string)
    ensures var s := "$(" + (inner + (")" + t));
            SubstitutionAt(prev, s) == Found(Some(inner), |inner| + 3) <==> Encloses('(', inner, 0, Unquoted)
    ensures Encloses('(', inner, 0, Unquoted) ==>
              Substitutions(prev, "$(" + (inner + (")" + t))) == [inner] + Substitutions(Some(')'), t)
  {
    hide CloseParen, Substitutions, Encloses;
    var s := "$(" + (inner + (")" + t));
    assert s[0] == '$' && s[1] == '(' && s[2..] == inner + (")" + t);
    ClosesBehind('(', inner, t, 0, Unquoted);
    assert s[2..|inner| + 2] == inner && s[|inner| + 3..] == t && s[|inner| + 2] == ')';
    if Encloses('(', inner, 0, Unquoted) {
      SubstitutionsUnfold(prev, s, Found(Some(inner), |inner| + 3), t);
    }
  }

  predicate IsSimple(inner: string) {
    forall i :: 0 <= i < |inner| ==> inner[i] != '$' && inner[i] != '\'' && inner[i] != '"' && inner[i] != ')'
  }

  /** Text without quotes, dollar signs and closing parentheses encloses. */
  lemma {:induction false} SimpleEncloses(before: char, inner: string)
    requires IsSimple(inner)
    ensures Encloses(before, inner, 0, Unquoted)
    decreases |inner|
  {
    if inner == "" {
    } else {
      assert ParenStep(before, inner, 1, Unquoted) == Paren(1, Unquoted, 1);
      SimpleEncloses(inner[0], inner[1..]);
    }
  }

  /** Closing one more level than the text opened. */
  lemma {:induction false} EnclosesThen(before: char, inner: string, more: string, nested: nat, quote: Quote)
    requires Encloses(before, inner, nested, quote)
    ensures Encloses(before, inner + (")" + more), nested + 1, quote) <==> Encloses(')', more, 0, Unquoted)
    decreases |inner|
  {
    hide Encloses;
    var s := inner + (")" + more);
    if inner == "" {
      EmptyEncloses(before, nested, quote);
      assert s == ")" + more && s[1..] == more;
      EnclosesUnfold(before, s, 1, Unquoted, Paren(1, Unquoted, 1), more);
    } else {
      var p := ParenStep(before, inner, nested + 1, quote);
      var tail := inner[p.used..];
      EnclosesUnfold(before, inner, nested, quote, p, tail);
      StepStaysInside(before, inner, more, nested + 2, quote);
      assert s[p.used..] == tail + (")" + more) && s[p.used - 1] == inner[p.used - 1];
      EnclosesUnfold(before, s, nested + 1, quote, p.(depth := p.depth + 1), tail + (")" + more));
      EnclosesThen(inner[p.used - 1], tail, more, p.depth - 1, p.quote);
    }
  }

  /** A substitution inside encloses what follows it, to any depth. */
  lemma NestedEncloses(before: char, inner: string, more: string)
    requires Encloses('(', inner, 0, Unquoted)
    ensures Encloses(before, "$(" + (inner + (")" + more)), 0, Unquoted) <==> Encloses(')', more, 0, Unquoted)
  {
    hide Encloses;
    var s := "$(" + (inner + (")" + more));
    assert s[0] == '$' && s[1] == '(' && s[2..] == inner + (")" + more);
    EnclosesThen('(', inner, more, 0, Unquoted);
    EnclosesUnfold(before, s, 0, Unquoted, Paren(2, Unquoted, 2), inner + (")" + more));
  }
}
