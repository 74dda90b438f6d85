/** Every way of writing a command that the shell lexer has to undo (clients/bash-file-access.ts:180-304):
    single quotes, double quotes, escapes and plain text within one word, line continuations,
    comments, redirections and all separators. Here-documents are in ShellHeredocs. */
module ShellPrinting {
  import opened JsMap
  import opened Text
  import opened ShellLexer
  import opened ShellQuoting

  // ---- words ---------------------------------------------------------------------

  /** A character inside double quotes, with or without a backslash in front. */
  datatype Marked = Marked(c: char, backslash: bool)

  /** Part of a word. `Backslashed` is a backslash that stands for itself, as in a native path;
      `Continued` is an escaped newline, which stands for nothing. */
  datatype Piece =
    | InSingle(text: string)
    | InDouble(chars: seq<Marked>)
    | Bare(text: string)
    | Escaped(c: char)
    | Backslashed(next: char)
    | Continued

  /** Means nothing to the shell. A `#` does only where a word begins. */
  predicate IsPlain(c: char) {
    !IsSpace(c) && c != '\\' && c != '\'' && c != '"' && c != ';' && c != '|' && c != '&' && c != '<' && c != '>'
  }

  /** What a backslash outside quotes makes plain; before anything else it stands for itself. */
  predicate CanEscape(c: char) { !IsPlain(c) || c == '$' }

  predicate PieceOk(piece: Piece, start: bool) {
    match piece
    case InSingle(_) => true
    case InDouble(chars) =>
      forall i :: 0 <= i < |chars| && (chars[i].c == '"' || chars[i].c == '\\') ==> chars[i].backslash
    case Bare(text) =>
      (forall i :: 0 <= i < |text| ==> IsPlain(text[i])) && !(start && text != "" && text[0] == '#')
    case Escaped(c) => CanEscape(c) && c != '\n'
    case Backslashed(next) => !CanEscape(next)
    case Continued => true
  }

  function Chars(chars: seq<Marked>): string { if chars == [] then "" else [chars[0].c] + Chars(chars[1..]) }

  function Marks(chars: seq<Marked>): string {
    if chars == [] then "" else (if chars[0].backslash then ['\\', chars[0].c] else [chars[0].c]) + Marks(chars[1..])
  }

  /** How the piece is written. */
  function PrintPiece(piece: Piece): string {
    match piece
    case InSingle(text) => QuoteArg(text)
    case InDouble(chars) => "\"" + (Marks(chars) + "\"")
    case Bare(text) => text
    case Escaped(c) => ['\\', c]
    case Backslashed(next) => ['\\', next]
    case Continued => "\\\n"
  }

  /** What it stands for. */
  function ValueOf(piece: Piece): string {
    match piece
    case InSingle(text) => text
    case InDouble(chars) => Chars(chars)
    case Bare(text) => text
    case Escaped(c) => [c]
    case Backslashed(next) => ['\\', next]
    case Continued => ""
  }

  function PrintWord(word: seq<Piece>): string {
    if word == [] then "" else PrintPiece(word[0]) + PrintWord(word[1..])
  }

  function WordValue(word: seq<Piece>): string {
    if word == [] then "" else ValueOf(word[0]) + WordValue(word[1..])
  }

  /** Only the first piece that is written at all stands where a word begins. */
  predicate WordOk(word: seq<Piece>, start: bool) {
    word != [] ==> PieceOk(word[0], start) && WordOk(word[1..], start && word[0] == Bare(""))
  }

  // ---- one piece -----------------------------------------------------------------

  predicate Ready(st: Lexer) { st.quote == Unquoted && !st.escaped }

  /** The state after a piece: its value has joined the word. */
  function Joined(st: Lexer, text: string, start: bool): Lexer { st.(word := st.word + text, atTokenStart := start) }

  lemma {:induction false} DoubleReadsBack(prev: Option<char>, chars: seq<Marked>, rest: string, st: Lexer)
    requires st.quote == Double && !st.escaped && PieceOk(InDouble(chars), false)
    ensures Lex(prev, Marks(chars) + ("\"" + rest), st)
            == Lex(Some('"'), rest, st.(word := st.word + Chars(chars), quote := Unquoted))
    decreases |chars|
  {
    hide Lex;
    var close := "\"" + rest;
    if chars == [] {
      assert Marks(chars) + close == close && st.word + Chars(chars) == st.word;
      LexOne(prev, close, st, st.(quote := Unquoted), rest);
    } else {
      var m, more := chars[0], Marks(chars[1..]) + close;
      var next := st.(word := st.word + [m.c]);
      Associates(if m.backslash then ['\\', m.c] else [m.c], Marks(chars[1..]), close);
      Associates(st.word, [m.c], Chars(chars[1..]));
      if m.backslash {
        var s, tail := ['\\', m.c] + more, [m.c] + more;
        assert s[1..] == tail && tail[1..] == more;
        LexOne(prev, s, st, st.(escaped := true), tail);
        LexOne(Some('\\'), tail, st.(escaped := true), next, more);
      } else {
        assert ([m.c] + more)[1..] == more;
        LexOne(prev, [m.c] + more, st, next, more);
      }
      DoubleReadsBack(Some(m.c), chars[1..], rest, next);
    }
  }

  lemma InDoubleReadsBack(prev: Option<char>, chars: seq<Marked>, rest: string, st: Lexer)
    requires Ready(st) && PieceOk(InDouble(chars), false)
    ensures Lex(prev, PrintPiece(InDouble(chars)) + rest, st) == Lex(Some('"'), rest, Joined(st, Chars(chars), false))
  {
    hide Lex;
    var tail := Marks(chars) + ("\"" + rest);
    var s, open := PrintPiece(InDouble(chars)) + rest, st.(quote := Double, atTokenStart := false);
    assert s == "\"" + tail && s[1..] == tail;
    LexOne(prev, s, st, open, tail);
    DoubleReadsBack(Some('"'), chars, rest, open);
    assert open.(word := open.word + Chars(chars), quote := Unquoted) == Joined(st, Chars(chars), false);
  }

  lemma InSingleReadsBack(prev: Option<char>, text: string, rest: string, st: Lexer)
    requires Ready(st)
    ensures Lex(prev, QuoteArg(text) + rest, st) == Lex(Some('\''), rest, Joined(st, text, false))
  {
    hide Lex;
    var tail := Escape(text) + ("'" + rest);
    var s, open := QuoteArg(text) + rest, st.(quote := Single, atTokenStart := false);
    assert s == "'" + tail && s[1..] == tail;
    LexOne(prev, s, st, open, tail);
    EscapedReadsBack(Some('\''), text, rest, open, st.word + text);
    assert open.(word := st.word + text, quote := Unquoted) == Joined(st, text, false);
  }

  lemma PlainReadsBack(prev: Option<char>, c: char, tail: string, st: Lexer)
    requires Ready(st) && IsPlain(c) && !(c == '#' && st.atTokenStart)
    ensures Lex(prev, [c] + tail, st) == Lex(Some(c), tail, Joined(st, [c], false))
  {
    hide Lex;
    assert ([c] + tail)[1..] == tail;
    LexOne(prev, [c] + tail, st, Joined(st, [c], false), tail);
  }

  lemma {:induction false} BareReadsBack(prev: Option<char>, text: string, rest: string, st: Lexer)
    returns (last: Option<char>)
    requires Ready(st) && PieceOk(Bare(text), st.atTokenStart)
    ensures Lex(prev, text + rest, st) == Lex(last, rest, Joined(st, text, st.atTokenStart && text == ""))
    decreases |text|
  {
    hide Lex, IsPlain;
    if text == "" {
      last := prev;
      assert text + rest == rest && Joined(st, "", st.atTokenStart) == st;
    } else {
      assert text == [text[0]] + text[1..] && text + rest == [text[0]] + (text[1..] + rest);
      PlainReadsBack(prev, text[0], text[1..] + rest, st);
      Associates(st.word, [text[0]], text[1..]);
      last := BareReadsBack(Some(text[0]), text[1..], rest, Joined(st, [text[0]], false));
    }
  }

  lemma EscapedIs(prev: Option<char>, c: char, rest: string, st: Lexer)
    requires Ready(st) && CanEscape(c)
    ensures Lex(prev, ['\\', c] + rest, st)
            == Lex(Some(c), rest, Joined(st, if c == '\n' then "" else [c], false))
  {
    hide Lex;
    var s, tail := ['\\', c] + rest, [c] + rest;
    assert s[1..] == tail && tail[1..] == rest;
    var half := st.(escaped := true, atTokenStart := false);
    LexOne(prev, s, st, half, tail);
    assert st.word + "" == st.word;
    LexOne(Some('\\'), tail, half, Joined(st, if c == '\n' then "" else [c], false), rest);
  }

  lemma BackslashedIs(prev: Option<char>, c: char, rest: string, st: Lexer)
    requires Ready(st) && !CanEscape(c)
    ensures Lex(prev, ['\\', c] + rest, st) == Lex(Some(c), rest, Joined(st, ['\\', c], false))
  {
    hide Lex;
    var s, tail := ['\\', c] + rest, [c] + rest;
    assert s[1..] == tail;
    LexOne(prev, s, st, Joined(st, "\\", false), tail);
    PlainReadsBack(Some('\\'), c, rest, Joined(st, "\\", false));
    Associates(st.word, "\\", [c]);
    assert "\\" + [c] == ['\\', c];
  }

  /** Reading one piece adds what it stands for to the word. */
  lemma PieceReadsBack(prev: Option<char>, piece: Piece, rest: string, st: Lexer) returns (last: Option<char>)
    requires Ready(st) && PieceOk(piece, st.atTokenStart)
    ensures Lex(prev, PrintPiece(piece) + rest, st)
            == Lex(last, rest, Joined(st, ValueOf(piece), st.atTokenStart && piece == Bare("")))
  {
    hide Lex, Marks, Chars, QuoteArg, Joined;
    match piece {
      case InSingle(text) => InSingleReadsBack(prev, text, rest, st); last := Some('\'');
      case InDouble(chars) => InDoubleReadsBack(prev, chars, rest, st); last := Some('"');
      case Bare(text) => last := BareReadsBack(prev, text, rest, st);
      case Escaped(c) => EscapedIs(prev, c, rest, st); last := Some(c);
      case Backslashed(c) => BackslashedIs(prev, c, rest, st); last := Some(c);
      case Continued => EscapedIs(prev, '\n', rest, st); last := Some('\n');
    }
  }

  predicate Unwritten(word: seq<Piece>) { word != [] ==> word[0] == Bare("") && Unwritten(word[1..]) }

  lemma {:induction false} WordReadsBack(prev: Option<char>, word: seq<Piece>, rest: string, st: Lexer)
    returns (last: Option<char>)
    requires Ready(st) && WordOk(word, st.atTokenStart)
    ensures Lex(prev, PrintWord(word) + rest, st)
            == Lex(last, rest, Joined(st, WordValue(word), st.atTokenStart && Unwritten(word)))
    decreases |word|
  {
    hide Lex, PrintPiece, ValueOf, PieceOk;
    if word == [] {
      last := prev;
      assert PrintWord(word) + rest == rest && Joined(st, "", st.atTokenStart) == st;
    } else {
      var more := PrintWord(word[1..]) + rest;
      Associates(PrintPiece(word[0]), PrintWord(word[1..]), rest);
      var first := PieceReadsBack(prev, word[0], more, st);
      var next := Joined(st, ValueOf(word[0]), st.atTokenStart && word[0] == Bare(""));
      Associates(st.word, ValueOf(word[0]), WordValue(word[1..]));
      last := WordReadsBack(first, word[1..], rest, next);
    }
  }

  // ---- commands ------------------------------------------------------------------

  /** A word or a redirection, and the blanks behind it. */
  datatype Item = Arg(word: seq<Piece>, gap: string) | Redirection(operator: char, gap: string)

  /** Blanks, items and perhaps a comment up to the end of the line. */
  datatype Command = Command(lead: string, items: seq<Item>, comment: Option<string>)

  datatype Joint = Semi | Newline | AndIf | OrIf | Piped | Background

  datatype Program = End(cmd: Command) | Join(cmd: Command, joint: Joint, rest: Program)

  predicate IsGap(text: string) { forall i :: 0 <= i < |text| ==> IsSpace(text[i]) && text[i] != '\n' }

  function PrintItem(item: Item): string {
    (match item case Arg(word, _) => PrintWord(word) case Redirection(op, _) => [op]) + item.gap
  }

  function PrintItems(items: seq<Item>): string {
    if items == [] then "" else PrintItem(items[0]) + PrintItems(items[1..])
  }

  /** A word is followed by blanks, by a redirection or by the end of the command; `<` is not
      followed by another one. */
  predicate ItemsOk(items: seq<Item>) {
    items != [] ==>
      && ItemsOk(items[1..])
      && IsGap(items[0].gap)
      && match items[0]
         case Arg(word, gap) => WordOk(word, true) && (gap != "" || |items| == 1 || items[1].Redirection?)
         case Redirection(op, gap) => op == '>' || (op == '<' && !Peek(gap + PrintItems(items[1..]), 0, '<'))
  }

  /** The last item leaves room for a comment. */
  predicate EndsOpen(items: seq<Item>) {
    items == [] || items[|items| - 1].Redirection? || items[|items| - 1].gap != ""
  }

  /** A comment stands where a word could begin. */
  predicate CommandOk(c: Command) {
    && IsGap(c.lead) && ItemsOk(c.items)
    && (c.comment.Some? ==> '\n' !in c.comment.value && EndsOpen(c.items))
  }

  function PrintCommand(c: Command): string {
    c.lead + (PrintItems(c.items) + (match c.comment case Some(text) => "#" + text case None => ""))
  }

  function JointText(joint: Joint): string {
    match joint
    case Semi => ";" case Newline => "\n" case AndIf => "&&" case OrIf => "||" case Piped => "|" case Background => "&"
  }

  function Print(p: Program): string {
    match p
    case End(cmd) => PrintCommand(cmd)
    case Join(cmd, joint, rest) => PrintCommand(cmd) + (JointText(joint) + Print(rest))
  }

  /** Only a newline ends a comment, and a single `|` or `&` is not followed by another. */
  predicate ProgramOk(p: Program) {
    && CommandOk(p.cmd)
    && (p.Join? ==>
          && ProgramOk(p.rest)
          && (p.cmd.comment.Some? ==> p.joint == Newline)
          && (p.joint == Piped ==> !Peek(Print(p.rest), 0, '|'))
          && (p.joint == Background ==> !Peek(Print(p.rest), 0, '&')))
  }

  // ---- what comes back -----------------------------------------------------------

  /** The words of a command, without the empty ones. */
  function Values(items: seq<Item>): seq<string> {
    if items == [] then []
    else
      (if items[0].Arg? && WordValue(items[0].word) != "" then [WordValue(items[0].word)] else [])
      + Values(items[1..])
  }

  predicate Redirects(items: seq<Item>) { exists i :: 0 <= i < |items| && items[i].Redirection? }

  /** A command gives one segment, unless there is nothing to say about it. */
  function SegmentFor(c: Command, unsupported: bool, pipe: bool): seq<Segment> {
    if Values(c.items) == [] && !unsupported then [] else [Segment(Values(c.items), unsupported, pipe)]
  }

  function Expected(p: Program): seq<Segment> {
    match p
    case End(cmd) => SegmentFor(cmd, Redirects(cmd.items), false)
    case Join(cmd, joint, rest) =>
      SegmentFor(cmd, Redirects(cmd.items) || joint == Piped || joint == Background, joint == Piped) + Expected(rest)
  }

  // ---- items ---------------------------------------------------------------------

  /** What has been read of a command: these words and this mark, up to a pending last word. */
  ghost predicate Holds(st: Lexer, tokens: seq<string>, unsupported: bool) {
    Ready(st) && FlushWord(st) == FRESH.(tokens := tokens, unsupported := unsupported)
  }

  predicate AtStart(st: Lexer) { st.word == "" && st.atTokenStart }

  lemma {:induction false} GapReadsBack(prev: Option<char>, gap: string, rest: string, st: Lexer)
    returns (last: Option<char>)
    requires Ready(st) && IsGap(gap)
    ensures Lex(prev, gap + rest, st) == Lex(last, rest, if gap == "" then st else FlushWord(st))
    decreases |gap|
  {
    hide Lex, IsSpace;
    if gap == "" {
      last := prev;
      assert gap + rest == rest;
    } else {
      assert gap == [gap[0]] + gap[1..] && gap + rest == [gap[0]] + (gap[1..] + rest);
      BlankIs(prev, gap[0], gap[1..] + rest, st);
      last := GapReadsBack(Some(gap[0]), gap[1..], rest, FlushWord(st));
    }
  }

  lemma BlankIs(prev: Option<char>, c: char, rest: string, st: Lexer)
    requires Ready(st) && IsSpace(c) && c != '\n'
    ensures Lex(prev, [c] + rest, st) == Lex(Some(c), rest, FlushWord(st))
  {
    hide Lex;
    assert ([c] + rest)[1..] == rest;
    LexOne(prev, [c] + rest, st, FlushWord(st), rest);
  }

  /** A plain redirection ends the word and marks its segment. */
  lemma RedirectionIs(prev: Option<char>, op: char, rest: string, st: Lexer)
    requires Ready(st) && (op == '>' || (op == '<' && !Peek(rest, 0, '<')))
    ensures Lex(prev, [op] + rest, st) == Lex(Some(op), rest, FlushWord(st).(unsupported := true))
  {
    hide Lex, ParseHeredoc;
    var s := [op] + rest;
    assert s[1..] == rest && !(op == '<' && Peek(s, 1, '<'));
    LexOne(prev, s, st, FlushWord(st).(unsupported := true), rest);
  }

  lemma FlushTwice(st: Lexer)
    ensures FlushWord(FlushWord(st)) == FlushWord(st)
  {}

  /** One item adds its word, if there is one, or the mark. */
  lemma ItemReadsBack(prev: Option<char>, item: Item, rest: string, st: Lexer, tokens: seq<string>, unsupported: bool)
    returns (last: Option<char>, next: Lexer)
    requires IsGap(item.gap) && Holds(st, tokens, unsupported)
    requires match item
             case Arg(word, _) => AtStart(st) && WordOk(word, true)
             case Redirection(op, gap) => op == '>' || (op == '<' && !Peek(gap + rest, 0, '<'))
    ensures Lex(prev, PrintItem(item) + rest, st) == Lex(last, rest, next)
    ensures Holds(next, tokens + Values([item]), unsupported || item.Redirection?)
    ensures item.Redirection? || item.gap != "" ==> AtStart(next)
  {
    hide Lex, PrintWord, WordValue, WordOk, Unwritten, IsGap;
    var more := item.gap + rest;
    assert Values([item][1..]) == [];
    match item {
      case Arg(word, gap) =>
        assert PrintItem(item) + rest == PrintWord(word) + more;
        var first := WordReadsBack(prev, word, more, st);
        next := Joined(st, WordValue(word), st.atTokenStart && Unwritten(word));
        assert "" + WordValue(word) == WordValue(word);
        last := GapReadsBack(first, gap, rest, next);
        next := if gap == "" then next else FlushWord(next);
      case Redirection(op, gap) =>
        assert PrintItem(item) + rest == [op] + more;
        RedirectionIs(prev, op, more, st);
        next := FlushWord(st).(unsupported := true);
        last := GapReadsBack(Some(op), gap, rest, next);
        assert FlushWord(next) == next;
    }
  }

  lemma ValuesCons(item: Item, items: seq<Item>)
    ensures Values([item] + items) == Values([item]) + Values(items)
    ensures Redirects([item] + items) <==> item.Redirection? || Redirects(items)
  {
    var all := [item] + items;
    assert all[1..] == items && [item][1..] == [];
    if i :| 0 <= i < |items| && items[i].Redirection? { assert all[i + 1] == items[i]; }
  }

  lemma {:induction false} ItemsReadBack(prev: Option<char>, items: seq<Item>, tail: string, st: Lexer,
                                         tokens: seq<string>, unsupported: bool)
    returns (last: Option<char>, next: Lexer)
    requires ItemsOk(items) && Holds(st, tokens, unsupported) && !Peek(tail, 0, '<')
    requires AtStart(st) || (items != [] ==> items[0].Redirection?)
    ensures Lex(prev, PrintItems(items) + tail, st) == Lex(last, tail, next)
    ensures Holds(next, tokens + Values(items), unsupported || Redirects(items))
    ensures EndsOpen(items) && (AtStart(st) || items != []) ==> AtStart(next)
    decreases |items|
  {
    hide Lex, PrintItem, WordOk, Holds, AtStart;
    if items == [] {
      last, next := prev, st;
      assert PrintItems(items) + tail == tail && tokens + Values(items) == tokens;
    } else {
      var item, more := items[0], items[1..];
      var rest := PrintItems(more) + tail;
      assert items == [item] + more;
      ValuesCons(item, more);
      Associates(PrintItem(item), PrintItems(more), tail);
      assert item.gap + rest == (item.gap + PrintItems(more)) + tail;
      var first, mid := ItemReadsBack(prev, item, rest, st, tokens, unsupported);
      Associates(tokens, Values([item]), Values(more));
      last, next := ItemsReadBack(first, more, tail, mid, tokens + Values([item]), unsupported || item.Redirection?);
    }
  }

  // ---- comments and commands -----------------------------------------------------

  lemma {:induction false} CommentRuns(text: string, tail: string)
    requires '\n' !in text && (tail == "" || tail[0] == '\n')
    ensures CommentLength("#" + text + tail) == |text| + 1
  {
    CommentRest('#', text, tail);
  }

  lemma {:induction false} CommentRest(c: char, text: string, tail: string)
    requires '\n' !in text && (tail == "" || tail[0] == '\n')
    ensures CommentLength([c] + text + tail) == |text| + 1
    decreases |text|
  {
    var s := [c] + text + tail;
    if text == "" {
      assert s == [c] + tail;
    } else {
      assert s[1] == text[0] && s[1..] == [text[0]] + text[1..] + tail;
      CommentRest(text[0], text[1..], tail);
    }
  }

  /** A comment at the start of a word contributes nothing, whatever it says. */
  lemma CommentIs(prev: Option<char>, text: string, tail: string, st: Lexer) returns (last: Option<char>)
    requires Ready(st) && AtStart(st) && '\n' !in text && (tail == "" || tail[0] == '\n')
    ensures Lex(prev, "#" + text + tail, st) == Lex(last, tail, st)
  {
    hide Lex, CommentLength;
    var s, n := "#" + text + tail, |text| + 1;
    CommentRuns(text, tail);
    assert s[n..] == tail;
    LexUnfold(prev, s, st, Move(st, n, [], []), tail);
    last := Some(s[n - 1]);
    assert [] + TokenizeAll([]) + Lex(last, tail, st) == Lex(last, tail, st);
  }

  /** Reading a whole command from a fresh state. */
  lemma CommandReadsBack(prev: Option<char>, c: Command, tail: string) returns (last: Option<char>, next: Lexer)
    requires CommandOk(c) && !Peek(tail, 0, '<') && (c.comment.Some? ==> tail == "" || tail[0] == '\n')
    ensures Lex(prev, PrintCommand(c) + tail, FRESH) == Lex(last, tail, next)
    ensures Holds(next, Values(c.items), Redirects(c.items))
  {
    hide Lex, PrintItems, ItemsOk, IsGap, Values, Redirects;
    var comment := match c.comment case Some(text) => "#" + text case None => "";
    var more := comment + tail;
    Associates(c.lead, PrintItems(c.items) + comment, tail);
    Associates(PrintItems(c.items), comment, tail);
    last := GapReadsBack(prev, c.lead, PrintItems(c.items) + more, FRESH);
    assert FlushWord(FRESH) == FRESH;
    last, next := ItemsReadBack(last, c.items, more, FRESH, [], false);
    assert [] + Values(c.items) == Values(c.items);
    if c.comment.Some? {
      assert more == "#" + c.comment.value + tail;
      last := CommentIs(last, c.comment.value, tail, next);
    } else {
      assert more == tail;
    }
  }

  // ---- programs ------------------------------------------------------------------

  /** What completing a command yields. */
  lemma HoldsFlushes(st: Lexer, c: Command, redirects: bool, marked: bool, pipe: bool)
    requires Holds(st, Values(c.items), redirects)
    ensures var g := if marked then FlushWord(st).(unsupported := true) else FlushWord(st);
            Flushed(g, pipe) == SegmentFor(c, redirects || marked, pipe) && NextSegment(g) == FRESH
  {}

  lemma JointIs(prev: Option<char>, joint: Joint, rest: string, st: Lexer, c: Command, redirects: bool)
    returns (last: Option<char>)
    requires Holds(st, Values(c.items), redirects)
    requires (joint == Piped ==> !Peek(rest, 0, '|')) && (joint == Background ==> !Peek(rest, 0, '&'))
    ensures Lex(prev, JointText(joint) + rest, st)
            == SegmentFor(c, redirects || joint == Piped || joint == Background, joint == Piped)
               + Lex(last, rest, FRESH)
  {
    hide Lex, SegmentFor, Values, Operator;
    var s, marked := JointText(joint) + rest, joint == Piped || joint == Background;
    last := Some(JointText(joint)[0]);
    HoldsFlushes(st, c, redirects, marked, joint == Piped);
    JointMoves(joint, rest, st, c, redirects);
    var m := Move(FRESH, |JointText(joint)|, SegmentFor(c, redirects || marked, joint == Piped), []);
    OperatorNext(prev, s, st);
    LexUnfold(prev, s, st, m, rest);
    assert m.done + TokenizeAll([]) == m.done;
  }

  lemma OperatorNext(prev: Option<char>, s: string, st: Lexer)
    requires Ready(st) && s != "" && IsOperator(s[0])
    ensures Advance(prev, s, st) == Operator(s, st)
  {
    hide Operator;
  }

  lemma JointMoves(joint: Joint, rest: string, st: Lexer, c: Command, redirects: bool)
    requires Holds(st, Values(c.items), redirects)
    requires (joint == Piped ==> !Peek(rest, 0, '|')) && (joint == Background ==> !Peek(rest, 0, '&'))
    ensures var s, marked := JointText(joint) + rest, joint == Piped || joint == Background;
            && IsOperator(s[0]) && s[|JointText(joint)|..] == rest && s[|JointText(joint)| - 1] == JointText(joint)[0]
            && Operator(s, st)
               == Move(FRESH, |JointText(joint)|, SegmentFor(c, redirects || marked, joint == Piped), [])
  {
    hide SegmentFor, Values, Consume;
    var s, marked := JointText(joint) + rest, joint == Piped || joint == Background;
    HoldsFlushes(st, c, redirects, marked, joint == Piped);
    assert joint == Piped || joint == Background ==> Peek(s, 1, s[0]) == Peek(rest, 0, s[0]);
    assert FlushWord(st).pending == [];
  }

  lemma EndsCommand(prev: Option<char>, st: Lexer, c: Command)
    requires Holds(st, Values(c.items), Redirects(c.items))
    ensures Lex(prev, "", st) == SegmentFor(c, Redirects(c.items), false)
  {
    hide Lex;
    LexEnd(prev, st);
    HoldsFlushes(st, c, Redirects(c.items), false, false);
    assert Flushed(st, false) == Flushed(FlushWord(st), false) by { FlushTwice(st); }
  }

  lemma {:induction false} ProgramReadsBack(prev: Option<char>, p: Program)
    requires ProgramOk(p)
    ensures Lex(prev, Print(p), FRESH) == Expected(p)
    decreases p
  {
    hide Lex, PrintCommand, CommandOk, Holds, SegmentFor, Redirects, Values;
    match p {
      case End(cmd) =>
        var last, next := CommandReadsBack(prev, cmd, "");
        assert PrintCommand(cmd) + "" == PrintCommand(cmd);
        EndsCommand(last, next, cmd);
      case Join(cmd, joint, rest) =>
        var tail := JointText(joint) + Print(rest);
        var last, next := CommandReadsBack(prev, cmd, tail);
        var after := JointIs(last, joint, Print(rest), next, cmd, Redirects(cmd.items));
        ProgramReadsBack(after, rest);
    }
  }

  /** Lexing undoes every way of writing a program. Each command comes back as one segment with
      the values of its words in order, whatever mixture of single quotes, double quotes,
      escapes and plain text each was written in; continuations and comments have vanished; the
      segment is marked exactly if it has a redirection or is piped or put in the background. */
  lemma PrintingRoundTrip(p: Program)
    requires ProgramOk(p)
    ensures Tokenize(Print(p)) == Expected(p)
  {
    ProgramReadsBack(None, p);
  }

  // ---- one style for each argument -----------------------------------------------

  datatype Style = SingleQuotes | DoubleQuotes | Escapes

  function MarkAll(text: string): (chars: seq<Marked>)
    ensures |chars| == |text|
    ensures forall i :: 0 <= i < |text| ==> chars[i] == Marked(text[i], text[i] == '"' || text[i] == '\\')
  {
    seq(|text|, i requires 0 <= i < |text| => Marked(text[i], text[i] == '"' || text[i] == '\\'))
  }

  function EscapeAll(text: string): seq<Piece> {
    if text == "" then [] else [if CanEscape(text[0]) then Escaped(text[0]) else Bare([text[0]])] + EscapeAll(text[1..])
  }

  /** The argument in one style: in quotes, or with a backslash before each special character. */
  function Styled(arg: string, style: Style): seq<Piece> {
    match style
    case SingleQuotes => [InSingle(arg)]
    case DoubleQuotes => [InDouble(MarkAll(arg))]
    case Escapes => EscapeAll(arg)
  }

  /** Escapes can write neither a newline nor a leading `#`. */
  predicate CanWrite(arg: string, style: Style) {
    style == Escapes ==> '\n' !in arg && (arg != "" ==> arg[0] != '#')
  }

  lemma {:induction false} MarkedChars(text: string)
    ensures Chars(MarkAll(text)) == text
  {
    if text == "" {
    } else {
      assert MarkAll(text)[1..] == MarkAll(text[1..]);
      MarkedChars(text[1..]);
      assert text == [text[0]] + text[1..];
    }
  }

  lemma {:induction false} EscapedChars(text: string, start: bool)
    requires '\n' !in text && !(start && text != "" && text[0] == '#')
    ensures WordOk(EscapeAll(text), start) && WordValue(EscapeAll(text)) == text
    decreases |text|
  {
    if text == "" {
    } else {
      EscapedChars(text[1..], false);
      var first, rest := EscapeAll(text)[0], EscapeAll(text)[1..];
      assert EscapeAll(text) == [first] + EscapeAll(text[1..]) && rest == EscapeAll(text[1..]);
      assert PieceOk(first, start) && first != Bare("");
      assert text == [text[0]] + text[1..];
    }
  }

  lemma StyledIs(arg: string, style: Style)
    requires CanWrite(arg, style)
    ensures WordOk(Styled(arg, style), true) && WordValue(Styled(arg, style)) == arg
  {
    hide EscapeAll;
    match style {
      case SingleQuotes => OnePiece(InSingle(arg));
      case DoubleQuotes =>
        MarkedChars(arg);
        OnePiece(InDouble(MarkAll(arg)));
      case Escapes => EscapedChars(arg, true);
    }
  }

  lemma OnePiece(piece: Piece)
    requires PieceOk(piece, true)
    ensures WordOk([piece], true) && WordValue([piece]) == ValueOf(piece)
  {
    assert [piece][1..] == [];
    assert WordValue([]) == "" && ValueOf(piece) + "" == ValueOf(piece);
  }

  /** The arguments, each in its style, with a space behind each. */
  function StyledItems(args: seq<string>, styles: seq<Style>): seq<Item>
    requires |args| == |styles|
  {
    if args == [] then [] else [Arg(Styled(args[0], styles[0]), " ")] + StyledItems(args[1..], styles[1..])
  }

  lemma {:induction false} StyledItemsAre(args: seq<string>, styles: seq<Style>)
    requires |args| == |styles| && forall i :: 0 <= i < |args| ==> CanWrite(args[i], styles[i])
    ensures var items := StyledItems(args, styles);
            ItemsOk(items) && Values(items) == NonEmpty(args) && !Redirects(items)
  {
    hide Styled, CanWrite, WordOk, WordValue;
    if args == [] {
    } else {
      assert forall i :: 0 <= i < |args[1..]| ==> args[1..][i] == args[i + 1] && styles[1..][i] == styles[i + 1];
      StyledItemsAre(args[1..], styles[1..]);
      StyledIs(args[0], styles[0]);
      var first, rest := Arg(Styled(args[0], styles[0]), " "), StyledItems(args[1..], styles[1..]);
      var items := StyledItems(args, styles);
      assert items == [first] + rest && items[1..] == rest;
      ValuesCons(first, rest);
      assert [first][1..] == [];
      assert IsSpace(' ');
    }
  }

  /** Whatever style each argument of a command is written in, the arguments come back. */
  lemma StylesRoundTrip(args: seq<string>, styles: seq<Style>)
    requires |args| == |styles| && forall i :: 0 <= i < |args| ==> CanWrite(args[i], styles[i])
    ensures Tokenize(PrintItems(StyledItems(args, styles)))
            == if NonEmpty(args) == [] then [] else [Segment(NonEmpty(args), false, false)]
  {
    hide StyledItems, Tokenize, ItemsOk, PrintItems;
    StyledItemsAre(args, styles);
    var items := StyledItems(args, styles);
    var p := End(Command("", items, None));
    PrintingRoundTrip(p);
    assert Print(p) == PrintItems(items);
  }

  // ---- quotations that are not closed --------------------------------------------

  lemma {:induction false} OpenDouble(prev: Option<char>, chars: seq<Marked>, st: Lexer)
    requires st.quote == Double && !st.escaped && PieceOk(InDouble(chars), false)
    ensures Lex(prev, Marks(chars), st) == Flushed(st.(word := st.word + Chars(chars), unsupported := true), false)
    decreases |chars|
  {
    hide Lex, Flushed;
    if chars == [] {
      LexEnd(prev, st);
      assert st.word + "" == st.word;
      LexEndOpen(prev, st);
    } else {
      var m, more := chars[0], Marks(chars[1..]);
      var next := st.(word := st.word + [m.c]);
      Associates(st.word, [m.c], Chars(chars[1..]));
      if m.backslash {
        var s, tail := ['\\', m.c] + more, [m.c] + more;
        assert s[1..] == tail && tail[1..] == more;
        LexOne(prev, s, st, st.(escaped := true), tail);
        LexOne(Some('\\'), tail, st.(escaped := true), next, more);
      } else {
        assert ([m.c] + more)[1..] == more;
        LexOne(prev, [m.c] + more, st, next, more);
      }
      OpenDouble(Some(m.c), chars[1..], next);
    }
  }

  lemma LexEndOpen(prev: Option<char>, st: Lexer)
    requires st.quote != Unquoted
    ensures Lex(prev, "", st) == Flushed(st.(unsupported := true), false)
  {}

  lemma {:induction false} OpenSingle(prev: Option<char>, text: string, st: Lexer)
    requires st.quote == Single && '\'' !in text
    ensures Lex(prev, text, st) == Flushed(st.(word := st.word + text, unsupported := true), false)
    decreases |text|
  {
    hide Lex, Flushed;
    if text == "" {
      assert st.word + "" == st.word;
      LexEndOpen(prev, st);
    } else {
      assert text == [text[0]] + text[1..];
      Associates(st.word, [text[0]], text[1..]);
      PlainInside(prev, text[0], text[1..], st);
      OpenSingle(Some(text[0]), text[1..], st.(word := st.word + [text[0]]));
    }
  }

  lemma FlushMarked(st: Lexer, tokens: seq<string>, redirects: bool, text: string)
    requires Holds(st, tokens, redirects) && AtStart(st)
    ensures Flushed(st.(quote := Single, atTokenStart := false, word := st.word + text, unsupported := true), false)
            == [Segment(tokens + (if text == "" then [] else [text]), true, false)]
    ensures Flushed(st.(quote := Double, atTokenStart := false, word := st.word + text, unsupported := true), false)
            == [Segment(tokens + (if text == "" then [] else [text]), true, false)]
  {
    assert "" + text == text;
    assert tokens + [] == tokens;
  }

  /** A quotation that is not closed takes the rest of the command as its text, and marks the
      segment as one that was not understood. */
  lemma UnclosedIsMarked(items: seq<Item>, text: string, chars: seq<Marked>)
    requires ItemsOk(items) && EndsOpen(items)
    ensures '\'' !in text ==>
              Tokenize(PrintItems(items) + ("'" + text))
              == [Segment(Values(items) + (if text == "" then [] else [text]), true, false)]
    ensures PieceOk(InDouble(chars), false) ==>
              Tokenize(PrintItems(items) + ("\"" + Marks(chars)))
              == [Segment(Values(items) + (if Chars(chars) == "" then [] else [Chars(chars)]), true, false)]
  {
    hide Lex, PrintItems, ItemsOk, Values, Redirects, EndsOpen, Marks, Chars, Flushed, PieceOk;
    assert FlushWord(FRESH) == FRESH && [] + Values(items) == Values(items);
    if '\'' !in text {
      var last, next := ItemsReadBack(None, items, "'" + text, FRESH, [], false);
      var open := next.(quote := Single, atTokenStart := false);
      assert ("'" + text)[1..] == text;
      LexOne(last, "'" + text, next, open, text);
      OpenSingle(Some('\''), text, open);
      FlushMarked(next, Values(items), Redirects(items), text);
    }
    if PieceOk(InDouble(chars), false) {
      var last, next := ItemsReadBack(None, items, "\"" + Marks(chars), FRESH, [], false);
      var open := next.(quote := Double, atTokenStart := false);
      assert ("\"" + Marks(chars))[1..] == Marks(chars);
      LexOne(last, "\"" + Marks(chars), next, open, Marks(chars));
      OpenDouble(Some('"'), chars, open);
      FlushMarked(next, Values(items), Redirects(items), Chars(chars));
    }
  }
}
