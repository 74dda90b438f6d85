/** The conservative shell lexer (clients/bash-file-access.ts:45-304): quoting, operators,
    comments and here-documents, with the bodies of command substitutions lexed recursively.

    The specification reads a suffix of the command and the one character before it, which is
    all the lexer ever looks at; the methods walk an index over the whole command. */
module ShellLexer {
  import opened JsMap
  import opened Text

  datatype Heredoc = Heredoc(delimiter: string, stripTabs: bool, quoted: bool)

  /** `pipe` says that the segment feeds the next one through a single `|`. */
  datatype Segment = Segment(tokens: seq<string>, unsupported: bool, pipe: bool)

  datatype Quote = Unquoted | Single | Double

  datatype Lexer = Lexer(
    pending: seq<Heredoc>, tokens: seq<string>, word: string,
    quote: Quote, escaped: bool, unsupported: bool, atTokenStart: bool)

  const FRESH := Lexer([], [], "", Unquoted, false, false, true)

  predicate Peek(s: string, i: nat, c: char) { i < |s| && s[i] == c }

  /** `text.indexOf(c)`. */
  function FirstIndex(s: string, c: char): (k: int)
    ensures -1 <= k < |s|
    ensures k >= 0 ==> s[k] == c && c !in s[..k]
    ensures k < 0 ==> c !in s
  {
    if s == "" then -1
    else if s[0] == c then 0
    else
      var k := FirstIndex(s[1..], c);
      assert k >= 0 ==> s[..k + 1] == [s[0]] + s[1..][..k];
      if k < 0 then -1 else k + 1
  }

  lemma {:induction false} FirstIndexIs(a: string, c: char, t: string)
    requires c !in a
    ensures FirstIndex(a + ([c] + t), c) == |a|
  {
    var s := a + ([c] + t);
    if a == "" { assert s[0] == c; } else {
      assert s[1..] == a[1..] + ([c] + t);
      FirstIndexIs(a[1..], c, t);
    }
  }

  function Longest(subs: seq<string>): (n: nat)
    ensures forall i :: 0 <= i < |subs| ==> |subs[i]| <= n
  {
    if subs == [] then 0
    else
      var n, last := Longest(subs[..|subs| - 1]), |subs[|subs| - 1]|;
      if last > n then last else n
  }

  lemma {:induction false} LongestWithin(subs: seq<string>, n: int)
    requires 0 < n && forall i :: 0 <= i < |subs| ==> |subs[i]| < n
    ensures Longest(subs) < n
  {
    if subs == [] {
    } else {
      LongestWithin(subs[..|subs| - 1], n);
    }
  }

  lemma DropDrop(s: string, i: nat, k: nat)
    requires i + k <= |s|
    ensures s[i..][k..] == s[i + k..] && s[i..][..k] == s[i..i + k]
  {}

  lemma DropSlice(s: string, i: nat, a: nat, b: nat)
    requires a <= b && i + b <= |s|
    ensures s[i..][a..b] == s[i + a..i + b]
  {}

  lemma SliceSnoc(s: string, a: nat, b: nat)
    requires a <= b < |s|
    ensures s[a..b + 1] == s[a..b] + [s[b]]
  {}

  lemma Glue(s: string, a: nat, b: nat, c: nat, t: string)
    requires a <= b <= c <= |s|
    ensures s[a..b] + s[b..c] == s[a..c] && s[a..b] + (s[b..c] + t) == s[a..c] + t
  {}

  /** The character in front of an index. */
  function Before(s: string, i: nat): Option<char>
    requires i <= |s|
  {
    if i == 0 then None else Some(s[i - 1])
  }

  // ---- here-document delimiters --------------------------------------------------

  datatype Delimiter = Delimiter(text: string, quoted: bool, used: nat)

  predicate EndsDelimiter(c: char) { IsSpace(c) || c in ";&|<>" }

  function Prepend(text: string, quoted: bool, used: nat, r: Option<Delimiter>): Option<Delimiter> {
    if r.None? then None else Some(Delimiter(text + r.value.text, quoted || r.value.quoted, used + r.value.used))
  }

  /** One quoted stretch, one escaped character, or one plain character. */
  function Piece(s: string): (r: Option<Delimiter>)
    requires s != ""
    ensures r.Some? ==> 0 < r.value.used <= |s|
  {
    if s[0] == '\'' || s[0] == '"' then
      var k := FirstIndex(s[1..], s[0]);
      if k < 0 then None else Some(Delimiter(s[1..k + 1], true, k + 2))
    else if s[0] == '\\' then
      if |s| == 1 then None else Some(Delimiter([s[1]], true, 2))
    else Some(Delimiter([s[0]], false, 1))
  }

  /** The delimiter word with its quoting removed; an unterminated quote is no delimiter. */
  function ReadDelimiter(s: string): (r: Option<Delimiter>)
    ensures r.Some? ==> r.value.used <= |s| && (r.value.text != "" ==> r.value.used > 0)
  {
    if s == "" || EndsDelimiter(s[0]) then Some(Delimiter("", false, 0))
    else if Piece(s).None? then None
    else var p := Piece(s).value; Prepend(p.text, p.quoted, p.used, ReadDelimiter(s[p.used..]))
  }

  function SpacesAhead(s: string): (n: nat)
    ensures n <= |s|
  {
    if s != "" && IsSpace(s[0]) then 1 + SpacesAhead(s[1..]) else 0
  }

  datatype Parsed = Parsed(heredoc: Heredoc, used: nat)

  /** What follows `<<`. */
  function ParseHeredoc(s: string): (r: Option<Parsed>)
    ensures r.Some? ==> 0 < r.value.used <= |s| && r.value.heredoc.delimiter != ""
  {
    var dash := if Peek(s, 0, '-') then 1 else 0;
    var skip := dash + SpacesAhead(s[dash..]);
    var d := ReadDelimiter(s[skip..]);
    if d.None? || d.value.text == "" then None
    else Some(Parsed(Heredoc(d.value.text, dash == 1, d.value.quoted), skip + d.value.used))
  }

  lemma PrependPrepend(a: string, qa: bool, na: nat, b: string, qb: bool, nb: nat, r: Option<Delimiter>)
    ensures Prepend(a, qa, na, Prepend(b, qb, nb, r)) == Prepend(a + b, qa || qb, na + nb, r)
  {
    if r.Some? { assert a + (b + r.value.text) == a + b + r.value.text; }
  }

  lemma PrependNothing(r: Option<Delimiter>)
    ensures Prepend("", false, 0, r) == r
  {
    if r.Some? { assert "" + r.value.text == r.value.text; }
  }

  /** Everything up to the closing quote, from the index just after the opening one. */
  method ReadQuoted(command: string, from: nat) returns (text: string, i: nat, closed: bool)
    requires 0 < from <= |command| && (command[from - 1] == '\'' || command[from - 1] == '"')
    ensures var k := FirstIndex(command[from..], command[from - 1]);
            closed == (k >= 0) && (closed ==> text == command[from..from + k] && i == from + k + 1 <= |command|)
  {
    var quote := command[from - 1];
    text, i := "", from;
    while i < |command| && command[i] != quote
      invariant from <= i <= |command| && text == command[from..i] && quote !in text
    {
      SliceSnoc(command, from, i);
      text := text + [command[i]];
      i := i + 1;
    }
    assert command[from..][..i - from] == text;
    closed := i < |command|;
    if closed {
      assert command[from..][i - from] == quote;
      i := i + 1;
    }
  }

  method ReadPiece(command: string, at: nat) returns (p: Option<Delimiter>)
    requires at < |command|
    ensures p == Piece(command[at..])
  {
    var ch := command[at];
    if ch == '\'' || ch == '"' {
      DropDrop(command, at, 1);
      var text, next, closed := ReadQuoted(command, at + 1);
      if !closed { return None; }
      DropSlice(command, at, 1, next - at - 1);
      p := Some(Delimiter(text, true, next - at));
    } else if ch == '\\' {
      if at + 1 >= |command| { return None; }
      p := Some(Delimiter([command[at + 1]], true, 2));
    } else {
      p := Some(Delimiter([ch], false, 1));
    }
  }

  lemma DelimiterStep(all: Option<Delimiter>, sofar: Delimiter, s: string, p: Option<Delimiter>)
    requires s != "" && !EndsDelimiter(s[0]) && p == Piece(s)
    requires all == Prepend(sofar.text, sofar.quoted, sofar.used, ReadDelimiter(s))
    ensures p.None? ==> all == None
    ensures p.Some? ==> all == Prepend(sofar.text + p.value.text, sofar.quoted || p.value.quoted,
                                       sofar.used + p.value.used, ReadDelimiter(s[p.value.used..]))
  {
    hide Piece;
    if p.Some? {
      PrependPrepend(sofar.text, sofar.quoted, sofar.used, p.value.text, p.value.quoted, p.value.used,
                     ReadDelimiter(s[p.value.used..]));
    }
  }

  lemma DelimiterEnds(s: string)
    requires s == "" || EndsDelimiter(s[0])
    ensures ReadDelimiter(s) == Some(Delimiter("", false, 0))
  {}

  method ReadDelimiterWord(command: string, from: nat) returns (r: Option<Delimiter>)
    requires from <= |command|
    ensures r == ReadDelimiter(command[from..])
  {
    hide Piece, ReadDelimiter;
    var i, delimiter, quoted := from, "", false;
    ghost var all := ReadDelimiter(command[from..]);
    PrependNothing(all);
    while i < |command| && !EndsDelimiter(command[i])
      invariant from <= i <= |command|
      invariant all == Prepend(delimiter, quoted, i - from, ReadDelimiter(command[i..]))
      decreases |command| - i
    {
      var p := ReadPiece(command, i);
      DelimiterStep(all, Delimiter(delimiter, quoted, i - from), command[i..], p);
      if p.None? { return None; }
      DropDrop(command, i, p.value.used);
      delimiter, quoted, i := delimiter + p.value.text, quoted || p.value.quoted, i + p.value.used;
    }
    DelimiterEnds(command[i..]);
    assert delimiter + "" == delimiter;
    r := Some(Delimiter(delimiter, quoted, i - from));
  }

  method SkipSpaces(command: string, from: nat) returns (i: nat)
    requires from <= |command|
    ensures i == from + SpacesAhead(command[from..])
  {
    i := from;
    while i < |command| && IsSpace(command[i])
      invariant from <= i <= |command|
      invariant SpacesAhead(command[from..]) == i - from + SpacesAhead(command[i..])
    {
      DropDrop(command, i, 1);
      i := i + 1;
    }
  }

  /** `end` is the index of the last character of the delimiter word. */
  method ParseHeredocDelimiter(command: string, start: nat) returns (heredoc: Option<Heredoc>, end: int)
    requires start <= |command|
    ensures var r := ParseHeredoc(command[start..]);
            (heredoc.None? <==> r.None?)
            && (r.Some? ==> heredoc == Some(r.value.heredoc) && end == start + r.value.used - 1)
  {
    hide SpacesAhead, ReadDelimiter;
    var stripTabs := Peek(command, start, '-');
    var from := if stripTabs then start + 1 else start;
    DropDrop(command, start, from - start);
    var i := SkipSpaces(command, from);
    DropDrop(command, start, i - start);
    var d := ReadDelimiterWord(command, i);
    if d.None? || d.value.text == "" { return None, start; }
    heredoc, end := Some(Heredoc(d.value.text, stripTabs, d.value.quoted)), i + d.value.used - 1;
  }

  // ---- command substitutions in a here-document body -----------------------------

  /** What one character does to the search for a closing parenthesis; depth 0 is the end. */
  datatype Paren = Paren(depth: nat, quote: Quote, used: nat)

  function ParenStep(before: char, s: string, depth: nat, quote: Quote): (p: Paren)
    requires s != ""
    ensures 1 <= p.used <= |s| && (p.depth == 0 ==> s[0] == ')' || depth == 0)
  {
    var ch := s[0];
    match quote
    case Single => Paren(depth, if ch == '\'' then Unquoted else Single, 1)
    case Double => Paren(depth, if ch == '"' && before != '\\' then Unquoted else Double, 1)
    case Unquoted =>
      if ch == '\'' then Paren(depth, Single, 1)
      else if ch == '"' then Paren(depth, Double, 1)
      else if ch == '$' && Peek(s, 1, '(') then Paren(depth + 1, Unquoted, 2)
      else if ch == ')' && depth > 0 then Paren(depth - 1, Unquoted, 1)
      else Paren(depth, Unquoted, 1)
  }

  /** Offset of the parenthesis that closes `depth` open ones; `before` precedes `s`. */
  function CloseParen(before: char, s: string, depth: nat, quote: Quote): (r: Option<nat>)
    requires depth > 0
    ensures r.Some? ==> r.value < |s| && s[r.value] == ')'
    decreases |s|
  {
    if s == "" then None
    else
      var p := ParenStep(before, s, depth, quote);
      if p.depth == 0 then Some(0)
      else Later(p.used, CloseParen(s[p.used - 1], s[p.used..], p.depth, p.quote))
  }

  function Later(n: nat, r: Option<nat>): Option<nat> { if r.None? then None else Some(n + r.value) }

  /** A substitution starting here, if any, and where the scan resumes. */
  datatype Found = Found(body: Option<string>, used: nat)

  function SubstitutionAt(prev: Option<char>, s: string): (f: Found)
    requires s != ""
    ensures 1 <= f.used <= |s| && (f.body.Some? ==> |f.body.value| < |s|)
  {
    if s[0] == '$' && Peek(s, 1, '(') then
      var k := CloseParen('(', s[2..], 1, Unquoted);
      if k.Some? then Found(Some(s[2..k.value + 2]), k.value + 3) else Found(None, 1)
    else if s[0] == '`' && prev != Some('\\') && FirstIndex(s[1..], '`') >= 0 then
      var k := 1 + FirstIndex(s[1..], '`');
      Found(Some(s[1..k]), k + 1)
    else Found(None, 1)
  }

  function AsSeq(body: Option<string>): seq<string> { if body.Some? then [body.value] else [] }

  /** The bodies of `$(...)` and of backtick pairs; one that never closes is skipped over. */
  function Substitutions(prev: Option<char>, s: string): (r: seq<string>)
    ensures forall i :: 0 <= i < |r| ==> |r[i]| < |s|
    decreases |s|
  {
    if s == "" then []
    else
      var f := SubstitutionAt(prev, s);
      AsSeq(f.body) + Substitutions(Some(s[f.used - 1]), s[f.used..])
  }

  /** One iteration of the search: `i` is left at the last character consumed. */
  method ReadParen(body: string, at: nat, depth: nat, quote: Quote) returns (p: Paren)
    requires 0 < at < |body| && depth > 0
    ensures p == ParenStep(body[at - 1], body[at..], depth, quote)
  {
    var ch := body[at];
    p := Paren(depth, quote, 1);
    if quote == Single {
      if ch == '\'' { p := p.(quote := Unquoted); }
    } else if quote == Double {
      if ch == '"' && body[at - 1] != '\\' { p := p.(quote := Unquoted); }
    } else if ch == '\'' || ch == '"' {
      p := p.(quote := if ch == '\'' then Single else Double);
    } else if ch == '$' && Peek(body, at + 1, '(') {
      p := p.(depth := depth + 1, used := 2);
    } else if ch == ')' {
      p := p.(depth := depth - 1);
    }
  }

  lemma CloseParenUnfold(before: char, s: string, depth: nat, quote: Quote, p: Paren, tail: string)
    requires s != "" && depth > 0 && p == ParenStep(before, s, depth, quote) && tail == s[p.used..]
    ensures CloseParen(before, s, depth, quote)
            == if p.depth == 0 then Some(0) else Later(p.used, CloseParen(s[p.used - 1], tail, p.depth, p.quote))
  {}

  /** The inner scan of `heredocSubstitutionBodies`. */
  method FindCloseParen(body: string, from: nat) returns (r: Option<nat>)
    requires 2 <= from <= |body| && body[from - 1] == '('
    ensures r == Later(from, CloseParen('(', body[from..], 1, Unquoted))
  {
    hide CloseParen, ParenStep;
    var depth, quote, end := 1, Unquoted, from;
    ghost var all := Later(from, CloseParen('(', body[from..], 1, Unquoted));
    while end < |body|
      invariant from <= end <= |body| && depth >= 1
      invariant all == Later(end, CloseParen(body[end - 1], body[end..], depth, quote))
    {
      var p := ReadParen(body, end, depth, quote);
      DropDrop(body, end, p.used);
      CloseParenUnfold(body[end - 1], body[end..], depth, quote, p, body[end + p.used..]);
      if p.depth == 0 { return Some(end); }
      depth, quote, end := p.depth, p.quote, end + p.used;
    }
    r := None;
  }

  /** One iteration of the outer scan. */
  method ReadSubstitution(body: string, at: nat) returns (f: Found)
    requires at < |body|
    ensures f == SubstitutionAt(Before(body, at), body[at..])
  {
    hide CloseParen;
    f := Found(None, 1);
    if body[at] == '$' && Peek(body, at + 1, '(') {
      DropDrop(body, at, 2);
      var close := FindCloseParen(body, at + 2);
      if close.Some? {
        DropSlice(body, at, 2, close.value - at);
        f := Found(Some(body[at + 2..close.value]), close.value + 1 - at);
      }
    } else if body[at] == '`' && (at == 0 || body[at - 1] != '\\') {
      DropDrop(body, at, 1);
      var offset := FirstIndex(body[at + 1..], '`');
      if offset >= 0 {
        DropSlice(body, at, 1, offset + 1);
        f := Found(Some(body[at + 1..at + 1 + offset]), offset + 2);
      }
    }
  }

  lemma SubstitutionsUnfold(prev: Option<char>, s: string, f: Found, tail: string)
    requires s != "" && f == SubstitutionAt(prev, s) && tail == s[f.used..]
    ensures Substitutions(prev, s) == AsSeq(f.body) + Substitutions(Some(s[f.used - 1]), tail)
  {}

  lemma SubstitutionsStep(all: seq<string>, found: seq<string>, body: string, at: nat, f: Found, more: seq<string>)
    requires at < |body| && f == SubstitutionAt(Before(body, at), body[at..]) && more == found + AsSeq(f.body)
    requires all == found + Substitutions(Before(body, at), body[at..])
    ensures at + f.used <= |body|
    ensures all == more + Substitutions(Before(body, at + f.used), body[at + f.used..])
  {
    DropDrop(body, at, f.used);
    var tail := body[at + f.used..];
    SubstitutionsUnfold(Before(body, at), body[at..], f, tail);
    Associates(found, AsSeq(f.body), Substitutions(Before(body, at + f.used), tail));
  }

  lemma SubstitutionsEnd(prev: Option<char>)
    ensures Substitutions(prev, "") == []
  {}

  method HeredocSubstitutionBodies(body: string) returns (substitutions: seq<string>)
    ensures substitutions == Substitutions(None, body)
  {
    hide SubstitutionAt, Substitutions;
    substitutions := [];
    var i := 0;
    ghost var all := Substitutions(None, body);
    assert body[0..] == body;
    while i < |body|
      invariant i <= |body|
      invariant all == substitutions + Substitutions(Before(body, i), body[i..])
      decreases |body| - i
    {
      var f := ReadSubstitution(body, i);
      SubstitutionsStep(all, substitutions, body, i, f, substitutions + AsSeq(f.body));
      substitutions := substitutions + AsSeq(f.body);
      i := i + f.used;
    }
    SubstitutionsEnd(Before(body, i));
    assert body[i..] == "";
  }

  // ---- here-document bodies ------------------------------------------------------

  /** The line that starts `s`, without its newline. */
  function FirstLine(s: string): (line: string)
    ensures line <= s
  {
    var k := FirstIndex(s, '\n');
    if k < 0 then s else s[..k]
  }

  function LineLength(s: string): (n: nat)
    ensures n <= |s| && (s != "" ==> n > 0)
  {
    var k := FirstIndex(s, '\n');
    if k < 0 then |s| else k + 1
  }

  /** `line.replace(/^\t+/, "")`. */
  function StripTabs(line: string): string
  {
    if Peek(line, 0, '\t') then StripTabs(line[1..]) else line
  }

  /** `line.replace(/\r$/, "")`. */
  function StripReturn(line: string): string {
    if line != "" && line[|line| - 1] == '\r' then line[..|line| - 1] else line
  }

  predicate Closes(h: Heredoc, line: string) {
    StripReturn(if h.stripTabs then StripTabs(line) else line) == h.delimiter
  }

  datatype Scanned = Scanned(body: string, found: bool, used: nat)

  /** The body in front of the first closing line. */
  function Scan(s: string, h: Heredoc): (r: Scanned)
    ensures |r.body| <= r.used <= |s|
    ensures !r.found ==> r.body == s && r.used == |s|
    decreases |s|
  {
    if s == "" then Scanned("", false, 0)
    else
      var n := LineLength(s);
      if Closes(h, FirstLine(s)) then Scanned("", true, n)
      else var r := Scan(s[n..], h); Scanned(s[..n] + r.body, r.found, n + r.used)
  }

  datatype Consumed = Consumed(subs: seq<string>, used: nat)

  function BodySubstitutions(h: Heredoc, body: string): (r: seq<string>)
    ensures forall i :: 0 <= i < |r| ==> |r[i]| < |body|
  {
    if h.quoted then [] else Substitutions(None, body)
  }

  /** The bodies of the pending here-documents, in order; the first unterminated one takes
      all that is left. */
  function Consume(s: string, hs: seq<Heredoc>): (c: Consumed)
    ensures c.used <= |s| && forall i :: 0 <= i < |c.subs| ==> |c.subs[i]| < |s|
    decreases |hs|
  {
    if hs == [] then Consumed([], 0)
    else
      var r := Scan(s, hs[0]);
      var subs := BodySubstitutions(hs[0], r.body);
      if !r.found then Consumed(subs, |s|)
      else var c := Consume(s[r.used..], hs[1..]); Consumed(subs + c.subs, r.used + c.used)
  }

  /** One line, without its newline, and where the next one starts. */
  method ReadLine(command: string, cursor: nat) returns (line: string, next: nat)
    requires cursor < |command|
    ensures cursor < next <= |command|
    ensures line == FirstLine(command[cursor..]) && next == cursor + LineLength(command[cursor..])
  {
    var offset := FirstIndex(command[cursor..], '\n');
    var end := if offset < 0 then |command| else cursor + offset;
    line, next := command[cursor..end], if offset < 0 then end else end + 1;
  }

  ghost predicate ScanContinues(command: string, bodyStart: nat, cursor: nat, h: Heredoc)
    requires bodyStart <= cursor <= |command|
  {
    var r := Scan(command[cursor..], h);
    Scan(command[bodyStart..], h) == Scanned(command[bodyStart..cursor] + r.body, r.found, cursor - bodyStart + r.used)
  }

  lemma ScanUnfold(s: string, h: Heredoc, tail: string)
    requires s != "" && tail == s[LineLength(s)..] && !Closes(h, FirstLine(s))
    ensures var r := Scan(tail, h);
            Scan(s, h) == Scanned(s[..LineLength(s)] + r.body, r.found, LineLength(s) + r.used)
  {}

  lemma ScanStep(command: string, bodyStart: nat, cursor: nat, next: nat, h: Heredoc)
    requires bodyStart <= cursor < next <= |command| && next == cursor + LineLength(command[cursor..])
    requires ScanContinues(command, bodyStart, cursor, h) && !Closes(h, FirstLine(command[cursor..]))
    ensures ScanContinues(command, bodyStart, next, h)
  {
    hide Scan, Closes, FirstLine, LineLength;
    var s, tail := command[cursor..], command[next..];
    DropDrop(command, cursor, next - cursor);
    ScanUnfold(s, h, tail);
    Glue(command, bodyStart, cursor, next, Scan(tail, h).body);
  }

  lemma ScanStarts(command: string, bodyStart: nat, h: Heredoc)
    requires bodyStart <= |command|
    ensures ScanContinues(command, bodyStart, bodyStart, h)
  {
    var r := Scan(command[bodyStart..], h);
    assert command[bodyStart..bodyStart] + r.body == r.body;
  }

  lemma ScanStops(command: string, bodyStart: nat, cursor: nat, h: Heredoc, r: Scanned)
    requires bodyStart <= cursor <= |command| && ScanContinues(command, bodyStart, cursor, h)
    requires r == Scan(command[cursor..], h) && r.body == ""
    ensures Scan(command[bodyStart..], h) == Scanned(command[bodyStart..cursor], r.found, cursor - bodyStart + r.used)
  {
    assert command[bodyStart..cursor] + "" == command[bodyStart..cursor];
  }

  method FindClosingLine(command: string, bodyStart: nat, h: Heredoc) returns (found: bool, bodyEnd: nat, cursor: nat)
    requires bodyStart <= |command|
    ensures bodyStart <= bodyEnd <= cursor <= |command|
    ensures Scan(command[bodyStart..], h) == Scanned(command[bodyStart..bodyEnd], found, cursor - bodyStart)
  {
    cursor := bodyStart;
    ScanStarts(command, bodyStart, h);
    while cursor < |command|
      invariant bodyStart <= cursor <= |command| && ScanContinues(command, bodyStart, cursor, h)
      decreases |command| - cursor
    {
      var line, next := ReadLine(command, cursor);
      ghost var whole := line;
      if h.stripTabs { line := StripTabs(line); }
      if StripReturn(line) == h.delimiter {
        ScanStops(command, bodyStart, cursor, h, Scanned("", true, next - cursor));
        return true, cursor, next;
      }
      assert !Closes(h, whole);
      ScanStep(command, bodyStart, cursor, next, h);
      cursor := next;
    }
    ScanStops(command, bodyStart, cursor, h, Scanned("", false, 0));
    found, bodyEnd := false, |command|;
  }

  /** One here-document: its substitutions, and where the text after it starts. */
  method ReadBody(command: string, cursor: nat, h: Heredoc) returns (found: bool, substitutions: seq<string>, next: nat)
    requires cursor <= |command|
    ensures cursor <= next <= |command|
    ensures var r := Scan(command[cursor..], h);
            found == r.found && next == cursor + r.used && substitutions == BodySubstitutions(h, r.body)
  {
    var bodyEnd;
    found, bodyEnd, next := FindClosingLine(command, cursor, h);
    substitutions := [];
    if !h.quoted { substitutions := HeredocSubstitutionBodies(command[cursor..bodyEnd]); }
  }

  lemma ConsumeUnfold(s: string, hs: seq<Heredoc>, r: Scanned, tail: string, rest: seq<Heredoc>)
    requires hs != [] && r == Scan(s, hs[0]) && tail == s[r.used..] && rest == hs[1..]
    ensures var c := Consume(tail, rest);
            Consume(s, hs) == if r.found then Consumed(BodySubstitutions(hs[0], r.body) + c.subs, r.used + c.used)
                              else Consumed(BodySubstitutions(hs[0], r.body), |s|)
  {
    hide Scan, BodySubstitutions;
  }

  /** What is left to consume accounts for the rest of the result. */
  ghost predicate ConsumeContinues(all: Consumed, s: string, hs: seq<Heredoc>, subs: seq<string>, used: nat) {
    all == Consumed(subs + Consume(s, hs).subs, used + Consume(s, hs).used)
  }

  lemma ConsumeStep(all: Consumed, s: string, hs: seq<Heredoc>, subs: seq<string>, used: nat, r: Scanned,
                    tail: string, rest: seq<Heredoc>)
    requires ConsumeContinues(all, s, hs, subs, used)
    requires hs != [] && r == Scan(s, hs[0]) && tail == s[r.used..] && rest == hs[1..]
    ensures var more := subs + BodySubstitutions(hs[0], r.body);
            if r.found then ConsumeContinues(all, tail, rest, more, used + r.used)
              else all == Consumed(more, used + |s|)
  {
    ConsumeUnfold(s, hs, r, tail, rest);
    Associates(subs, BodySubstitutions(hs[0], r.body), Consume(tail, rest).subs);
  }

  lemma Associates<T>(a: seq<T>, b: seq<T>, c: seq<T>)
    ensures a + (b + c) == a + b + c
  {}

  /** `end` is the index of the last character consumed. */
  method ConsumeHeredocBodies(command: string, start: nat, heredocs: seq<Heredoc>)
    returns (end: int, substitutions: seq<string>)
    requires start <= |command|
    ensures var c := Consume(command[start..], heredocs); end == start + c.used - 1 && substitutions == c.subs
  {
    hide Scan, BodySubstitutions;
    var cursor := start;
    substitutions := [];
    assert heredocs[0..] == heredocs;
    ghost var all := Consume(command[start..], heredocs);
    assert ConsumeContinues(all, command[start..], heredocs, [], 0);
    for k := 0 to |heredocs|
      invariant start <= cursor <= |command|
      invariant ConsumeContinues(all, command[cursor..], heredocs[k..], substitutions, cursor - start)
    {
      var found, more, next := ReadBody(command, cursor, heredocs[k]);
      ghost var r := Scan(command[cursor..], heredocs[k]);
      assert heredocs[k..][0] == heredocs[k] && heredocs[k..][1..] == heredocs[k + 1..];
      DropDrop(command, cursor, next - cursor);
      ConsumeStep(all, command[cursor..], heredocs[k..], substitutions, cursor - start, r, command[next..],
        heredocs[k + 1..]);
      substitutions := substitutions + more;
      if !found { return |command| - 1, substitutions; }
      cursor := next;
    }
    assert heredocs[|heredocs|..] == [];
    end := cursor - 1;
  }

  // ---- one character -------------------------------------------------------------

  /** What one iteration does: new state, characters consumed, segments completed, and
      substitution bodies to be lexed next. */
  datatype Move = Move(st: Lexer, used: nat, done: seq<Segment>, subs: seq<string>)

  function FlushWord(st: Lexer): Lexer {
    st.(tokens := if st.word != "" then st.tokens + [st.word] else st.tokens, word := "", atTokenStart := true)
  }

  /** The segment that `flushSegment` completes, if there is anything in it. */
  function Flushed(st: Lexer, pipe: bool): seq<Segment> {
    var f := FlushWord(st);
    if f.tokens != [] || f.unsupported then [Segment(f.tokens, f.unsupported, pipe)] else []
  }

  function NextSegment(st: Lexer): Lexer {
    st.(tokens := [], word := "", unsupported := false, atTokenStart := true)
  }

  function Literal(st: Lexer, c: char): Lexer { st.(word := st.word + [c], atTokenStart := false) }

  predicate Escapable(c: char) { IsSpace(c) || c in "\\'\";$|&<>" }

  predicate IsOperator(c: char) { c == ';' || c == '\n' || c == '|' || c == '&' }

  function Quoted(st: Lexer, ch: char): Lexer
  {
    if st.quote == Single then
      if ch == '\'' then st.(quote := Unquoted) else st.(word := st.word + [ch])
    else if st.escaped then st.(word := st.word + [ch], escaped := false)
    else if ch == '\\' then st.(escaped := true)
    else if ch == '"' then st.(quote := Unquoted)
    else st.(word := st.word + [ch])
  }

  /** Characters up to the end of the line. */
  function CommentLength(s: string): (n: nat)
    requires s != ""
    ensures 1 <= n <= |s|
  {
    if |s| > 1 && s[1] != '\n' then 1 + CommentLength(s[1..]) else 1
  }

  function Operator(s: string, st: Lexer): (m: Move)
    requires s != "" && IsOperator(s[0])
    ensures 1 <= m.used <= |s| && Longest(m.subs) < |s|
  {
    var f := FlushWord(st);
    if s[0] == '\n' && f.pending != [] then
      var c := Consume(s[1..], f.pending);
      LongestWithin(c.subs, |s|);
      Move(NextSegment(f).(pending := []), 1 + c.used, Flushed(f, false), c.subs)
    else
      var both := (s[0] == '|' || s[0] == '&') && Peek(s, 1, s[0]);
      var alone := (s[0] == '|' || s[0] == '&') && !both;
      var g := if alone then f.(unsupported := true) else f;
      Move(NextSegment(g), if both then 2 else 1, Flushed(g, alone && s[0] == '|'), [])
  }

  function Redirect(prev: Option<char>, s: string, st: Lexer): (m: Move)
    requires s != ""
    ensures 1 <= m.used <= |s| && m.subs == []
  {
    var f := FlushWord(st);
    var parsed := if s[0] == '<' && Peek(s, 1, '<') && prev != Some('<') && !Peek(s, 2, '<')
                  then ParseHeredoc(s[2..]) else None;
    if parsed.Some? then
      Move(f.(pending := f.pending + [parsed.value.heredoc], unsupported := true), 2 + parsed.value.used, [], [])
    else Move(f.(unsupported := true), 1, [], [])
  }

  function Advance(prev: Option<char>, s: string, st: Lexer): (m: Move)
    requires s != ""
    ensures 1 <= m.used <= |s| && Longest(m.subs) < |s|
  {
    var ch := s[0];
    if st.quote != Unquoted then Move(Quoted(st, ch), 1, [], [])
    else if st.escaped then
      Move(st.(word := if ch != '\n' then st.word + [ch] else st.word, escaped := false, atTokenStart := false), 1,
        [], [])
    else if ch == '\\' then
      if |s| > 1 && Escapable(s[1]) then Move(st.(escaped := true, atTokenStart := false), 1, [], [])
      else Move(Literal(st, ch), 1, [], [])
    else if ch == '\'' then Move(st.(quote := Single, atTokenStart := false), 1, [], [])
    else if ch == '"' then Move(st.(quote := Double, atTokenStart := false), 1, [], [])
    else if ch == '#' && st.atTokenStart then Move(st, CommentLength(s), [], [])
    else if IsSpace(ch) && ch != '\n' then Move(FlushWord(st), 1, [], [])
    else if IsOperator(ch) then Operator(s, st)
    else if ch == '<' || ch == '>' then Redirect(prev, s, st)
    else Move(Literal(st, ch), 1, [], [])
  }

  // ---- the whole command ---------------------------------------------------------

  /** The segments still to come. */
  function Lex(prev: Option<char>, s: string, st: Lexer): seq<Segment>
    decreases |s|, 1, 0
  {
    if s == "" then Flushed(if st.quote != Unquoted || st.escaped then st.(unsupported := true) else st, false)
    else
      var m := Advance(prev, s, st);
      m.done + TokenizeAll(m.subs) + Lex(Some(s[m.used - 1]), s[m.used..], m.st)
  }

  function Tokenize(command: string): seq<Segment>
    decreases |command|, 2, 0
  {
    Lex(None, command, FRESH)
  }

  function TokenizeAll(commands: seq<string>): seq<Segment>
    decreases Longest(commands), 3, |commands|
  {
    if commands == [] then [] else TokenizeAll(commands[..|commands| - 1]) + Tokenize(commands[|commands| - 1])
  }

  method SkipComment(command: string, start: nat) returns (i: nat)
    requires start < |command|
    ensures i == start + CommentLength(command[start..]) - 1
  {
    i := start;
    while i + 1 < |command| && command[i + 1] != '\n'
      invariant start <= i < |command|
      invariant CommentLength(command[start..]) == i - start + CommentLength(command[i..])
    {
      assert command[i..][1..] == command[i + 1..];
      i := i + 1;
    }
  }

  /** `<` and `>`: `i` is left at the last character consumed. */
  method ReadRedirect(command: string, at: nat, st: Lexer) returns (next: Lexer, i: nat)
    requires at < |command| && (command[at] == '<' || command[at] == '>')
    ensures at <= i < |command|
    ensures Redirect(Before(command, at), command[at..], st) == Move(next, i - at + 1, [], [])
  {
    hide ParseHeredoc;
    next, i := FlushWord(st), at;
    if command[at] == '<' && Peek(command, at + 1, '<') && !(at > 0 && command[at - 1] == '<')
      && !Peek(command, at + 2, '<') {
      assert command[at..][2..] == command[at + 2..];
      var heredoc, end := ParseHeredocDelimiter(command, at + 2);
      if heredoc.Some? {
        next := next.(pending := next.pending + [heredoc.value]);
        i := end;
      }
    }
    next := next.(unsupported := true);
  }

  /** `;`, newline, `|`, `||`, `&` and `&&`: `i` is left at the last character consumed. */
  method ReadOperator(command: string, at: nat, st: Lexer)
    returns (next: Lexer, i: nat, done: seq<Segment>, substitutions: seq<string>)
    requires at < |command| && IsOperator(command[at])
    ensures at <= i < |command|
    ensures Operator(command[at..], st) == Move(next, i - at + 1, done, substitutions)
  {
    var ch := command[at];
    next, i, substitutions := FlushWord(st), at, [];
    if ch == '\n' && next.pending != [] {
      var heredocs := next.pending;
      done := Flushed(next, false);
      next := NextSegment(next).(pending := []);
      assert command[at..][1..] == command[at + 1..];
      i, substitutions := ConsumeHeredocBodies(command, at + 1, heredocs);
      return;
    }
    var pipe := false;
    if (ch == '|' || ch == '&') && Peek(command, at + 1, ch) {
      i := i + 1;
    } else if ch == '|' {
      next := next.(unsupported := true);
      pipe := true;
    } else if ch == '&' {
      next := next.(unsupported := true);
    }
    done := Flushed(next, pipe);
    next := NextSegment(next);
  }

  /** One iteration of the main loop, outside the recursion. */
  method ReadChar(command: string, at: nat, st: Lexer)
    returns (next: Lexer, i: nat, done: seq<Segment>, substitutions: seq<string>)
    requires at < |command|
    ensures at <= i < |command|
    ensures Advance(Before(command, at), command[at..], st)
            == Move(next, i - at + 1, done, substitutions)
  {
    var ch := command[at];
    next, i, done, substitutions := st, at, [], [];
    if st.quote != Unquoted {
      next := Quoted(st, ch);
    } else if st.escaped {
      if ch != '\n' { next := next.(word := st.word + [ch]); }
      next := next.(escaped := false, atTokenStart := false);
    } else if ch == '\\' {
      if at + 1 < |command| && Escapable(command[at + 1]) {
        next := st.(escaped := true, atTokenStart := false);
      } else {
        next := Literal(st, ch);
      }
    } else if ch == '\'' {
      next := st.(quote := Single, atTokenStart := false);
    } else if ch == '"' {
      next := st.(quote := Double, atTokenStart := false);
    } else if ch == '#' && st.atTokenStart {
      i := SkipComment(command, at);
    } else if IsSpace(ch) && ch != '\n' {
      next := FlushWord(st);
    } else if IsOperator(ch) {
      next, i, done, substitutions := ReadOperator(command, at, st);
    } else if ch == '<' || ch == '>' {
      next, i := ReadRedirect(command, at, st);
    } else {
      next := Literal(st, ch);
    }
  }

  lemma Associates4<T>(a: seq<T>, b: seq<T>, c: seq<T>, d: seq<T>)
    ensures a + (b + c + d) == a + b + c + d
  {}

  lemma LexUnfold(prev: Option<char>, s: string, st: Lexer, m: Move, tail: string)
    requires s != "" && m == Advance(prev, s, st) && tail == s[m.used..]
    ensures Lex(prev, s, st) == m.done + TokenizeAll(m.subs) + Lex(Some(s[m.used - 1]), tail, m.st)
  {
    hide Advance, TokenizeAll, Flushed;
  }

  lemma LexEnd(prev: Option<char>, st: Lexer)
    ensures Lex(prev, "", st) == Flushed(if st.quote != Unquoted || st.escaped then st.(unsupported := true)
            else st, false)
  {}

  lemma LexStep(command: string, at: nat, st: Lexer, m: Move)
    requires at < |command| && m == Advance(Before(command, at), command[at..], st)
    ensures at + m.used <= |command|
    ensures Lex(Before(command, at), command[at..], st)
            == m.done + TokenizeAll(m.subs) + Lex(Before(command, at + m.used), command[at + m.used..], m.st)
  {
    DropDrop(command, at, m.used);
    LexUnfold(Before(command, at), command[at..], st, m, command[at + m.used..]);
  }

  method TokenizeShellCommand(command: string) returns (segments: seq<Segment>)
    ensures segments == Tokenize(command)
    decreases |command|, 1
  {
    hide Lex, Advance;
    segments := [];
    var st, i := FRESH, 0;
    ghost var all := Tokenize(command);
    assert command[0..] == command;
    while i < |command|
      invariant i <= |command|
      invariant all == segments + Lex(Before(command, i), command[i..], st)
      decreases |command| - i
    {
      ghost var at, was, before := i, segments, st;
      var done, substitutions;
      st, i, done, substitutions := ReadChar(command, i, st);
      LexStep(command, at, before, Move(st, i - at + 1, done, substitutions));
      var more := TokenizeSubstitutions(substitutions, |command|);
      segments := segments + done + more;
      i := i + 1;
      Associates4(was, done, more, Lex(Before(command, i), command[i..], st));
    }
    LexEnd(Before(command, i), st);
    assert command[i..] == "";
    if st.quote != Unquoted || st.escaped { st := st.(unsupported := true); }
    segments := segments + Flushed(st, false);
  }

  method TokenizeSubstitutions(substitutions: seq<string>, ghost bound: nat) returns (segments: seq<Segment>)
    requires Longest(substitutions) < bound
    ensures segments == TokenizeAll(substitutions)
    decreases bound, 0
  {
    segments := [];
    for k := 0 to |substitutions|
      invariant segments == TokenizeAll(substitutions[..k])
    {
      TakeSnoc(substitutions, k);
      var more := TokenizeShellCommand(substitutions[k]);
      segments := segments + more;
    }
    assert substitutions[..|substitutions|] == substitutions;
  }
}
