/** Every way of writing the delimiter of a here-document (clients/bash-file-access.ts:65-100),
    read back by the shell lexer: single and double quotes, escapes and plain characters. */
module ShellDelimiters {
  import opened JsMap
  import opened Text
  import opened ShellLexer

  /** Part of a delimiter word. */
  datatype Bit = InQuotes(quote: char, text: string) | Slashed(c: char) | Plain(c: char)

  /** Blanks and operators end the word. */
  predicate Ends(c: char) { IsSpace(c) || c == ';' || c == '&' || c == '|' || c == '<' || c == '>' }

  predicate BitOk(bit: Bit) {
    match bit
    case InQuotes(quote, text) => (quote == '\'' || quote == '"') && quote !in text
    case Slashed(_) => true
    case Plain(c) => !Ends(c) && c != '\'' && c != '"' && c != '\\'
  }

  predicate BitsOk(bits: seq<Bit>) { forall i :: 0 <= i < |bits| ==> BitOk(bits[i]) }

  function PrintBit(bit: Bit): (text: string)
    ensures text != ""
  {
    match bit
    case InQuotes(quote, text) => [quote] + (text + [quote])
    case Slashed(c) => ['\\', c]
    case Plain(c) => [c]
  }

  function BitValue(bit: Bit): string {
    match bit case InQuotes(_, text) => text case Slashed(c) => [c] case Plain(c) => [c]
  }

  function PrintBits(bits: seq<Bit>): string {
    if bits == [] then "" else PrintBit(bits[0]) + PrintBits(bits[1..])
  }

  function BitsValue(bits: seq<Bit>): string {
    if bits == [] then "" else BitValue(bits[0]) + BitsValue(bits[1..])
  }

  /** Any quoting at all keeps the body from being expanded. */
  predicate AnyQuoting(bits: seq<Bit>) { exists i :: 0 <= i < |bits| && !bits[i].Plain? }

  lemma QuotesArePiece(quote: char, text: string, tail: string)
    requires (quote == '\'' || quote == '"') && quote !in text
    ensures Piece([quote] + (text + [quote]) + tail) == Some(Delimiter(text, true, |text| + 2))
  {
    var s := [quote] + (text + [quote]) + tail;
    assert s[1..] == text + ([quote] + tail);
    FirstIndexIs(text, quote, tail);
    assert s[1..|text| + 1] == text;
  }

  lemma BitIsPiece(bit: Bit, tail: string)
    requires BitOk(bit)
    ensures var s := PrintBit(bit) + tail;
            && !EndsDelimiter(s[0]) && s[|PrintBit(bit)|..] == tail
            && Piece(s) == Some(Delimiter(BitValue(bit), !bit.Plain?, |PrintBit(bit)|))
  {
    if bit.InQuotes? {
      hide Piece;
      QuotesArePiece(bit.quote, bit.text, tail);
    }
  }

  lemma AnyQuotingCons(bits: seq<Bit>)
    requires bits != []
    ensures AnyQuoting(bits) <==> !bits[0].Plain? || AnyQuoting(bits[1..])
  {
    if i :| 0 <= i < |bits| && !bits[i].Plain? && i > 0 { assert bits[1..][i - 1] == bits[i]; }
    if i :| 0 <= i < |bits[1..]| && !bits[1..][i].Plain? { assert bits[i + 1] == bits[1..][i]; }
  }

  lemma ReadsBit(s: string, bit: Bit, tail: string, more: Delimiter)
    requires s == PrintBit(bit) + tail && BitOk(bit) && ReadDelimiter(tail) == Some(more)
    ensures ReadDelimiter(s)
            == Some(Delimiter(BitValue(bit) + more.text, !bit.Plain? || more.quoted, |PrintBit(bit)| + more.used))
  {
    hide Piece, PrintBit, BitValue, EndsDelimiter;
    BitIsPiece(bit, tail);
  }

  /** The word reads back as what its parts stand for. */
  lemma {:induction false} ReadsBits(bits: seq<Bit>, rest: string)
    requires BitsOk(bits) && (rest == "" || Ends(rest[0]))
    ensures ReadDelimiter(PrintBits(bits) + rest)
            == Some(Delimiter(BitsValue(bits), AnyQuoting(bits), |PrintBits(bits)|))
    decreases |bits|
  {
    hide PrintBit, BitValue, BitOk, ReadDelimiter;
    if bits == [] {
      assert PrintBits(bits) + rest == rest;
      DelimiterEnds(rest);
    } else {
      var tail := PrintBits(bits[1..]) + rest;
      Associates(PrintBit(bits[0]), PrintBits(bits[1..]), rest);
      AnyQuotingCons(bits);
      ReadsBits(bits[1..], rest);
      ReadsBit(PrintBits(bits) + rest, bits[0], tail,
               Delimiter(BitsValue(bits[1..]), AnyQuoting(bits[1..]), |PrintBits(bits[1..])|));
    }
  }

  predicate AllSpace(gap: string) { forall i :: 0 <= i < |gap| ==> IsSpace(gap[i]) }

  lemma {:induction false} SkipsGap(gap: string, tail: string)
    requires AllSpace(gap) && tail != "" && !IsSpace(tail[0])
    ensures SpacesAhead(gap + tail) == |gap|
    decreases |gap|
  {
    hide IsSpace;
    if gap == "" {
      assert gap + tail == tail;
    } else {
      assert gap + tail == [gap[0]] + (gap[1..] + tail);
      SkipsGap(gap[1..], tail);
    }
  }

  /** What stands behind `<<`: a dash if leading tabs are stripped, blanks, and the word. */
  function PrintDelimiter(dash: bool, gap: string, bits: seq<Bit>): string {
    (if dash then "-" else "") + (gap + PrintBits(bits))
  }

  lemma WordStarts(bits: seq<Bit>, rest: string)
    requires bits != [] && BitsOk(bits)
    ensures var word := PrintBits(bits) + rest; word != "" && !IsSpace(word[0])
  {
    assert BitOk(bits[0]);
  }

  lemma ParsesWith(s: string, dash: bool, gap: nat, d: Delimiter)
    requires (Peek(s, 0, '-') <==> dash) && (if dash then 1 else 0) + gap <= |s| && d.text != ""
    requires SpacesAhead(s[if dash then 1 else 0..]) == gap
    requires ReadDelimiter(s[(if dash then 1 else 0) + gap..]) == Some(d)
    ensures ParseHeredoc(s) == Some(Parsed(Heredoc(d.text, dash, d.quoted), (if dash then 1 else 0) + gap + d.used))
  {
    hide ReadDelimiter, SpacesAhead;
  }

  /** However the delimiter is written, the lexer takes its value, strips tabs exactly after a dash,
      and keeps the body from being expanded exactly if any part of it is quoted. */
  lemma DelimiterRoundTrip(dash: bool, gap: string, bits: seq<Bit>, rest: string)
    requires BitsOk(bits) && AllSpace(gap) && BitsValue(bits) != "" && (rest == "" || Ends(rest[0]))
    requires !dash && gap == "" ==> !Peek(PrintBits(bits), 0, '-')
    ensures ParseHeredoc(PrintDelimiter(dash, gap, bits) + rest)
            == Some(Parsed(Heredoc(BitsValue(bits), dash, AnyQuoting(bits)), |PrintDelimiter(dash, gap, bits)|))
  {
    hide ReadDelimiter, BitsOk, AnyQuoting, BitsValue, IsSpace, Ends, AllSpace, SpacesAhead, ParseHeredoc, PrintBits;
    assert bits != [] by { NoBits(); }
    var s, word := PrintDelimiter(dash, gap, bits) + rest, PrintBits(bits) + rest;
    var n := if dash then 1 else 0;
    WordStarts(bits, rest);
    StartsPrinted(bits);
    assert s == (if dash then "-" else "") + (gap + word);
    assert s[n..] == gap + word && s[n + |gap|..] == word;
    DashIs(dash, gap, word, s);
    SkipsGap(gap, word);
    ReadsBits(bits, rest);
    ParsesWith(s, dash, |gap|, Delimiter(BitsValue(bits), AnyQuoting(bits), |PrintBits(bits)|));
  }

  lemma StartsPrinted(bits: seq<Bit>)
    ensures bits != [] ==> PrintBits(bits) != ""
  {}

  lemma NoBits()
    ensures BitsValue([]) == ""
  {}

  lemma DashIs(dash: bool, gap: string, word: string, s: string)
    requires s == (if dash then "-" else "") + (gap + word) && AllSpace(gap)
    requires !dash && gap == "" ==> !Peek(word, 0, '-')
    ensures Peek(s, 0, '-') <==> dash
  {}

  /** A quotation in the delimiter that is never closed, or a word that stands for nothing, is no
      delimiter. */
  lemma NoDelimiter(bits: seq<Bit>, quote: char, text: string, rest: string)
    requires BitsOk(bits)
    ensures (quote == '\'' || quote == '"') && quote !in text ==>
              ReadDelimiter(PrintBits(bits) + ([quote] + text)) == None
    ensures bits != [] && BitsValue(bits) == "" && (rest == "" || Ends(rest[0])) ==>
              ParseHeredoc(PrintBits(bits) + rest) == None
  {
    if (quote == '\'' || quote == '"') && quote !in text { OpenIsNone(bits, quote, text); }
    if bits != [] && BitsValue(bits) == "" && (rest == "" || Ends(rest[0])) {
      hide ReadDelimiter;
      var word := PrintBits(bits) + rest;
      WordStarts(bits, rest);
      EmptyIsQuotes(bits);
      assert SpacesAhead(word) == 0 && word[0..] == word;
      assert !Peek(word, 0, '-');
      ReadsBits(bits, rest);
    }
  }

  lemma EmptyIsQuotes(bits: seq<Bit>)
    requires bits != [] && BitsOk(bits) && BitsValue(bits) == ""
    ensures PrintBits(bits) != "" && (PrintBits(bits)[0] == '\'' || PrintBits(bits)[0] == '"')
  {
    assert BitOk(bits[0]) && BitValue(bits[0]) == "";
  }

  lemma OpenPiece(quote: char, text: string)
    requires (quote == '\'' || quote == '"') && quote !in text
    ensures ReadDelimiter([quote] + text) == None
  {
    var open := [quote] + text;
    assert open[1..] == text && Piece(open) == None;
  }

  lemma ReadsNothing(s: string, bit: Bit, tail: string)
    requires s == PrintBit(bit) + tail && BitOk(bit) && ReadDelimiter(tail) == None
    ensures ReadDelimiter(s) == None
  {
    hide Piece, PrintBit, BitValue, EndsDelimiter;
    BitIsPiece(bit, tail);
  }

  lemma {:induction false} OpenIsNone(bits: seq<Bit>, quote: char, text: string)
    requires BitsOk(bits) && (quote == '\'' || quote == '"') && quote !in text
    ensures ReadDelimiter(PrintBits(bits) + ([quote] + text)) == None
    decreases |bits|
  {
    hide ReadDelimiter, PrintBit, BitOk;
    var open := [quote] + text;
    if bits == [] {
      assert PrintBits(bits) + open == open;
      OpenPiece(quote, text);
    } else {
      Associates(PrintBit(bits[0]), PrintBits(bits[1..]), open);
      OpenIsNone(bits[1..], quote, text);
      ReadsNothing(PrintBits(bits) + open, bits[0], PrintBits(bits[1..]) + open);
    }
  }
}
