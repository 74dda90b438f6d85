/** Which command substitutions the lexer finds in a here-document body
    (clients/bash-file-access.ts:102-143): parentheses inside quotes do not count, backticks come
    in pairs unless escaped, and what never closes is not a substitution. */
module ShellSubstitutions {
  import opened JsMap
  import opened Text
  import opened ShellLexer
  import opened ShellHeredocs

  // ---- quotes inside `$(...)` ----------------------------------------------------

  lemma {:induction false} SingleRuns(before: char, text: string, more: string, nested: nat)
    requires '\'' !in text
    ensures Encloses(before, text + ("'" + more), nested, Single) <==> Encloses('\'', more, nested, Unquoted)
    decreases |text|
  {
    hide Encloses;
    var s := text + ("'" + more);
    if text == "" {
      assert s == "'" + more && s[1..] == more;
      EnclosesUnfold(before, s, nested, Single, Paren(nested + 1, Unquoted, 1), more);
    } else {
      var tail := text[1..] + ("'" + more);
      assert s == [text[0]] + tail && s[1..] == tail;
      EnclosesUnfold(before, s, nested, Single, Paren(nested + 1, Single, 1), tail);
      SingleRuns(text[0], text[1..], more, nested);
    }
  }

  /** Nothing inside single quotes opens or closes anything. */
  lemma SingleQuotesHide(before: char, text: string, more: string, nested: nat)
    requires '\'' !in text
    ensures Encloses(before, "'" + (text + ("'" + more)), nested, Unquoted) <==> Encloses('\'', more, nested, Unquoted)
  {
    hide Encloses;
    var s, tail := "'" + (text + ("'" + more)), text + ("'" + more);
    assert s[1..] == tail;
    EnclosesUnfold(before, s, nested, Unquoted, Paren(nested + 1, Single, 1), tail);
    SingleRuns('\'', text, more, nested);
  }

  /** A double quote has a backslash in front. */
  predicate Guarded(before: char, text: string, i: nat)
    requires i < |text|
  {
    text[i] == '"' ==> (if i == 0 then before else text[i - 1]) == '\\'
  }

  /** Every double quote inside has a backslash in front, and the closing one has none. */
  predicate FitsDouble(before: char, text: string) {
    && (forall i :: 0 <= i < |text| ==> Guarded(before, text, i))
    && (if text == "" then before else text[|text| - 1]) != '\\'
  }

  lemma {:induction false} DoubleRuns(before: char, text: string, more: string, nested: nat)
    requires FitsDouble(before, text)
    ensures Encloses(before, text + ("\"" + more), nested, Double) <==> Encloses('"', more, nested, Unquoted)
    decreases |text|
  {
    hide Encloses;
    var s := text + ("\"" + more);
    if text == "" {
      assert s == "\"" + more && s[1..] == more;
      EnclosesUnfold(before, s, nested, Double, Paren(nested + 1, Unquoted, 1), more);
    } else {
      var tail := text[1..] + ("\"" + more);
      assert s == [text[0]] + tail && s[1..] == tail;
      assert Guarded(before, text, 0);
      forall i | 0 <= i < |text[1..]| ensures Guarded(text[0], text[1..], i) { assert Guarded(before, text, i + 1); }
      EnclosesUnfold(before, s, nested, Double, Paren(nested + 1, Double, 1), tail);
      assert FitsDouble(text[0], text[1..]);
      DoubleRuns(text[0], text[1..], more, nested);
    }
  }

  /** Nor does anything inside double quotes. */
  lemma DoubleQuotesHide(before: char, text: string, more: string, nested: nat)
    requires FitsDouble('"', text)
    ensures Encloses(before, "\"" + (text + ("\"" + more)), nested, Unquoted)
            <==> Encloses('"', more, nested, Unquoted)
  {
    hide Encloses;
    var s, tail := "\"" + (text + ("\"" + more)), text + ("\"" + more);
    assert s[1..] == tail;
    EnclosesUnfold(before, s, nested, Unquoted, Paren(nested + 1, Double, 1), tail);
    DoubleRuns('"', text, more, nested);
  }

  // ---- what never closes ---------------------------------------------------------

  lemma ClosedIsEnclosed(s: string)
    ensures match CloseParen('(', s, 1, Unquoted)
            case Some(k) => k < |s| && s[k] == ')' && Encloses('(', s[..k], 0, Unquoted)
            case None => forall i :: 0 <= i < |s| && s[i] == ')' ==> !Encloses('(', s[..i], 0, Unquoted)
  {
    hide CloseParen, Encloses;
    forall i | 0 <= i < |s| && s[i] == ')'
      ensures CloseParen('(', s, 1, Unquoted) == Some(i) <==> Encloses('(', s[..i], 0, Unquoted)
    {
      assert s == s[..i] + (")" + s[i + 1..]);
      ClosesBehind('(', s[..i], s[i + 1..], 0, Unquoted);
    }
  }

  /** `$(` is a substitution exactly if some parenthesis behind it closes it. */
  lemma DollarFoundIff(prev: Option<char>, s: string)
    ensures SubstitutionAt(prev, "$(" + s).body.Some?
            <==> exists i :: 0 <= i < |s| && s[i] == ')' && Encloses('(', s[..i], 0, Unquoted)
    ensures SubstitutionAt(prev, "$(" + s).body.None? ==> SubstitutionAt(prev, "$(" + s) == Found(None, 1)
  {
    hide CloseParen, Encloses;
    var t := "$(" + s;
    assert t[0] == '$' && t[1] == '(' && t[2..] == s;
    ClosedIsEnclosed(s);
  }

  // ---- backticks -----------------------------------------------------------------

  /** A pair of backticks is a substitution unless the first is escaped; one alone is none. */
  lemma BackticksFound(prev: Option<char>, text: string, rest: string)
    requires '`' !in text
    ensures prev != Some('\\') ==>
              Substitutions(prev, "`" + (text + ("`" + rest))) == [text] + Substitutions(Some('`'), rest)
    ensures SubstitutionAt(Some('\\'), "`" + rest) == Found(None, 1)
    ensures SubstitutionAt(prev, "`" + text) == Found(None, 1)
  {
    hide Substitutions;
    var s, tail := "`" + (text + ("`" + rest)), text + ("`" + rest);
    assert s[1..] == tail && ("`" + text)[1..] == text;
    FirstIndexIs(text, '`', rest);
    assert s[1..1 + |text|] == text && s[|text| + 2..] == rest && s[|text| + 1] == '`';
    if prev != Some('\\') { SubstitutionsUnfold(prev, s, Found(Some(text), |text| + 2), rest); }
  }
}
