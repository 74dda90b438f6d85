/** Review-graph symbol ids and the parser the call-graph validator trusts
    (clients/review-graph/symbol-id.ts). */
module SymbolId {
  import opened JsMap
  import opened Text

  datatype ParsedKey = ParsedKey(
    filePath: string, symbolName: Option<string>, kind: Option<string>, line: Option<nat>)

  function BuildSymbolId(filePath: string, name: string, kind: string, startLine: nat): string {
    filePath + ":" + name + ":" + kind + ":" + Decimal(startLine)
  }

  predicate IsKindChar(c: char) { 'a' <= c <= 'z' || IsDigit(c) }

  /** `[a-z0-9]+(?:-[a-z0-9]+)*` */
  predicate IsHyphenated(s: string) {
    && s != []
    && (forall i :: 0 <= i < |s| ==> IsKindChar(s[i]) || s[i] == '-')
    && s[0] != '-' && s[|s| - 1] != '-'
    && (forall i :: 0 <= i < |s| - 1 ==> !(s[i] == '-' && s[i + 1] == '-'))
  }

  predicate IsKindToken(s: string) { IsHyphenated(s) && 'a' <= s[0] <= 'z' }

  function NonEmpty(s: string): Option<string> { if s == "" then None else Some(s) }

  /** `/^(.*):([^:]*):([^:]+):(\d+)$/` together with the kind-token test. The last three
      groups exclude the colon, so the groups are delimited by the last three colons. */
  function ParseCanonical(key: string): Option<ParsedKey> {
    var c := LastIndex(key, ':');
    if c < 0 then None else
    var b := LastIndex(key[..c], ':');
    if b < 0 then None else
    var a := LastIndex(key[..b], ':');
    if a < 0 then None else
    var digits, kind := key[c + 1..], key[b + 1..c];
    if digits != "" && AllDigits(digits) && IsKindToken(kind)
       && IsOneLine(key[..a])
    then Some(ParsedKey(key[..a], NonEmpty(key[a + 1..b]), Some(kind), Some(Numeral(digits))))
    else None
  }

  function ParseSymbolKey(key: string, knownFilePath: string): ParsedKey {
    if StartsWith(key, "file:") then ParsedKey(key[5..], None, None, None)
    else if ParseCanonical(key).Some? then ParseCanonical(key).value
    else if knownFilePath != "" && StartsWith(key, knownFilePath + ":") then
      ParsedKey(knownFilePath, NonEmpty(key[|knownFilePath| + 1..]), None, None)
    else
      var separator := LastIndex(key, ':');
      if separator < 0 then ParsedKey(key, None, None, None)
      else ParsedKey(key[..separator], NonEmpty(key[separator + 1..]), None, None)
  }

  /** What the minted id was minted from. */
  function Minted(filePath: string, name: string, kind: string, line: nat): ParsedKey {
    ParsedKey(filePath, NonEmpty(name), Some(kind), Some(line))
  }

  /** Ids minted from this path look like the key of a whole module. */
  predicate IsModuleForm(filePath: string) { StartsWith(filePath, "file:") || filePath == "file" }

  /** The file is not the module-level form, has one line, and the name has no separator. */
  predicate Mintable(filePath: string, name: string) {
    !IsModuleForm(filePath) && IsOneLine(filePath) && ':' !in name
  }

  lemma DigitsHaveNoColon(s: string)
    requires AllDigits(s)
    ensures ':' !in s
  {}

  lemma KindHasNoColon(s: string)
    requires IsKindToken(s)
    ensures ':' !in s
  {}

  lemma MintedSuffix(filePath: string, name: string, kind: string, line: nat)
    requires IsKindToken(kind)
    ensures var key := BuildSymbolId(filePath, name, kind, line);
            var c := LastIndex(key, ':');
            && c == |filePath| + |name| + |kind| + 2
            && key[c + 1..] == Decimal(line)
            && key[..c] == filePath + ":" + name + ":" + kind
            && LastIndex(key[..c], ':') == |filePath| + |name| + 1
            && key[..|filePath| + |name| + 1] == filePath + ":" + name
            && key[|filePath| + |name| + 2..c] == kind
  {
    var key := BuildSymbolId(filePath, name, kind, line);
    KindHasNoColon(kind);
    DigitsHaveNoColon(Decimal(line));
    LastIndexOfJoin(filePath + ":" + name + ":" + kind, ':', Decimal(line));
    LastIndexOfJoin(filePath + ":" + name, ':', kind);
    assert key == filePath + ":" + name + ":" + kind + [':'] + Decimal(line);
    assert filePath + ":" + name + ":" + kind == filePath + ":" + name + [':'] + kind;
    var c := LastIndex(key, ':');
    assert c == |filePath + ":" + name + ":" + kind|;
    assert key[..c] == filePath + ":" + name + ":" + kind;
    assert LastIndex(filePath + ":" + name + [':'] + kind, ':') == |filePath + ":" + name|;
  }

  lemma FilePrefix(filePath: string, name: string, kind: string, line: nat)
    ensures StartsWith(BuildSymbolId(filePath, name, kind, line), "file:")
      <==> StartsWith(filePath, "file:") || filePath == "file"
  {
    var key := BuildSymbolId(filePath, name, kind, line);
    assert key == filePath + (":" + name + ":" + kind + ":" + Decimal(line));
    assert key[..|filePath|] == filePath && key[|filePath|] == ':';
    if |filePath| >= 5 {
      assert key[..5] == filePath[..5];
    } else if StartsWith(key, "file:") {
      assert "file:"[..|filePath|] == filePath;
      assert "file:"[|filePath|] == ':';
      assert filePath == "file";
    }
    if filePath == "file" { assert key[..5] == "file:"; }
  }

  lemma CanonicalFields(filePath: string, name: string, kind: string, line: nat)
    requires IsKindToken(kind) && ':' !in name
    ensures var parsed := ParseCanonical(BuildSymbolId(filePath, name, kind, line));
            if IsOneLine(filePath)
            then parsed == Some(Minted(filePath, name, kind, line)) else parsed == None
  {
    hide LastIndex;
    var key := BuildSymbolId(filePath, name, kind, line);
    MintedSuffix(filePath, name, kind, line);
    DecimalReadsBack(line);
    var b := |filePath| + |name| + 1;
    var c := LastIndex(key, ':');
    assert key[..c][..b] == key[..b];
    LastIndexOfJoin(filePath, ':', name);
    assert filePath + [':'] + name == key[..b];
    assert LastIndex(key[..b], ':') == |filePath|;
    assert key[..|filePath|] == filePath;
    assert key[|filePath| + 1..b] == name;
  }

  lemma OneLineJoin(a: string, b: string)
    ensures IsOneLine(a + ":" + b) <==> IsOneLine(a) && IsOneLine(b)
  {
    var all := a + ":" + b;
    if IsOneLine(all) {
      forall i | 0 <= i < |a| ensures !IsLineTerminator(a[i]) { assert all[i] == a[i]; }
      forall i | 0 <= i < |b| ensures !IsLineTerminator(b[i]) { assert all[|a| + 1 + i] == b[i]; }
    }
  }

  /** With separators in the name the parser moves all but the text after the last of them into
      the file. */
  lemma SeparatorFields(filePath: string, name: string, kind: string, line: nat)
    requires IsKindToken(kind) && ':' in name
    ensures var n := LastIndex(name, ':');
            var parsed := ParseCanonical(BuildSymbolId(filePath, name, kind, line));
            && n >= 0
            && if IsOneLine(filePath) && IsOneLine(name[..n])
               then parsed == Some(Minted(filePath + ":" + name[..n], name[n + 1..], kind, line)) else parsed == None
  {
    var n := LastIndex(name, ':');
    assert name == name[..n] + ":" + name[n + 1..];
    assert BuildSymbolId(filePath, name, kind, line)
        == BuildSymbolId(filePath + ":" + name[..n], name[n + 1..], kind, line) by {
      assert filePath + ":" + name == filePath + ":" + name[..n] + ":" + name[n + 1..];
    }
    CanonicalFields(filePath + ":" + name[..n], name[n + 1..], kind, line);
    OneLineJoin(filePath, name[..n]);
  }

  lemma CanonicalNameHasNoColon(key: string)
    requires ParseCanonical(key).Some?
    ensures ParseCanonical(key).value.symbolName.Some? ==> ':' !in ParseCanonical(key).value.symbolName.value
  {
    var c := LastIndex(key, ':');
    var b := LastIndex(key[..c], ':');
    var a := LastIndex(key[..b], ':');
    forall j | a < j < b ensures key[j] != ':' { assert key[..b][j] != ':'; }
  }

  /** A minted id parses back to exactly what it was minted from, whatever file hint is
      passed, if and only if the file and the name are mintable. */
  lemma MintedParsesBack(filePath: string, name: string, kind: string, line: nat, hint: string)
    requires IsKindToken(kind)
    ensures ParseSymbolKey(BuildSymbolId(filePath, name, kind, line), hint) == Minted(filePath, name, kind, line)
      <==> Mintable(filePath, name)
  {
    var key := BuildSymbolId(filePath, name, kind, line);
    FilePrefix(filePath, name, kind, line);
    if ':' !in name {
      CanonicalFields(filePath, name, kind, line);
    } else if ParseCanonical(key).Some? {
      CanonicalNameHasNoColon(key);
    }
  }
}
