/** Definition index and enclosing-symbol lookup of the call-graph builder
    (`buildDefIndex` and `findEnclosingSymbol` in clients/call-graph.ts). */
module CallGraphIndex {
  import opened JsMap
  import opened CallGraphTypes

  type SymbolTable = Entries<string, seq<Symbol>>

  datatype DefIndex = DefIndex(byName: Adjacency, byId: Entries<string, Symbol>)

  /** Re-key by normalized path: the last spelling of a file wins. */
  function CanonicalSymbols(norm: string -> string, all: SymbolTable): SymbolTable {
    if all == [] then []
    else Put(CanonicalSymbols(norm, all[..|all| - 1]), norm(all[|all| - 1].0), all[|all| - 1].1)
  }

  function AllSymbols(table: SymbolTable): seq<Symbol> {
    if table == [] then [] else AllSymbols(table[..|table| - 1]) + table[|table| - 1].1
  }

  predicate Indexed(sym: Symbol) { sym.name != "" && sym.id != "" }

  function AddSymbol(ix: DefIndex, sym: Symbol): DefIndex {
    if !Indexed(sym) then ix
    else DefIndex(Link(ix.byName, sym.name, sym.id), Put(ix.byId, sym.id, sym))
  }

  function IndexOf(symbols: seq<Symbol>): DefIndex {
    if symbols == [] then DefIndex([], [])
    else AddSymbol(IndexOf(symbols[..|symbols| - 1]), symbols[|symbols| - 1])
  }

  lemma {:induction false} IndexOfAppend(a: seq<Symbol>, b: seq<Symbol>, i: nat)
    requires i < |b|
    ensures IndexOf(a + b[..i + 1]) == AddSymbol(IndexOf(a + b[..i]), b[i])
  {
    var whole := a + b[..i + 1];
    assert whole[..|whole| - 1] == a + b[..i];
    assert whole[|whole| - 1] == b[i];
  }

  method BuildDefIndex(table: SymbolTable) returns (ix: DefIndex)
    ensures ix == IndexOf(AllSymbols(table))
  {
    ix := DefIndex([], []);
    for f := 0 to |table|
      invariant ix == IndexOf(AllSymbols(table[..f]))
    {
      var symbols := table[f].1;
      ghost var done := AllSymbols(table[..f]);
      assert table[..f + 1][..f] == table[..f];
      assert done + symbols[..0] == done;
      for i := 0 to |symbols|
        invariant ix == IndexOf(done + symbols[..i])
      {
        var sym := symbols[i];
        IndexOfAppend(done, symbols, i);
        if sym.name == "" || sym.id == "" { continue; }
        var existing := OrElse(Get(ix.byName, sym.name), []);
        if sym.id !in existing { existing := existing + [sym.id]; }
        ix := DefIndex(Put(ix.byName, sym.name, existing), Put(ix.byId, sym.id, sym));
      }
      assert symbols[..|symbols|] == symbols;
    }
    assert table[..|table|] == table;
  }

  /** The id table holds, for every indexed id, the last symbol that carries it. */
  lemma {:induction false} ByIdIsLastCarrier(symbols: seq<Symbol>, id: string)
    ensures match Get(IndexOf(symbols).byId, id)
            case None => forall i :: 0 <= i < |symbols| && symbols[i].id == id ==> !Indexed(symbols[i])
            case Some(s) =>
              s.id == id && Indexed(s) &&
              exists i :: && 0 <= i < |symbols| && symbols[i] == s
                          && forall j :: i < j < |symbols| && symbols[j].id == id ==> !Indexed(symbols[j])
  {
    if symbols == [] {
    } else {
      var front, last := symbols[..|symbols| - 1], symbols[|symbols| - 1];
      ByIdIsLastCarrier(front, id);
      PutGet(IndexOf(front).byId, last.id, last, id);
      match Get(IndexOf(symbols).byId, id) {
        case None =>
          forall i | 0 <= i < |symbols| && symbols[i].id == id ensures !Indexed(symbols[i]) {
            if i < |front| { assert front[i] == symbols[i]; }
          }
        case Some(s) =>
          if last.id == id && Indexed(last) {
            assert symbols[|symbols| - 1] == s;
          } else {
            var i :| && 0 <= i < |front| && front[i] == s
                     && forall j :: i < j < |front| && front[j].id == id ==> !Indexed(front[j]);
            assert symbols[i] == s;
            forall j | i < j < |symbols| && symbols[j].id == id ensures !Indexed(symbols[j]) {
              if j < |front| { assert front[j] == symbols[j]; }
            }
          }
      }
    }
  }

  ghost predicate Carries(symbols: seq<Symbol>, name: string, id: string) {
    exists i :: 0 <= i < |symbols| && Indexed(symbols[i]) && symbols[i].name == name && symbols[i].id == id
  }

  function IdsNamed(symbols: seq<Symbol>, name: string): seq<string> {
    OrElse(Get(IndexOf(symbols).byName, name), [])
  }

  /** The name table lists, without repetition, the ids of the symbols carrying the name. */
  lemma {:induction false} ByNameIsCarriers(symbols: seq<Symbol>, name: string, id: string)
    ensures id in IdsNamed(symbols, name) <==> Carries(symbols, name, id)
    ensures Distinct(IdsNamed(symbols, name))
  {
    if symbols == [] {
    } else {
      var front, last := symbols[..|symbols| - 1], symbols[|symbols| - 1];
      ByNameIsCarriers(front, name, id);
      PutGet(IndexOf(front).byName, last.name, Add(IdsNamed(front, last.name), last.id), name);
      if i :| 0 <= i < |front| && Indexed(front[i]) && front[i].name == name && front[i].id == id {
        assert symbols[i] == front[i];
      }
      if i :| 0 <= i < |symbols| && Indexed(symbols[i]) && symbols[i].name == name && symbols[i].id == id {
        if i < |front| { assert symbols[i] == front[i]; }
      }
    }
  }

  // ---- enclosing symbol ----------------------------------------------------------

  predicate Encloses(sym: Symbol, line: int) {
    && sym.line <= line
    && (sym.endLine.None? || line <= sym.endLine.value)
    && (sym.kind == "function" || sym.kind == "method")
  }

  function Enclosing(symbols: seq<Symbol>, line: int): Option<Symbol> {
    if symbols == [] then None
    else
      var best, sym := Enclosing(symbols[..|symbols| - 1], line), symbols[|symbols| - 1];
      if Encloses(sym, line) && (best.None? || sym.line > best.value.line) then Some(sym) else best
  }

  method FindEnclosingSymbol(symbols: seq<Symbol>, refLine: int) returns (best: Option<Symbol>)
    ensures best == Enclosing(symbols, refLine)
  {
    best := None;
    for i := 0 to |symbols|
      invariant best == Enclosing(symbols[..i], refLine)
    {
      var sym := symbols[i];
      assert symbols[..i + 1][..i] == symbols[..i];
      if sym.line <= refLine && (sym.endLine.None? || refLine <= sym.endLine.value)
         && (sym.kind == "function" || sym.kind == "method") {
        if best.None? || sym.line > best.value.line { best := Some(sym); }
      }
    }
    assert symbols[..|symbols|] == symbols;
  }

  /** The innermost enclosing function: the greatest start line, the first one on a tie. */
  lemma {:induction false} EnclosingIsInnermost(symbols: seq<Symbol>, line: int)
    ensures match Enclosing(symbols, line)
            case None => forall i :: 0 <= i < |symbols| ==> !Encloses(symbols[i], line)
            case Some(s) =>
              exists i :: && 0 <= i < |symbols| && symbols[i] == s && Encloses(s, line)
                          && (forall j :: 0 <= j < |symbols| && Encloses(symbols[j], line) ==>
                            symbols[j].line <= s.line)
                          && (forall j :: 0 <= j < i && Encloses(symbols[j], line) ==> symbols[j].line < s.line)
  {
    if symbols == [] {
    } else {
      var front, last := symbols[..|symbols| - 1], symbols[|symbols| - 1];
      EnclosingIsInnermost(front, line);
      assert forall j :: 0 <= j < |front| ==> front[j] == symbols[j];
      match Enclosing(symbols, line) {
        case None =>
          forall i | 0 <= i < |symbols| ensures !Encloses(symbols[i], line) {
            if i < |front| { assert !Encloses(front[i], line); }
          }
        case Some(s) =>
          var best := Enclosing(front, line);
          if Encloses(last, line) && (best.None? || last.line > best.value.line) {
            assert symbols[|symbols| - 1] == s;
          } else {
            var i :| && 0 <= i < |front| && front[i] == s && Encloses(s, line)
                     && (forall j :: 0 <= j < |front| && Encloses(front[j], line) ==> front[j].line <= s.line)
                     && (forall j :: 0 <= j < i && Encloses(front[j], line) ==> front[j].line < s.line);
            assert symbols[i] == s;
          }
      }
    }
  }
}
