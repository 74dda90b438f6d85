/** Union of warning records by id (clients/actionable-warnings.ts:552-583). */
module WarningRecords {
  import opened JsMap
  import opened Sorting

  /** `rest` and the like stand for the fields no modelled operation reads. */
  datatype Action = Action(kind: Option<string>, title: string, rest: string)

  datatype Origin = Dispatch | Lsp | Merged

  datatype Warning = Warning(
    id: string, displayPath: string, line: Option<int>, origin: Origin,
    fixSuggestion: Option<string>, fixKind: Option<string>, autoFixAvailable: Option<bool>,
    actions: seq<Action>, rest: string)

  /** `a ?? b` */
  function FirstDefined<T>(a: Option<T>, b: Option<T>): Option<T> { if a.Some? then a else b }

  function ActionKey(a: Action): string { (if a.kind.Some? then a.kind.value else "") + "|" + a.title }

  predicate HasAction(actions: seq<Action>, key: string) {
    exists i :: 0 <= i < |actions| && ActionKey(actions[i]) == key
  }

  function AddAction(actions: seq<Action>, a: Action): seq<Action> {
    if HasAction(actions, ActionKey(a)) then actions else actions + [a]
  }

  function AddActions(actions: seq<Action>, more: seq<Action>): seq<Action> {
    if more == [] then actions else AddAction(AddActions(actions, more[..|more| - 1]), more[|more| - 1])
  }

  /** An existing record takes over what a later one with the same id adds. */
  function Absorb(e: Warning, r: Warning): (w: Warning)
    ensures w.id == e.id && w.displayPath == e.displayPath && w.line == e.line && w.rest == e.rest
  {
    e.(origin := if e.origin == r.origin then e.origin else Merged,
       fixSuggestion := FirstDefined(e.fixSuggestion, r.fixSuggestion),
       fixKind := FirstDefined(e.fixKind, r.fixKind),
       autoFixAvailable := if e.autoFixAvailable == Some(true) then e.autoFixAvailable else r.autoFixAvailable,
       actions := AddActions(e.actions, r.actions))
  }

  function Enter(byId: Entries<string, Warning>, r: Warning): Entries<string, Warning> {
    var e := Get(byId, r.id);
    Put(byId, r.id, if e.Some? then Absorb(e.value, r) else r)
  }

  function ById(records: seq<Warning>): Entries<string, Warning> {
    if records == [] then [] else Enter(ById(records[..|records| - 1]), records[|records| - 1])
  }

  function Values<K, V>(m: Entries<K, V>): (vs: seq<V>)
    ensures |vs| == |m|
    ensures forall i :: 0 <= i < |m| ==> vs[i] == m[i].1
  {
    if m == [] then [] else Values(m[..|m| - 1]) + [m[|m| - 1].1]
  }

  function LineOf(w: Warning): int { if w.line.Some? then w.line.value else 0 }

  /** `localeCompare` on paths, then line numbers. */
  function ByPlace(pathLe: (string, string) -> bool): (Warning, Warning) -> bool {
    (a: Warning, b: Warning) =>
      pathLe(a.displayPath, b.displayPath) && (pathLe(b.displayPath, a.displayPath) ==> LineOf(a) <= LineOf(b))
  }

  function Merge(records: seq<Warning>, pathLe: (string, string) -> bool): seq<Warning> {
    Sort(Values(ById(records)), ByPlace(pathLe))
  }

  // ---- the program ---------------------------------------------------------------

  method MergeActions(existing: seq<Action>, more: seq<Action>) returns (actions: seq<Action>)
    ensures actions == AddActions(existing, more)
  {
    actions := existing;
    var seenActions := set a | a in existing :: ActionKey(a);
    for i := 0 to |more|
      invariant actions == AddActions(existing, more[..i])
      invariant forall key :: key in seenActions <==> HasAction(actions, key)
    {
      TakeSnoc(more, i);
      var key := ActionKey(more[i]);
      if key !in seenActions {
        HasActionSnoc(actions, more[i]);
        actions := actions + [more[i]];
        seenActions := seenActions + {key};
      }
    }
    assert more[..|more|] == more;
  }

  lemma HasActionSnoc(actions: seq<Action>, a: Action)
    ensures forall key :: HasAction(actions + [a], key) <==> HasAction(actions, key) || key == ActionKey(a)
  {
    forall key ensures HasAction(actions + [a], key) <==> HasAction(actions, key) || key == ActionKey(a) {
      var all := actions + [a];
      if i :| 0 <= i < |actions| && ActionKey(actions[i]) == key { assert all[i] == actions[i]; }
      assert all[|actions|] == a;
    }
  }

  method MergeWarnings(records: seq<Warning>, pathLe: (string, string) -> bool) returns (merged: seq<Warning>)
    ensures merged == Merge(records, pathLe)
  {
    var byId: Entries<string, Warning> := [];
    for i := 0 to |records|
      invariant byId == ById(records[..i])
    {
      TakeSnoc(records, i);
      var record := records[i];
      var existing := Get(byId, record.id);
      if existing.None? {
        byId := Put(byId, record.id, record);
        continue;
      }
      var e := existing.value;
      e := e.(origin := if e.origin == record.origin then e.origin else Merged);
      if e.fixSuggestion.None? { e := e.(fixSuggestion := record.fixSuggestion); }
      if e.fixKind.None? { e := e.(fixKind := record.fixKind); }
      if e.autoFixAvailable != Some(true) { e := e.(autoFixAvailable := record.autoFixAvailable); }
      var actions := MergeActions(e.actions, record.actions);
      byId := Put(byId, record.id, e.(actions := actions));
    }
    assert records[..|records|] == records;
    merged := Sort(Values(byId), ByPlace(pathLe));
  }

  // ---- what is kept --------------------------------------------------------------

  predicate HasId(records: seq<Warning>, id: string) { exists i :: 0 <= i < |records| && records[i].id == id }

  lemma HasIdAppend(a: seq<Warning>, b: seq<Warning>, id: string)
    ensures HasId(a + b, id) <==> HasId(a, id) || HasId(b, id)
  {
    var all := a + b;
    if i :| 0 <= i < |a| && a[i].id == id { assert all[i] == a[i]; }
    if i :| 0 <= i < |b| && b[i].id == id { assert all[|a| + i] == b[i]; }
  }

  /** All that was ever said about one id, first record first. */
  function Gather(records: seq<Warning>, id: string): Option<Warning> {
    if records == [] then None
    else
      var before, last := Gather(records[..|records| - 1], id), records[|records| - 1];
      if last.id != id then before else if before.Some? then Some(Absorb(before.value, last)) else Some(last)
  }

  lemma {:induction false} ByIdGathers(records: seq<Warning>, id: string)
    ensures Get(ById(records), id) == Gather(records, id)
    ensures Gather(records, id).Some? ==> Gather(records, id).value.id == id
  {
    if records == [] {
    } else {
      var front, last := records[..|records| - 1], records[|records| - 1];
      ByIdGathers(front, id);
      ByIdGathers(front, last.id);
      var e := Get(ById(front), last.id);
      PutGet(ById(front), last.id, if e.Some? then Absorb(e.value, last) else last, id);
    }
  }

  lemma {:induction false} GatherIffHasId(records: seq<Warning>, id: string)
    ensures Gather(records, id).Some? <==> HasId(records, id)
  {
    if records == [] {
    } else {
      var front, last := records[..|records| - 1], records[|records| - 1];
      GatherIffHasId(front, id);
      assert records == front + [last];
      HasIdAppend(front, [last], id);
      assert [last][0] == last;
    }
  }

  /** Entries of the map are keyed by their own ids, without repetition. */
  lemma {:induction false} ByIdKeyed(records: seq<Warning>)
    ensures Unique(ById(records))
    ensures forall i :: 0 <= i < |ById(records)| ==> ById(records)[i].0 == ById(records)[i].1.id
  {
    if records == [] {
    } else {
      var front, last := records[..|records| - 1], records[|records| - 1];
      var m := ById(front);
      ByIdKeyed(front);
      var e := Get(m, last.id);
      var v := if e.Some? then Absorb(e.value, last) else last;
      PutShape(m, last.id, v);
      if e.Some? {
        ByIdGathers(front, last.id);
        var i := PutFirst(m, last.id, v);
      } else {
        PutNew(m, last.id, v);
      }
    }
  }

  lemma MergeMembers(records: seq<Warning>, pathLe: (string, string) -> bool, w: Warning)
    requires TotalPreorder(ByPlace(pathLe))
    ensures w in Merge(records, pathLe) <==> Gather(records, w.id) == Some(w)
  {
    var m := ById(records);
    ByIdKeyed(records);
    ByIdGathers(records, w.id);
    SortSorts(Values(m), ByPlace(pathLe));
    SameMembers(Merge(records, pathLe), Values(m), w);
    if w in Values(m) {
      var i :| 0 <= i < |m| && Values(m)[i] == w;
      GetAt(m, i);
    }
    if Gather(records, w.id) == Some(w) {
      var i := GetIndex(m, w.id);
      assert Values(m)[i] == w;
    }
  }

  /** The union loses no id and invents none. */
  lemma MergeKeepsIds(records: seq<Warning>, pathLe: (string, string) -> bool, id: string)
    requires TotalPreorder(ByPlace(pathLe))
    ensures HasId(Merge(records, pathLe), id) <==> HasId(records, id)
  {
    var merged := Merge(records, pathLe);
    GatherIffHasId(records, id);
    ByIdGathers(records, id);
    if i :| 0 <= i < |merged| && merged[i].id == id { MergeMembers(records, pathLe, merged[i]); }
    if Gather(records, id).Some? {
      var w := Gather(records, id).value;
      MergeMembers(records, pathLe, w);
      var i :| 0 <= i < |merged| && merged[i] == w;
    }
  }

  /** Each id comes back once, in place order. */
  lemma MergeIsSortedSet(records: seq<Warning>, pathLe: (string, string) -> bool)
    requires TotalPreorder(ByPlace(pathLe))
    ensures SortedBy(Merge(records, pathLe), ByPlace(pathLe))
    ensures |Merge(records, pathLe)| == |ById(records)|
    ensures forall i, j :: 0 <= i < j < |Merge(records, pathLe)| ==>
            Merge(records, pathLe)[i].id != Merge(records, pathLe)[j].id
  {
    var m, merged := ById(records), Merge(records, pathLe);
    SortSorts(Values(m), ByPlace(pathLe));
    ByIdKeyed(records);
    DistinctIdsPermute(Values(m), merged);
  }

  /** Place order is by path, then by line; an unknown line comes before the first. */
  lemma MergeIsInPlaceOrder(records: seq<Warning>, pathLe: (string, string) -> bool, i: nat, j: nat)
    requires TotalPreorder(ByPlace(pathLe)) && i < j < |Merge(records, pathLe)|
    ensures var a, b := Merge(records, pathLe)[i], Merge(records, pathLe)[j];
            && pathLe(a.displayPath, b.displayPath)
            && (pathLe(b.displayPath, a.displayPath) ==>
                  (if a.line.Some? then a.line.value else 0) <= if b.line.Some? then b.line.value else 0)
  {
    hide Merge;
    MergeIsSortedSet(records, pathLe);
    assert ByPlace(pathLe)(Merge(records, pathLe)[i], Merge(records, pathLe)[j]);
  }

  lemma DistinctIdsPermute(a: seq<Warning>, b: seq<Warning>)
    requires multiset(a) == multiset(b) && forall i, j :: 0 <= i < j < |a| ==> a[i].id != a[j].id
    ensures forall i, j :: 0 <= i < j < |b| ==> b[i].id != b[j].id
  {
    DistinctPermutes(a, b);
    forall i, j | 0 <= i < j < |b| ensures b[i].id != b[j].id {
      SameMembers(a, b, b[i]);
      SameMembers(a, b, b[j]);
      var k :| 0 <= k < |a| && a[k] == b[i];
      var l :| 0 <= l < |a| && a[l] == b[j];
      assert k != l;
    }
  }

  lemma {:induction false} AddActionsKeys(actions: seq<Action>, more: seq<Action>, key: string)
    ensures HasAction(AddActions(actions, more), key) <==> HasAction(actions, key) || HasAction(more, key)
  {
    if more == [] {
    } else {
      var front, last := more[..|more| - 1], more[|more| - 1];
      AddActionsKeys(actions, front, key);
      assert more == front + [last];
      HasActionSnoc(front, last);
      HasActionSnoc(AddActions(actions, front), last);
    }
  }

  /** The gathered record offers exactly the actions some record with its id offered. */
  lemma {:induction false} GatherUnitesActions(records: seq<Warning>, id: string, key: string)
    ensures Gather(records, id).Some? && HasAction(Gather(records, id).value.actions, key)
            <==> exists i :: 0 <= i < |records| && records[i].id == id && HasAction(records[i].actions, key)
  {
    if records == [] {
    } else {
      var front, last := records[..|records| - 1], records[|records| - 1];
      GatherUnitesActions(front, id, key);
      if Gather(front, id).Some? { AddActionsKeys(Gather(front, id).value.actions, last.actions, key); }
      if i :| 0 <= i < |front| && front[i].id == id && HasAction(front[i].actions,
        key) { assert records[i] == front[i]; }
      if i :| 0 <= i < |records| && records[i].id == id && HasAction(records[i].actions, key) {
        if i < |front| { assert front[i] == records[i]; }
      }
    }
  }

  /** The records with one id, in order. */
  function Alike(records: seq<Warning>, id: string): seq<Warning> {
    if records == [] then []
    else
      Alike(records[..|records| - 1], id)
      + if records[|records| - 1].id == id then [records[|records| - 1]] else []
  }

  /** The first of the options that is given, if any is. */
  ghost predicate IsFirstGiven(o: Option<string>, options: seq<Option<string>>) {
    if o.None? then forall i :: 0 <= i < |options| ==> options[i].None?
    else exists i :: 0 <= i < |options| && options[i] == o && forall j :: 0 <= j < i ==> options[j].None?
  }

  function Suggestions(s: seq<Warning>): seq<Option<string>> {
    if s == [] then [] else Suggestions(s[..|s| - 1]) + [s[|s| - 1].fixSuggestion]
  }

  function FixKinds(s: seq<Warning>): seq<Option<string>> {
    if s == [] then [] else FixKinds(s[..|s| - 1]) + [s[|s| - 1].fixKind]
  }

  ghost predicate OneOrigin(s: seq<Warning>) { forall i, j :: 0 <= i < j < |s| ==> s[i].origin == s[j].origin }

  ghost predicate SomeAutoFix(s: seq<Warning>) { exists i :: 0 <= i < |s| && s[i].autoFixAvailable == Some(true) }

  /** What the union says of an id: place and text of the first record, the common origin or
      "merged", the first suggestion and kind given, and a fix where any record has one. */
  ghost predicate Unites(w: Warning, s: seq<Warning>) {
    && s != [] && w.displayPath == s[0].displayPath && w.line == s[0].line && w.rest == s[0].rest
    && w.origin == (if OneOrigin(s) then s[0].origin else Merged)
    && IsFirstGiven(w.fixSuggestion, Suggestions(s)) && IsFirstGiven(w.fixKind, FixKinds(s))
    && (w.autoFixAvailable == Some(true) <==> SomeAutoFix(s))
  }

  lemma FirstGivenSnoc(o: Option<string>, options: seq<Option<string>>, next: Option<string>)
    requires IsFirstGiven(o, options)
    ensures IsFirstGiven(FirstDefined(o, next), options + [next])
  {
    var all := options + [next];
    assert all[|options|] == next;
    if o.Some? {
      var i :| 0 <= i < |options| && options[i] == o && forall j :: 0 <= j < i ==> options[j].None?;
      assert all[i] == o;
    }
  }

  lemma OnlyGiven(o: Option<string>)
    ensures IsFirstGiven(o, [o])
  {
    var options := [o];
    assert options[0] == o;
  }

  lemma UnitesFirst(w: Warning)
    ensures Unites(w, [w])
  {
    hide IsFirstGiven;
    var s := [w];
    assert s[..0] == [] && Suggestions([]) == [] && FixKinds([]) == [];
    assert Suggestions(s) == [w.fixSuggestion] && FixKinds(s) == [w.fixKind];
    OnlyGiven(w.fixSuggestion);
    OnlyGiven(w.fixKind);
    assert SomeAutoFix(s) <==> s[0].autoFixAvailable == Some(true);
    assert OneOrigin(s);
  }

  lemma UnitesSnoc(w: Warning, s: seq<Warning>, r: Warning)
    requires Unites(w, s)
    ensures Unites(Absorb(w, r), s + [r])
  {
    hide IsFirstGiven, AddActions;
    var all := s + [r];
    assert all[..|s|] == s && all[|s|] == r && all[0] == s[0];
    FirstGivenSnoc(w.fixSuggestion, Suggestions(s), r.fixSuggestion);
    FirstGivenSnoc(w.fixKind, FixKinds(s), r.fixKind);
    assert OneOrigin(all) <==> OneOrigin(s) && s[0].origin == r.origin by { OriginSnoc(s, r); }
    if SomeAutoFix(s) {
      var i :| 0 <= i < |s| && s[i].autoFixAvailable == Some(true);
      assert all[i] == s[i];
    }
  }

  lemma OriginSnoc(s: seq<Warning>, r: Warning)
    requires s != []
    ensures OneOrigin(s + [r]) <==> OneOrigin(s) && s[0].origin == r.origin
  {
    var all := s + [r];
    assert all[|s|] == r && forall i :: 0 <= i < |s| ==> all[i] == s[i];
  }

  /** The gathered record unites exactly the records with its id. */
  lemma {:induction false} GatherUnites(records: seq<Warning>, id: string)
    ensures Gather(records, id).Some? <==> Alike(records, id) != []
    ensures Gather(records, id).Some? ==> Unites(Gather(records, id).value, Alike(records, id))
  {
    hide Unites, Absorb;
    if records == [] {
    } else {
      var front, last := records[..|records| - 1], records[|records| - 1];
      GatherUnites(front, id);
      assert Alike(front, id) + [] == Alike(front, id);
      if last.id == id {
        if Gather(front, id).Some? {
          UnitesSnoc(Gather(front, id).value, Alike(front, id), last);
        } else {
          UnitesFirst(last);
          assert Alike(records, id) == [last];
        }
      }
    }
  }

  // ---- merging again changes nothing ---------------------------------------------

  lemma {:induction false} DistinctPassThrough(records: seq<Warning>)
    requires forall i, j :: 0 <= i < j < |records| ==> records[i].id != records[j].id
    ensures Values(ById(records)) == records
  {
    if records == [] {
    } else {
      var front, last := records[..|records| - 1], records[|records| - 1];
      DistinctPassThrough(front);
      GatherIffHasId(front, last.id);
      ByIdGathers(front, last.id);
      PutNew(ById(front), last.id, last);
      var m := ById(records);
      assert m == ById(front) + [(last.id, last)] && m[..|m| - 1] == ById(front);
      assert records == front + [last];
    }
  }

  /** The union is idempotent. */
  lemma MergeIdempotent(records: seq<Warning>, pathLe: (string, string) -> bool)
    requires TotalPreorder(ByPlace(pathLe))
    ensures Merge(Merge(records, pathLe), pathLe) == Merge(records, pathLe)
  {
    MergeIsSortedSet(records, pathLe);
    DistinctPassThrough(Merge(records, pathLe));
    SortedIsFixed(Merge(records, pathLe), ByPlace(pathLe));
  }

  /** The comparator is consistent whenever the collation is. */
  lemma ByPlaceIsPreorder(pathLe: (string, string) -> bool)
    requires TotalPreorder(pathLe)
    ensures TotalPreorder(ByPlace(pathLe))
  {
    var le := ByPlace(pathLe);
    forall x: Warning, y: Warning ensures le(x, y) || le(y, x) {
      assert pathLe(x.displayPath, y.displayPath) || pathLe(y.displayPath, x.displayPath);
    }
    forall x: Warning, y: Warning, z: Warning | le(x, y) && le(y, z) ensures le(x, z) {
      PlaceTransitive(pathLe, x, y, z);
    }
  }

  lemma PlaceTransitive(pathLe: (string, string) -> bool, x: Warning, y: Warning, z: Warning)
    requires TotalPreorder(pathLe) && ByPlace(pathLe)(x, y) && ByPlace(pathLe)(y, z)
    ensures ByPlace(pathLe)(x, z)
  {
    var a, b, c := x.displayPath, y.displayPath, z.displayPath;
    assert pathLe(a, c);
    if pathLe(c, a) {
      assert pathLe(c, b) && pathLe(b, a);
    }
  }
}
