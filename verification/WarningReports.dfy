/** Two publishers, one persisted report (clients/actionable-warnings.ts:1502-1742): an in-band
    publish at each turn end and a deferred publish that lands whenever it is done. */
module WarningReports {
  import opened JsMap
  import opened Sorting
  import opened WarningRecords

  /** One file's entry; `deferred` is the marker a deferred publish leaves on it. */
  datatype FileEntry = FileEntry(
    filePath: string, displayPath: string, fileSeq: Option<int>, generatedAt: Option<string>,
    reVerified: bool, reVerifyIncomplete: bool, deferred: bool, warnings: seq<Warning>)

  datatype Report = Report(
    generatedAt: Option<string>, sessionId: Option<string>, turnIndex: int,
    projectSeqStart: Option<int>, projectSeqEnd: Option<int>, deltaOnly: bool, includeLspCodeActions: bool,
    files: seq<FileEntry>)

  /** Path normalisation, `Date.parse` (None where it is not finite) and path collation. */
  datatype World = World(normalize: string -> string, parse: string -> Option<real>, pathLe: (string, string) -> bool)

  /** One call of the publisher; `seqOf` is the live per-file sequence, where there is a runtime to ask. */
  datatype Publish = Publish(report: Report, deferred: bool, seqOf: Option<string -> int>)

  ghost predicate Collates(w: World) { TotalPreorder(w.pathLe) }

  // ---- stamps --------------------------------------------------------------------

  function OlderStamp(w: World, a: Option<string>, b: Option<string>): Option<string> {
    if a.None? then b
    else if b.None? then a
    else
      var at, bt := w.parse(a.value), w.parse(b.value);
      if at.None? then b else if bt.None? then a else if at.value <= bt.value then a else b
  }

  function NewerStamp(w: World, a: Option<string>, b: Option<string>): Option<string> {
    if a.None? then b else if b.None? then a else if OlderStamp(w, a, b) == a then b else a
  }

  function MinDefined(a: Option<int>, b: Option<int>): Option<int> {
    if a.None? then b else if b.None? then a else if a.value <= b.value then a else b
  }

  function MaxDefined(a: Option<int>, b: Option<int>): Option<int> {
    if a.None? then b else if b.None? then a else if a.value >= b.value then a else b
  }

  /** The older stamp is one of the two and, where both can be read, not after either. */
  lemma OlderStampIsOlder(w: World, a: Option<string>, b: Option<string>)
    ensures OlderStamp(w, a, b) == a || OlderStamp(w, a, b) == b
    ensures OlderStamp(w, a, b).None? <==> a.None? && b.None?
    ensures a.Some? && b.Some? && w.parse(a.value).Some? && w.parse(b.value).Some? ==>
              var c := w.parse(OlderStamp(w, a, b).value);
              c.Some? && c.value <= w.parse(a.value).value && c.value <= w.parse(b.value).value
  {}

  // ---- one older entry -----------------------------------------------------------

  /** What is fixed while the older half is folded in. */
  datatype Side = Side(
    w: World, deferred: bool, seqOf: Option<string -> int>, sessionMismatch: bool,
    newerAt: Option<string>, olderAt: Option<string>)

  predicate Stale(side: Side, incumbent: Option<FileEntry>, entry: FileEntry) {
    var baseline: Option<int> :=
      if side.seqOf.Some? then Some(side.seqOf.value(entry.filePath))
      else if incumbent.Some? then incumbent.value.fileSeq else None;
    if !side.deferred && side.seqOf.Some? then
      side.sessionMismatch || (entry.fileSeq.Some? && baseline != entry.fileSeq)
    else baseline.Some? && entry.fileSeq.Some? && baseline.value > entry.fileSeq.value
  }

  predicate Supersedes(e: FileEntry) { e.reVerified || e.reVerifyIncomplete }

  function Blend(side: Side, incumbent: Option<FileEntry>, entry: FileEntry): FileEntry {
    if incumbent.None? then entry.(deferred := side.deferred)
    else
      var i := incumbent.value;
      i.(fileSeq := FirstDefined(i.fileSeq, entry.fileSeq),
         generatedAt := OlderStamp(side.w, FirstDefined(i.generatedAt, side.newerAt),
           FirstDefined(entry.generatedAt, side.olderAt)),
         warnings := if Supersedes(i) then i.warnings else Merge(i.warnings + entry.warnings, side.w.pathLe),
         deferred := side.deferred)
  }

  /** The scope guard: an in-band publish only carries entries a deferral marked. */
  predicate Eligible(side: Side, entry: FileEntry) { side.deferred || entry.deferred }

  datatype Fold = Fold(byPath: Entries<string, FileEntry>, merged: nat, dropped: seq<string>, guarded: nat)

  function Label(e: FileEntry): string { if e.displayPath != "" then e.displayPath else e.filePath }

  function FoldOne(side: Side, f: Fold, entry: FileEntry): Fold {
    var key := side.w.normalize(entry.filePath);
    var incumbent := Get(f.byPath, key);
    if !Eligible(side, entry) then f.(guarded := f.guarded + 1)
    else if Stale(side, incumbent, entry) then f.(dropped := f.dropped + [Label(entry)])
    else f.(merged := f.merged + 1, byPath := Put(f.byPath, key, Blend(side, incumbent, entry)))
  }

  function FoldAll(side: Side, seed: Entries<string, FileEntry>, older: seq<FileEntry>): Fold {
    if older == [] then Fold(seed, 0, [], 0)
    else FoldOne(side, FoldAll(side, seed, older[..|older| - 1]), older[|older| - 1])
  }

  /** The newer half by normalised path; a later entry replaces an earlier one. */
  function Seed(w: World, newer: seq<FileEntry>): Entries<string, FileEntry> {
    if newer == [] then []
    else
      var last := newer[|newer| - 1];
      Put(Seed(w, newer[..|newer| - 1]), w.normalize(last.filePath), last)
  }

  // ---- one publish ---------------------------------------------------------------

  function FilesOf(r: Option<Report>): seq<FileEntry> { if r.Some? then r.value.files else [] }
  function StampOf(r: Option<Report>): Option<string> { if r.Some? then r.value.generatedAt else None }

  function SideOf(w: World, persisted: Option<Report>, p: Publish): Side {
    var incoming := Some(p.report);
    Side(w, p.deferred, p.seqOf,
         !p.deferred && persisted.Some? && persisted.value.sessionId.Some?
           && persisted.value.sessionId != p.report.sessionId,
         StampOf(if p.deferred then persisted else incoming), StampOf(if p.deferred then incoming else persisted))
  }

  function NewerHalf(persisted: Option<Report>, p: Publish): seq<FileEntry> {
    if p.deferred then FilesOf(persisted) else p.report.files
  }

  function OlderHalf(persisted: Option<Report>, p: Publish): seq<FileEntry> {
    if p.deferred then p.report.files else FilesOf(persisted)
  }

  function FoldOf(w: World, persisted: Option<Report>, p: Publish): Fold {
    FoldAll(SideOf(w, persisted, p), Seed(w, NewerHalf(persisted, p)), OlderHalf(persisted, p))
  }

  datatype Outcome = Outcome(report: Report, mergedFiles: nat, droppedFiles: seq<string>,
    droppedForSessionMismatch: bool)

  function Resolve(w: World, persisted: Option<Report>, p: Publish): Outcome {
    var f, incoming := FoldOf(w, persisted, p), p.report;
    var files := Values(f.byPath);
    if !p.deferred then
      Outcome(incoming.(files := files), f.merged, f.dropped, SideOf(w, persisted, p).sessionMismatch
        && f.dropped != [])
    else
      var base := if persisted.Some? then persisted.value else incoming;
      var start := if persisted.Some? then persisted.value.projectSeqStart else None;
      var end := if persisted.Some? then persisted.value.projectSeqEnd else None;
      Outcome(
        base.(generatedAt := FirstDefined(NewerStamp(w, StampOf(persisted), incoming.generatedAt), base.generatedAt),
              turnIndex := if base.turnIndex >= incoming.turnIndex then base.turnIndex else incoming.turnIndex,
              projectSeqStart := MinDefined(start, incoming.projectSeqStart),
              projectSeqEnd := MaxDefined(end, incoming.projectSeqEnd),
              includeLspCodeActions := base.includeLspCodeActions || incoming.includeLspCodeActions,
              files := files),
        f.merged, f.dropped, false)
  }

  // ---- the program ---------------------------------------------------------------

  /** The record written for an older entry that is not stale. */
  method BlendEntry(side: Side, incumbent: Option<FileEntry>, entry: FileEntry) returns (merged: FileEntry)
    ensures merged == Blend(side, incumbent, entry)
  {
    if incumbent.None? {
      merged := entry;
    } else {
      var i := incumbent.value;
      var stamp := OlderStamp(side.w, FirstDefined(i.generatedAt, side.newerAt),
                   FirstDefined(entry.generatedAt, side.olderAt));
      merged := i.(fileSeq := FirstDefined(i.fileSeq, entry.fileSeq), generatedAt := stamp);
      if !(i.reVerified || i.reVerifyIncomplete) {
        var warnings := MergeWarnings(i.warnings + entry.warnings, side.w.pathLe);
        merged := merged.(warnings := warnings);
      }
    }
    merged := merged.(deferred := side.deferred);
  }

  method MergeActionableWarningsReports(w: World, persisted: Option<Report>, p: Publish) returns (o: Outcome)
    ensures o == Resolve(w, persisted, p)
  {
    var side := SideOf(w, persisted, p);
    var newerHalf, olderHalf := NewerHalf(persisted, p), OlderHalf(persisted, p);
    var byPath: Entries<string, FileEntry> := [];
    for i := 0 to |newerHalf|
      invariant byPath == Seed(w, newerHalf[..i])
    {
      TakeSnoc(newerHalf, i);
      byPath := Put(byPath, w.normalize(newerHalf[i].filePath), newerHalf[i]);
    }
    assert newerHalf[..|newerHalf|] == newerHalf;
    ghost var seed := byPath;
    var droppedFiles: seq<string>, mergedFiles := [], 0;
    ghost var guarded := 0;
    for i := 0 to |olderHalf|
      invariant Fold(byPath, mergedFiles, droppedFiles, guarded) == FoldAll(side, seed, olderHalf[..i])
    {
      TakeSnoc(olderHalf, i);
      var entry := olderHalf[i];
      if !p.deferred && !entry.deferred {
        guarded := guarded + 1;
        continue;
      }
      var key := w.normalize(entry.filePath);
      var incumbent := Get(byPath, key);
      if Stale(side, incumbent, entry) {
        droppedFiles := droppedFiles + [Label(entry)];
        continue;
      }
      mergedFiles := mergedFiles + 1;
      var merged := BlendEntry(side, incumbent, entry);
      byPath := Put(byPath, key, merged);
    }
    assert olderHalf[..|olderHalf|] == olderHalf;
    var files := Values(byPath);
    var incoming := p.report;
    if !p.deferred {
      return Outcome(incoming.(files := files), mergedFiles, droppedFiles, side.sessionMismatch && |droppedFiles| > 0);
    }
    var base := if persisted.Some? then persisted.value else incoming;
    o := Outcome(
      base.(generatedAt := FirstDefined(NewerStamp(w, StampOf(persisted), incoming.generatedAt), base.generatedAt),
            turnIndex := if base.turnIndex >= incoming.turnIndex then base.turnIndex else incoming.turnIndex,
            projectSeqStart := MinDefined(if persisted.Some? then persisted.value.projectSeqStart
              else None, incoming.projectSeqStart),
            projectSeqEnd := MaxDefined(if persisted.Some? then persisted.value.projectSeqEnd
              else None, incoming.projectSeqEnd),
            includeLspCodeActions := base.includeLspCodeActions || incoming.includeLspCodeActions,
            files := files),
      mergedFiles, droppedFiles, false);
  }

  /** The cache key both publishers write. */
  class Channel {
    var persisted: Option<Report>

    constructor ()
      ensures persisted == None
    {
      persisted := None;
    }

    /** Read, merge, write: one synchronous block. */
    method PublishReport(w: World, p: Publish) returns (o: Outcome)
      modifies this
      ensures o == Resolve(w, old(persisted), p) && persisted == Some(o.report)
    {
      o := MergeActionableWarningsReports(w, persisted, p);
      persisted := Some(o.report);
    }
  }

  // ---- one path at a time --------------------------------------------------------

  /** The older half folded into one path's entry. */
  function FoldAt(side: Side, incumbent: Option<FileEntry>, older: seq<FileEntry>, key: string): Option<FileEntry> {
    if older == [] then incumbent
    else
      var before, last := FoldAt(side, incumbent, older[..|older| - 1], key), older[|older| - 1];
      if side.w.normalize(last.filePath) != key || !Eligible(side, last) || Stale(side, before, last) then before
      else Some(Blend(side, before, last))
  }

  /** Paths do not interfere. */
  lemma {:induction false} FoldIsPerPath(side: Side, seed: Entries<string, FileEntry>, older: seq<FileEntry>,
                                         key: string)
    ensures Get(FoldAll(side, seed, older).byPath, key) == FoldAt(side, Get(seed, key), older, key)
  {
    hide Stale, Blend;
    if older == [] {
    } else {
      var front, last := older[..|older| - 1], older[|older| - 1];
      FoldIsPerPath(side, seed, front, key);
      var f := FoldAll(side, seed, front);
      var k := side.w.normalize(last.filePath);
      PutGet(f.byPath, k, Blend(side, Get(f.byPath, k), last), key);
    }
  }

  /** Every older entry is merged, dropped or guarded, exactly once. */
  lemma {:induction false} OlderAccountedFor(side: Side, seed: Entries<string, FileEntry>, older: seq<FileEntry>)
    ensures var f := FoldAll(side, seed, older); |older| == f.merged + |f.dropped| + f.guarded
    ensures side.deferred ==> FoldAll(side, seed, older).guarded == 0
  {
    hide Stale, Blend;
    if older == [] {
    } else {
      OlderAccountedFor(side, seed, older[..|older| - 1]);
    }
  }

  // ---- entries are keyed by their normalised paths -------------------------------

  ghost predicate Keyed(w: World, m: Entries<string, FileEntry>) {
    Unique(m) && forall i :: 0 <= i < |m| ==> m[i].0 == w.normalize(m[i].1.filePath)
  }

  /** The entry of one path in a list of entries. */
  function EntryAt(w: World, files: seq<FileEntry>, key: string): Option<FileEntry> {
    if files == [] then None
    else
      var last := files[|files| - 1];
      if w.normalize(last.filePath) == key then Some(last) else EntryAt(w, files[..|files| - 1], key)
  }

  lemma {:induction false} SeedIsEntryAt(w: World, newer: seq<FileEntry>, key: string)
    ensures Get(Seed(w, newer), key) == EntryAt(w, newer, key)
  {
    if newer == [] {
    } else {
      var front, last := newer[..|newer| - 1], newer[|newer| - 1];
      SeedIsEntryAt(w, front, key);
      PutGet(Seed(w, front), w.normalize(last.filePath), last, key);
    }
  }

  lemma PutKeyed(w: World, m: Entries<string, FileEntry>, key: string, e: FileEntry)
    requires Keyed(w, m) && w.normalize(e.filePath) == key
    ensures Keyed(w, Put(m, key, e))
  {
    PutShape(m, key, e);
    if Get(m, key).Some? { var i := PutFirst(m, key, e); } else { PutNew(m, key, e); }
  }

  lemma {:induction false} SeedKeyed(w: World, newer: seq<FileEntry>)
    ensures Keyed(w, Seed(w, newer))
  {
    if newer == [] {
    } else {
      SeedKeyed(w, newer[..|newer| - 1]);
      var last := newer[|newer| - 1];
      PutKeyed(w, Seed(w, newer[..|newer| - 1]), w.normalize(last.filePath), last);
    }
  }

  lemma BlendKeepsPath(side: Side, incumbent: Option<FileEntry>, entry: FileEntry)
    ensures Blend(side, incumbent, entry).filePath == if incumbent.Some? then incumbent.value.filePath
            else entry.filePath
    ensures Blend(side, incumbent, entry).deferred == side.deferred
  {}

  lemma {:induction false} FoldKeyed(side: Side, seed: Entries<string, FileEntry>, older: seq<FileEntry>)
    requires Keyed(side.w, seed)
    ensures Keyed(side.w, FoldAll(side, seed, older).byPath)
  {
    hide Stale, Blend;
    if older == [] {
    } else {
      var last := older[|older| - 1];
      var f := FoldAll(side, seed, older[..|older| - 1]);
      FoldKeyed(side, seed, older[..|older| - 1]);
      var key := side.w.normalize(last.filePath);
      var incumbent := Get(f.byPath, key);
      BlendKeepsPath(side, incumbent, last);
      if incumbent.Some? { var i := GetIndex(f.byPath, key); }
      PutKeyed(side.w, f.byPath, key, Blend(side, incumbent, last));
    }
  }

  lemma {:induction false} KeyedEntryAt(w: World, m: Entries<string, FileEntry>, key: string)
    requires Keyed(w, m)
    ensures EntryAt(w, Values(m), key) == Get(m, key)
  {
    if m == [] { return; }
    var front, last := m[..|m| - 1], m[|m| - 1];
    assert m == front + [last];
    assert Values(m)[..|m| - 1] == Values(front);
    KeyedEntryAt(w, front, key);
    GetAppend(front, [last], key);
    if last.0 == key {
      HasIsGet(front, key);
      assert Get([last], key) == Some(last.1);
    }
  }

  /** Distinct paths, as every published report has them. */
  ghost predicate DistinctPaths(w: World, files: seq<FileEntry>) {
    forall i, j :: 0 <= i < j < |files| ==> w.normalize(files[i].filePath) != w.normalize(files[j].filePath)
  }

  /** What a publish leaves at each path. */
  lemma PublishedEntry(w: World, persisted: Option<Report>, p: Publish, key: string)
    ensures var r := Resolve(w, persisted, p).report;
            && DistinctPaths(w, r.files)
            && EntryAt(w, r.files, key)
               == FoldAt(SideOf(w, persisted, p), EntryAt(w, NewerHalf(persisted, p), key), OlderHalf(persisted, p),
                 key)
  {
    hide FoldAll, Seed, FoldAt, EntryAt;
    var side, seed, older := SideOf(w, persisted, p), Seed(w, NewerHalf(persisted, p)), OlderHalf(persisted, p);
    SeedKeyed(w, NewerHalf(persisted, p));
    FoldKeyed(side, seed, older);
    FoldIsPerPath(side, seed, older, key);
    SeedIsEntryAt(w, NewerHalf(persisted, p), key);
    KeyedEntryAt(w, FoldAll(side, seed, older).byPath, key);
  }

  // ---- a newer entry only gains --------------------------------------------------

  /** Same file, same identity, at least the same warnings. */
  ghost predicate Gains(before: FileEntry, after: FileEntry) {
    && after.filePath == before.filePath && after.displayPath == before.displayPath
    && after.reVerified == before.reVerified && after.reVerifyIncomplete == before.reVerifyIncomplete
    && (before.fileSeq.Some? ==> after.fileSeq == before.fileSeq)
    && (Supersedes(before) ==> after.warnings == before.warnings)
    && (forall id :: HasId(before.warnings, id) ==> HasId(after.warnings, id))
  }

  lemma BlendGains(side: Side, i: FileEntry, entry: FileEntry)
    requires Collates(side.w)
    ensures Gains(i, Blend(side, Some(i), entry))
    ensures !Supersedes(i) ==>
              forall id :: HasId(Blend(side, Some(i), entry).warnings, id)
                <==> HasId(i.warnings, id) || HasId(entry.warnings, id)
  {
    ByPlaceIsPreorder(side.w.pathLe);
    forall id ensures HasId(Merge(i.warnings + entry.warnings, side.w.pathLe), id)
      <==> HasId(i.warnings, id) || HasId(entry.warnings, id) {
      MergeKeepsIds(i.warnings + entry.warnings, side.w.pathLe, id);
      HasIdAppend(i.warnings, entry.warnings, id);
    }
  }

  lemma GainsTransitive(a: FileEntry, b: FileEntry, c: FileEntry)
    requires Gains(a, b) && Gains(b, c)
    ensures Gains(a, c)
  {}

  lemma {:induction false} FoldGains(side: Side, i: FileEntry, older: seq<FileEntry>, key: string)
    requires Collates(side.w)
    ensures FoldAt(side, Some(i), older, key).Some? && Gains(i, FoldAt(side, Some(i), older, key).value)
  {
    hide Stale, Blend, Gains, TotalPreorder;
    if older == [] {
      GainsItself(i);
    } else {
      var front := older[..|older| - 1];
      FoldGains(side, i, front, key);
      var e := FoldAt(side, Some(i), front, key).value;
      BlendGains(side, e, older[|older| - 1]);
      GainsTransitive(i, e, Blend(side, Some(e), older[|older| - 1]));
    }
  }

  lemma GainsItself(e: FileEntry)
    ensures Gains(e, e)
  {}

  /** Nothing of the newer half is ever replaced: not this turn's own report by what was
      persisted, and not what was persisted by a deferred report. */
  lemma NewerHalfIsKept(w: World, persisted: Option<Report>, p: Publish, key: string)
    requires Collates(w) && EntryAt(w, NewerHalf(persisted, p), key).Some?
    ensures var e := EntryAt(w, Resolve(w, persisted, p).report.files, key);
            e.Some? && Gains(EntryAt(w, NewerHalf(persisted, p), key).value, e.value)
  {
    hide FoldAt, EntryAt, Gains, Resolve, TotalPreorder;
    PublishedEntry(w, persisted, p, key);
    FoldGains(SideOf(w, persisted, p), EntryAt(w, NewerHalf(persisted, p), key).value, OlderHalf(persisted, p), key);
  }

  // ---- this turn's own warnings --------------------------------------------------

  /** Every warning an in-band report brought is in the published entry of its file. */
  ghost predicate OwnPresent(w: World, own: seq<FileEntry>, published: seq<FileEntry>) {
    forall i, id :: 0 <= i < |own| && HasId(own[i].warnings, id) ==>
      IdAt(w, published, w.normalize(own[i].filePath), id)
  }

  predicate IdAt(w: World, files: seq<FileEntry>, key: string, id: string) {
    var e := EntryAt(w, files, key);
    e.Some? && HasId(e.value.warnings, id)
  }

  /** Whatever was persisted and whatever the runtime answers. */
  ghost predicate AlwaysPresent(w: World, own: Report) {
    forall persisted: Option<Report>, seqOf: Option<string -> int> ::
      OwnPresent(w, own.files, Resolve(w, persisted, Publish(own, false, seqOf)).report.files)
  }

  lemma PresentWhenNotShadowed(w: World, persisted: Option<Report>, own: Report, seqOf: Option<string -> int>)
    requires Collates(w) && OwnPresent(w, own.files, own.files)
    ensures OwnPresent(w, own.files, Resolve(w, persisted, Publish(own, false, seqOf)).report.files)
  {
    hide Resolve, EntryAt, HasId, TotalPreorder;
    var p := Publish(own, false, seqOf);
    var published := Resolve(w, persisted, p).report.files;
    forall i, id | 0 <= i < |own.files| && HasId(own.files[i].warnings, id)
      ensures IdAt(w, published, w.normalize(own.files[i].filePath), id)
    {
      var key := w.normalize(own.files[i].filePath);
      assert IdAt(w, own.files, key, id);
      NewerHalfIsKept(w, persisted, p, key);
    }
  }

  lemma AloneIsSeed(w: World, own: Report, key: string)
    ensures EntryAt(w, Resolve(w, None, Publish(own, false, None)).report.files, key) == EntryAt(w, own.files, key)
  {
    hide EntryAt, Resolve;
    PublishedEntry(w, None, Publish(own, false, None), key);
  }

  /** All of an in-band publish's own warnings are present afterwards, in every state, if and
      only if no entry of its report is shadowed by a later entry for the same file that lacks
      one of its warnings. */
  lemma OwnPresentIff(w: World, own: Report)
    requires Collates(w)
    ensures AlwaysPresent(w, own) <==> OwnPresent(w, own.files, own.files)
  {
    hide Resolve, EntryAt, HasId, TotalPreorder;
    if AlwaysPresent(w, own) {
      var published := Resolve(w, None, Publish(own, false, None)).report.files;
      assert OwnPresent(w, own.files, published);
      forall i, id | 0 <= i < |own.files| && HasId(own.files[i].warnings, id)
        ensures IdAt(w, own.files, w.normalize(own.files[i].filePath), id)
      {
        assert IdAt(w, published, w.normalize(own.files[i].filePath), id);
        AloneIsSeed(w, own, w.normalize(own.files[i].filePath));
      }
    }
    if OwnPresent(w, own.files, own.files) {
      forall persisted: Option<Report>, seqOf: Option<string -> int>
        ensures OwnPresent(w, own.files, Resolve(w, persisted, Publish(own, false, seqOf)).report.files)
      {
        PresentWhenNotShadowed(w, persisted, own, seqOf);
      }
    }
  }

  /** Such reports exist: where two spellings of a path normalize alike, a warning that only the
      earlier entry holds is gone after the publish, even with nothing persisted. */
  lemma ShadowedWarningIsLost(w: World, own: Report, earlier: FileEntry, later: FileEntry, id: string)
    requires own.files == [earlier, later] && w.normalize(earlier.filePath) == w.normalize(later.filePath)
    requires HasId(earlier.warnings, id) && !HasId(later.warnings, id)
    ensures !OwnPresent(w, own.files, Resolve(w, None, Publish(own, false, None)).report.files)
  {
    hide Resolve, HasId;
    var key := w.normalize(earlier.filePath);
    AloneIsSeed(w, own, key);
    assert EntryAt(w, own.files, key) == Some(later);
    assert own.files[0] == earlier && !IdAt(w, Resolve(w, None, Publish(own, false, None)).report.files, key, id);
  }

  /** Backslashes become slashes: the first step of path normalization. */
  function Slashed(path: string): (r: string)
    ensures |r| == |path|
    ensures forall i :: 0 <= i < |path| ==> r[i] == if path[i] == '\\' then '/' else path[i]
  {
    if path == "" then "" else Slashed(path[..|path| - 1]) + [if path[|path| - 1] == '\\' then '/'
      else path[|path| - 1]]
  }

  function Unreadable(stamp: string): Option<real> { None }
  function AnyOrder(a: string, b: string): bool { true }

  const NATIVE_WARNING := Warning("w1", "src", Some(1), Dispatch, None, None, None, [], "")
  const SLASHED_WARNING := Warning("w2", "src", Some(2), Lsp, None, None, None, [], "")
  const TWO_SPELLINGS := Report(None, None, 1, None, None, true, true, [
    FileEntry("C:\\a", "a", None, None, false, false, false, [NATIVE_WARNING]),
    FileEntry("C:/a", "a", None, None, false, false, false, [SLASHED_WARNING])])

  /** A concrete one: one file reported once as `C:\a` and once as `C:/a`. */
  lemma TwoSpellingsLoseWarning()
    ensures !AlwaysPresent(World(Slashed, Unreadable, AnyOrder), TWO_SPELLINGS)
  {
    hide Resolve;
    var w := World(Slashed, Unreadable, AnyOrder);
    var earlier, later := TWO_SPELLINGS.files[0], TWO_SPELLINGS.files[1];
    var native, slashed := "C:\\a", "C:/a";
    assert |native| == 4 == |slashed| && native[2] == '\\' && slashed[2] == '/';
    assert Slashed(native) == Slashed(slashed);
    assert earlier.warnings[0].id == "w1" && later.warnings[0].id == "w2" && "w1"[1] != "w2"[1];
    ShadowedWarningIsLost(w, TWO_SPELLINGS, earlier, later, "w1");
    assert !OwnPresent(w, TWO_SPELLINGS.files, Resolve(w, None, Publish(TWO_SPELLINGS, false, None)).report.files);
  }

  lemma {:induction false} EntryAtDistinct(w: World, files: seq<FileEntry>, i: nat)
    requires DistinctPaths(w, files) && i < |files|
    ensures EntryAt(w, files, w.normalize(files[i].filePath)) == Some(files[i])
  {
    if i == |files| - 1 {
    } else {
      var front := files[..|files| - 1];
      EntryAtDistinct(w, front, i);
      assert w.normalize(files[i].filePath) != w.normalize(files[|files| - 1].filePath);
    }
  }

  /** In particular with one entry per file. */
  lemma DistinctIsUnshadowed(w: World, files: seq<FileEntry>)
    requires DistinctPaths(w, files)
    ensures OwnPresent(w, files, files)
  {
    forall i, id | 0 <= i < |files| && HasId(files[i].warnings, id)
      ensures IdAt(w, files, w.normalize(files[i].filePath), id)
    {
      EntryAtDistinct(w, files, i);
    }
  }

  // ---- what an in-band publish carries forward -----------------------------------

  lemma {:induction false} FoldAtDistinct(side: Side, incumbent: Option<FileEntry>, older: seq<FileEntry>, key: string)
    requires DistinctPaths(side.w, older)
    ensures var x := EntryAt(side.w, older, key);
            FoldAt(side, incumbent, older, key)
            == if x.Some? && Eligible(side, x.value) && !Stale(side, incumbent, x.value)
               then Some(Blend(side, incumbent, x.value)) else incumbent
  {
    hide Stale, Blend;
    if older == [] {
    } else {
      var front, last := older[..|older| - 1], older[|older| - 1];
      FoldAtDistinct(side, incumbent, front, key);
      if side.w.normalize(last.filePath) == key {
        if EntryAt(side.w, front, key).Some? {
          EntryAtIsMember(side.w, front, key);
          assert false;
        }
      }
    }
  }

  lemma {:induction false} EntryAtIsMember(w: World, files: seq<FileEntry>, key: string)
    requires EntryAt(w, files, key).Some?
    ensures exists i ::
              0 <= i < |files| && files[i] == EntryAt(w, files, key).value && w.normalize(files[i].filePath) == key
  {
    var last := |files| - 1;
    if w.normalize(files[last].filePath) != key {
      EntryAtIsMember(w, files[..last], key);
      var i :| 0 <= i < last && files[..last][i] == EntryAt(w, files, key).value
        && w.normalize(files[i].filePath) == key;
      assert files[i] == EntryAt(w, files, key).value;
    } else {
      assert files[last] == EntryAt(w, files, key).value;
    }
  }

  /** The persisted entry of this path that the publish takes along. */
  predicate Carries(w: World, persisted: Option<Report>, p: Publish, key: string) {
    var x := EntryAt(w, FilesOf(persisted), key);
    x.Some? && x.value.deferred && !Stale(SideOf(w, persisted, p), EntryAt(w, p.report.files, key), x.value)
  }

  /** After an in-band publish a path holds this turn's entry, joined by the persisted one if
      that is carried; any other path holds a carried entry with its marker spent. */
  lemma InBandEntry(w: World, persisted: Option<Report>, p: Publish, key: string)
    requires !p.deferred && DistinctPaths(w, FilesOf(persisted))
    ensures var own, x := EntryAt(w, p.report.files, key), EntryAt(w, FilesOf(persisted), key);
            EntryAt(w, Resolve(w, persisted, p).report.files, key)
            == if Carries(w, persisted, p, key) then Some(Blend(SideOf(w, persisted, p), own, x.value)) else own
  {
    hide Resolve, FoldAt, EntryAt, Blend, Stale;
    PublishedEntry(w, persisted, p, key);
    FoldAtDistinct(SideOf(w, persisted, p), EntryAt(w, p.report.files, key), FilesOf(persisted), key);
  }

  /** With a runtime to ask, staleness in-band is exactly a session change or a moved file. */
  lemma InBandStaleIff(w: World, persisted: Option<Report>, p: Publish, incumbent: Option<FileEntry>, x: FileEntry)
    requires !p.deferred && p.seqOf.Some?
    ensures Stale(SideOf(w, persisted, p), incumbent, x)
            <==> || (persisted.Some? && persisted.value.sessionId.Some?
                     && persisted.value.sessionId != p.report.sessionId)
                 || (x.fileSeq.Some? && p.seqOf.value(x.filePath) != x.fileSeq.value)
  {}

  // ---- every run of the two publishers -------------------------------------------

  function After(w: World, history: seq<Publish>): Option<Report> {
    if history == [] then None
    else Some(Resolve(w, After(w, history[..|history| - 1]), history[|history| - 1]).report)
  }

  /** Paths a deferred publish merged something into. */
  predicate MergedAt(side: Side, incumbent: Option<FileEntry>, older: seq<FileEntry>, key: string) {
    older != []
    && (var before, last := FoldAt(side, incumbent, older[..|older| - 1], key), older[|older| - 1];
        MergedAt(side, incumbent, older[..|older| - 1], key)
        || (side.w.normalize(last.filePath) == key && Eligible(side, last) && !Stale(side, before, last)))
  }

  predicate DeferredMergeOf(w: World, persisted: Option<Report>, p: Publish, key: string) {
    p.deferred && MergedAt(SideOf(w, persisted, p), EntryAt(w, FilesOf(persisted), key), p.report.files, key)
  }

  /** A deferred publish since the last in-band one merged an entry for this path. */
  predicate MergedSinceInBand(w: World, history: seq<Publish>, key: string) {
    history != []
    && (var front, last := history[..|history| - 1], history[|history| - 1];
        last.deferred && (MergedSinceInBand(w, front, key) || DeferredMergeOf(w, After(w, front), last, key)))
  }

  /** Turn reports are built without markers. */
  ghost predicate InBandUnmarked(history: seq<Publish>) {
    forall i, j :: 0 <= i < |history| && !history[i].deferred && 0 <= j < |history[i].report.files| ==>
      !history[i].report.files[j].deferred
  }

  predicate MarkedAt(w: World, files: seq<FileEntry>, key: string) {
    var e := EntryAt(w, files, key);
    e.Some? && e.value.deferred
  }

  /** A merge always leaves an entry with the publisher's marker; otherwise nothing changes. */
  lemma {:induction false} FoldMarks(side: Side, incumbent: Option<FileEntry>, older: seq<FileEntry>, key: string)
    ensures MergedAt(side, incumbent, older, key) ==>
              FoldAt(side, incumbent, older, key).Some? && FoldAt(side, incumbent, older, key).value.deferred
                == side.deferred
    ensures !MergedAt(side, incumbent, older, key) ==> FoldAt(side, incumbent, older, key) == incumbent
  {
    hide Stale, Blend;
    if older == [] {
    } else {
      var front, last := older[..|older| - 1], older[|older| - 1];
      FoldMarks(side, incumbent, front, key);
      BlendKeepsPath(side, FoldAt(side, incumbent, front, key), last);
    }
  }

  lemma {:induction false} UnmarkedAt(w: World, files: seq<FileEntry>, key: string)
    requires forall j :: 0 <= j < |files| ==> !files[j].deferred
    ensures !MarkedAt(w, files, key)
  {
    if EntryAt(w, files, key).Some? { EntryAtIsMember(w, files, key); }
  }

  lemma StepMarks(w: World, persisted: Option<Report>, p: Publish, key: string)
    requires !p.deferred ==> forall j :: 0 <= j < |p.report.files| ==> !p.report.files[j].deferred
    ensures MarkedAt(w, Resolve(w, persisted, p).report.files, key)
            <==> p.deferred && (MarkedAt(w, FilesOf(persisted), key) || DeferredMergeOf(w, persisted, p, key))
  {
    hide Resolve, FoldAt, EntryAt, MergedAt;
    PublishedEntry(w, persisted, p, key);
    FoldMarks(SideOf(w, persisted, p), EntryAt(w, NewerHalf(persisted, p), key), OlderHalf(persisted, p), key);
    if !p.deferred { UnmarkedAt(w, p.report.files, key); }
  }

  /** Over every run, the marked entries are exactly those some deferred publish merged since
      the previous in-band publish. */
  lemma {:induction false} MarkedIffMerged(w: World, history: seq<Publish>, key: string)
    requires InBandUnmarked(history)
    ensures MarkedAt(w, FilesOf(After(w, history)), key) <==> MergedSinceInBand(w, history, key)
  {
    hide Resolve, DeferredMergeOf;
    if history == [] {
    } else {
      var front, last := history[..|history| - 1], history[|history| - 1];
      MarkedIffMerged(w, front, key);
      StepMarks(w, After(w, front), last, key);
    }
  }

  lemma {:induction false} RunDistinct(w: World, history: seq<Publish>)
    ensures DistinctPaths(w, FilesOf(After(w, history)))
  {
    hide Resolve;
    if history == [] {
    } else {
      PublishedEntry(w, After(w, history[..|history| - 1]), history[|history| - 1], "");
    }
  }

  lemma NothingIn(w: World, key: string)
    ensures EntryAt(w, [], key) == None
  {}

  /** The run property. After any run that ends in an in-band publish: what that publish
      brought for a path is there and has only gained; every other entry was merged by a
      deferred publish since the previous in-band one, is unchanged but for its spent marker,
      and, where there is a runtime to ask, belongs to the same session and to a file that has
      no recorded sequence or has not moved. */
  lemma AfterInBand(w: World, history: seq<Publish>, p: Publish, key: string)
    requires Collates(w) && !p.deferred && InBandUnmarked(history)
    ensures var before := After(w, history);
            var e, own, x := EntryAt(w, FilesOf(After(w, history + [p])), key), EntryAt(w, p.report.files, key),
                             EntryAt(w, FilesOf(before), key);
            && (own.Some? ==> e.Some? && Gains(own.value, e.value))
            && (own.None? && e.Some? ==>
                  && MergedSinceInBand(w, history, key) && x.Some? && e.value == x.value.(deferred := false)
                  && (p.seqOf.Some? ==>
                        && (before.value.sessionId.None? || before.value.sessionId == p.report.sessionId)
                        && (x.value.fileSeq.None? || x.value.fileSeq == Some(p.seqOf.value(x.value.filePath)))))
  {
    hide Resolve, EntryAt, Gains, Stale, MergedSinceInBand, TotalPreorder;
    var before := After(w, history);
    assert (history + [p])[..|history|] == history;
    RunDistinct(w, history);
    InBandEntry(w, before, p, key);
    MarkedIffMerged(w, history, key);
    var own, x := EntryAt(w, p.report.files, key), EntryAt(w, FilesOf(before), key);
    if own.Some? { NewerHalfIsKept(w, before, p, key); }
    if before.None? { NothingIn(w, key); }
    if x.Some? && p.seqOf.Some? { InBandStaleIff(w, before, p, own, x.value); }
  }

  /** What an in-band publish makes of the entry `x` it carries, given its own entry if any:
      the same but for the spent marker, or its own with the carried warnings joined in, unless
      its own was verified again. */
  ghost predicate CarriedOnce(own: Option<FileEntry>, x: FileEntry, e: FileEntry) {
    && !e.deferred
    && (own.None? ==> e == x.(deferred := false))
    && (own.Some? ==> && Gains(own.value, e)
                      && (!Supersedes(own.value) ==> forall id :: HasId(x.warnings, id) ==> HasId(e.warnings, id)))
  }

  /** A deferred entry survives exactly one further in-band publish: the first one that finds
      its file unmoved carries it, alone or joined to an entry of its own, and the next one drops
      it unless that turn reports the file itself. */
  lemma SurvivesExactlyOnce(w: World, persisted: Option<Report>, first: Publish, second: Publish, key: string)
    requires Collates(w) && DistinctPaths(w, FilesOf(persisted)) && MarkedAt(w, FilesOf(persisted), key)
    requires !first.deferred && Carries(w, persisted, first, key)
    requires !second.deferred && EntryAt(w, second.report.files, key).None?
    ensures var once := Resolve(w, persisted, first).report;
            var twice := Resolve(w, Some(once), second).report;
            && EntryAt(w, once.files, key).Some?
            && CarriedOnce(EntryAt(w, first.report.files, key), EntryAt(w, FilesOf(persisted), key).value,
                           EntryAt(w, once.files, key).value)
            && EntryAt(w, twice.files, key) == None
  {
    hide Resolve, EntryAt, Stale, TotalPreorder, Gains, Supersedes, HasId, Blend;
    var own, x := EntryAt(w, first.report.files, key), EntryAt(w, FilesOf(persisted), key).value;
    var side := SideOf(w, persisted, first);
    InBandEntry(w, persisted, first, key);
    PublishedEntry(w, persisted, first, key);
    BlendKeepsPath(side, own, x);
    if own.Some? { BlendGains(side, own.value, x); } else { BlendAlone(side, x); }
    InBandEntry(w, Some(Resolve(w, persisted, first).report), second, key);
  }

  lemma BlendAlone(side: Side, x: FileEntry)
    ensures Blend(side, None, x) == x.(deferred := side.deferred)
  {}

  /** Until then it keeps its marker and its warnings through any number of deferred
      publishes. */
  lemma DeferredPublishKeeps(w: World, persisted: Option<Report>, p: Publish, key: string)
    requires Collates(w) && p.deferred && MarkedAt(w, FilesOf(persisted), key)
    ensures var e := EntryAt(w, Resolve(w, persisted, p).report.files, key);
            e.Some? && e.value.deferred && Gains(EntryAt(w, FilesOf(persisted), key).value, e.value)
  {
    hide Resolve, EntryAt, Gains, MergedAt, TotalPreorder;
    NewerHalfIsKept(w, persisted, p, key);
    StepMarks(w, persisted, p, key);
  }
}
