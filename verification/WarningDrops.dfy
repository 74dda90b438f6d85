/** Which entries a publish drops and what it leaves at each path, read off the recorded and the
    live file sequences (clients/actionable-warnings.ts:1579-1664). */
module WarningDrops {
  import opened JsMap
  import opened Sorting
  import opened WarningRecords
  import opened WarningReports

  /** The entry of the newer half for the same path. */
  function Held(w: World, persisted: Option<Report>, p: Publish, x: FileEntry): Option<FileEntry> {
    EntryAt(w, if p.deferred then FilesOf(persisted) else p.report.files, w.normalize(x.filePath))
  }

  /** The file has moved past the entry, as far as the newer half can tell. */
  predicate PassedByHeld(held: Option<FileEntry>, x: FileEntry) {
    x.fileSeq.Some? && held.Some? && held.value.fileSeq.Some? && held.value.fileSeq.value > x.fileSeq.value
  }

  predicate ForeignSession(persisted: Option<Report>, p: Publish) {
    persisted.Some? && persisted.value.sessionId.Some? && persisted.value.sessionId != p.report.sessionId
  }

  /** The older entry no longer describes its file. A runtime that can be asked knows: a deferred
      publish minds only a file that has moved on, an in-band one any difference and any change
      of session. Without one, only the sequence the newer half recorded counts. */
  predicate Outdated(w: World, persisted: Option<Report>, p: Publish, x: FileEntry) {
    if p.seqOf.None? then PassedByHeld(Held(w, persisted, p, x), x)
    else if p.deferred then x.fileSeq.Some? && p.seqOf.value(x.filePath) > x.fileSeq.value
    else ForeignSession(persisted, p) || (x.fileSeq.Some? && p.seqOf.value(x.filePath) != x.fileSeq.value)
  }

  /** An in-band publish owes nothing to an entry that no deferred publish marked. */
  predicate Considered(p: Publish, x: FileEntry) { p.deferred || x.deferred }

  /** Labels of the dropped entries, in order. */
  function Drops(w: World, persisted: Option<Report>, p: Publish, older: seq<FileEntry>): seq<string> {
    if older == [] then []
    else
      var front, last := Drops(w, persisted, p, older[..|older| - 1]), older[|older| - 1];
      if Considered(p, last) && Outdated(w, persisted, p, last) then front + [Label(last)] else front
  }

  /** How many older entries are kept. */
  function Keeps(w: World, persisted: Option<Report>, p: Publish, older: seq<FileEntry>): nat {
    if older == [] then 0
    else
      Keeps(w, persisted, p, older[..|older| - 1])
      + if Considered(p, older[|older| - 1]) && !Outdated(w, persisted, p, older[|older| - 1]) then 1 else 0
  }

  lemma StaleIsOutdated(w: World, persisted: Option<Report>, p: Publish, x: FileEntry)
    ensures Stale(SideOf(w, persisted, p), Held(w, persisted, p, x), x) <==> Outdated(w, persisted, p, x)
    ensures Eligible(SideOf(w, persisted, p), x) <==> Considered(p, x)
  {}

  /** Entries of other paths do not get in the way. */
  lemma {:induction false} NotFolded(side: Side, seed: Entries<string, FileEntry>, older: seq<FileEntry>, key: string)
    requires forall i :: 0 <= i < |older| ==> side.w.normalize(older[i].filePath) != key
    ensures Get(FoldAll(side, seed, older).byPath, key) == Get(seed, key)
  {
    hide Stale, Blend;
    if older == [] {
    } else {
      var front, last := older[..|older| - 1], older[|older| - 1];
      NotFolded(side, seed, front, key);
      var f := FoldAll(side, seed, front);
      var k := side.w.normalize(last.filePath);
      PutGet(f.byPath, k, Blend(side, Get(f.byPath, k), last), key);
    }
  }

  lemma {:induction false} FoldDrops(w: World, persisted: Option<Report>, p: Publish, older: seq<FileEntry>, f: Fold)
    requires DistinctPaths(w, older)
    requires f == FoldAll(SideOf(w, persisted, p), Seed(w, NewerHalf(persisted, p)), older)
    ensures f.dropped == Drops(w, persisted, p, older) && f.merged == Keeps(w, persisted, p, older)
  {
    hide Stale, Blend, Outdated, Seed;
    if older == [] {
    } else {
      var side, seed := SideOf(w, persisted, p), Seed(w, NewerHalf(persisted, p));
      var front, last := older[..|older| - 1], older[|older| - 1];
      FoldDrops(w, persisted, p, front, FoldAll(side, seed, front));
      NotFolded(side, seed, front, w.normalize(last.filePath));
      SeedIsEntryAt(w, NewerHalf(persisted, p), w.normalize(last.filePath));
      StaleIsOutdated(w, persisted, p, last);
    }
  }

  /** A publish reports as dropped exactly the considered entries that are outdated, in order,
      and counts the others as merged; with any drop, an in-band publish reports whether the
      session changed. */
  lemma DropsAreOutdated(w: World, persisted: Option<Report>, p: Publish)
    requires DistinctPaths(w, OlderHalf(persisted, p))
    ensures var o, older := Resolve(w, persisted, p), OlderHalf(persisted, p);
            && o.droppedFiles == Drops(w, persisted, p, older) && o.mergedFiles == Keeps(w, persisted, p, older)
            && (o.droppedForSessionMismatch <==>
                  !p.deferred && ForeignSession(persisted, p) && Drops(w, persisted, p, older) != [])
  {
    hide FoldAll, Seed, Drops, Keeps;
    FoldDrops(w, persisted, p, OlderHalf(persisted, p), FoldOf(w, persisted, p));
  }

  /** What joining an older entry to a held one leaves: the held one's identity, the older of
      the two ages, and the warnings of both, unless the held one was verified again. */
  ghost predicate Joined(w: World, held: FileEntry, heldAt: Option<string>, x: FileEntry, xAt: Option<string>,
                         e: FileEntry)
  {
    && Gains(held, e)
    && e.fileSeq == FirstDefined(held.fileSeq, x.fileSeq)
    && e.generatedAt == OlderStamp(w, FirstDefined(held.generatedAt, heldAt), FirstDefined(x.generatedAt, xAt))
    && (held.reVerified || held.reVerifyIncomplete ==> e.warnings == held.warnings)
    && (!held.reVerified && !held.reVerifyIncomplete ==>
          forall id :: HasId(e.warnings, id) <==> HasId(held.warnings, id) || HasId(x.warnings, id))
  }

  lemma BlendJoins(side: Side, held: FileEntry, x: FileEntry)
    requires Collates(side.w)
    ensures Joined(side.w, held, side.newerAt, x, side.olderAt, Blend(side, Some(held), x))
  {
    BlendGains(side, held, x);
  }

  /** What a deferred publish leaves at the path of each of its entries. An outdated entry
      leaves whatever was persisted there; any other leaves a marked entry: itself, or the
      persisted one joined by it. Every other path keeps its persisted entry. */
  lemma DeferredEntry(w: World, persisted: Option<Report>, p: Publish, key: string)
    requires Collates(w) && p.deferred && DistinctPaths(w, p.report.files)
    ensures var e, held, x := EntryAt(w, Resolve(w, persisted, p).report.files, key),
                              EntryAt(w, FilesOf(persisted), key), EntryAt(w, p.report.files, key);
            && (x.None? || Outdated(w, persisted, p, x.value) ==> e == held)
            && (x.Some? && !Outdated(w, persisted, p, x.value) ==>
                  && e.Some? && e.value.deferred
                  && (held.None? ==> e.value == x.value.(deferred := true))
                  && (held.Some? ==>
                        Joined(w, held.value, StampOf(persisted), x.value, p.report.generatedAt, e.value)))
  {
    hide Resolve, FoldAt, EntryAt, Blend, Stale, Outdated, TotalPreorder, Joined;
    var side := SideOf(w, persisted, p);
    var held, x := EntryAt(w, FilesOf(persisted), key), EntryAt(w, p.report.files, key);
    PublishedEntry(w, persisted, p, key);
    FoldAtDistinct(side, held, p.report.files, key);
    if x.Some? {
      EntryAtIsMember(w, p.report.files, key);
      StaleIsOutdated(w, persisted, p, x.value);
      BlendKeepsPath(side, held, x.value);
      if held.Some? { BlendJoins(side, held.value, x.value); } else { BlendAlone(side, x.value); }
    }
  }

  /** What an in-band publish leaves at a path: its own entry, joined by a marked persisted entry
      that is not outdated; such an entry alone, its marker spent; or nothing. */
  lemma InBandLeaves(w: World, persisted: Option<Report>, p: Publish, key: string)
    requires Collates(w) && !p.deferred && DistinctPaths(w, FilesOf(persisted))
    ensures var e, own, x := EntryAt(w, Resolve(w, persisted, p).report.files, key),
                             EntryAt(w, p.report.files, key), EntryAt(w, FilesOf(persisted), key);
            && (x.None? || !x.value.deferred || Outdated(w, persisted, p, x.value) ==> e == own)
            && (x.Some? && x.value.deferred && !Outdated(w, persisted, p, x.value) ==>
                  && e.Some? && !e.value.deferred
                  && (own.None? ==> e.value == x.value.(deferred := false))
                  && (own.Some? ==>
                        Joined(w, own.value, p.report.generatedAt, x.value, StampOf(persisted), e.value)))
  {
    hide Resolve, FoldAt, EntryAt, Blend, Stale, Outdated, TotalPreorder, Joined;
    var side := SideOf(w, persisted, p);
    var own, x := EntryAt(w, p.report.files, key), EntryAt(w, FilesOf(persisted), key);
    InBandEntry(w, persisted, p, key);
    if x.Some? {
      EntryAtIsMember(w, FilesOf(persisted), key);
      StaleIsOutdated(w, persisted, p, x.value);
      BlendKeepsPath(side, own, x.value);
      if own.Some? { BlendJoins(side, own.value, x.value); } else { BlendAlone(side, x.value); }
    }
  }

  // ---- the report around the entries ---------------------------------------------

  ghost predicate IsLeast(a: Option<int>, b: Option<int>, least: Option<int>) {
    && (least == a || least == b)
    && (a.Some? ==> least.Some? && least.value <= a.value) && (b.Some? ==> least.Some? && least.value <= b.value)
  }

  ghost predicate IsGreatest(a: Option<int>, b: Option<int>, greatest: Option<int>) {
    && (greatest == a || greatest == b)
    && (a.Some? ==> greatest.Some? && greatest.value >= a.value)
    && (b.Some? ==> greatest.Some? && greatest.value >= b.value)
  }

  /** An in-band publish puts its own report around the entries. A deferred one keeps the
      persisted report's session, widened to span both windows and stamped with the newer of
      the two ages. */
  lemma ReportSpans(w: World, persisted: Option<Report>, p: Publish)
    ensures var r, own := Resolve(w, persisted, p).report, p.report;
            && (!p.deferred ==> r == own.(files := r.files))
            && (p.deferred && persisted.Some? ==>
                  var was := persisted.value;
                  && r.sessionId == was.sessionId && r.deltaOnly == was.deltaOnly
                  && IsGreatest(Some(was.turnIndex), Some(own.turnIndex), Some(r.turnIndex))
                  && IsLeast(was.projectSeqStart, own.projectSeqStart, r.projectSeqStart)
                  && IsGreatest(was.projectSeqEnd, own.projectSeqEnd, r.projectSeqEnd)
                  && (r.includeLspCodeActions <==> was.includeLspCodeActions || own.includeLspCodeActions))
            && (p.deferred && persisted.None? ==> r == own.(files := r.files))
  {
    hide FoldOf;
  }

  /** The newer of two readable ages. */
  lemma ReportIsNewer(w: World, persisted: Report, p: Publish)
    requires p.deferred && persisted.generatedAt.Some? && p.report.generatedAt.Some?
    requires w.parse(persisted.generatedAt.value).Some? && w.parse(p.report.generatedAt.value).Some?
    ensures var at := Resolve(w, Some(persisted), p).report.generatedAt;
            && at.Some? && w.parse(at.value).Some?
            && w.parse(at.value).value >= w.parse(persisted.generatedAt.value).value
            && w.parse(at.value).value >= w.parse(p.report.generatedAt.value).value
            && (at == persisted.generatedAt || at == p.report.generatedAt)
  {
    hide FoldOf;
  }
}
