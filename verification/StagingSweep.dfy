/** The bounded sweep of orphaned staging files (clients/atomic-write-staging.ts:34-86). */
module StagingSweep {
  import opened JsMap
  import opened StagingNames

  datatype Entry = Entry(name: string, isFile: bool)

  datatype SweepResult = SweepResult(directories: nat, scanned: nat, removed: nat, liveSkipped: nat, truncated: bool)

  /** What the sweep depends on: the listing of each directory that opens, who is alive (dead
      only when certain), and which removals fail. */
  datatype World = World(
    listing: string -> Option<seq<Entry>>, ownPid: nat, isPidAlive: nat -> bool, removalFails: string -> bool,
      maxEntries: int)

  datatype Fate = Ignored | Spared | Reaped | Stuck

  function PathIn(directory: string, name: string): string { directory + "/" + name }

  function FateOf(w: World, directory: string, e: Entry): Fate {
    var pid := StageOwnerPid(e.name);
    if !e.isFile || pid.None? then Ignored
    else if pid.value == w.ownPid || w.isPidAlive(pid.value) then Spared
    else if w.removalFails(PathIn(directory, e.name)) then Stuck
    else Reaped
  }

  /** The entries the cap lets the sweep look at. */
  function Visible(w: World, entries: seq<Entry>): seq<Entry> {
    if |entries| <= w.maxEntries then entries else if w.maxEntries < 0 then [] else entries[..w.maxEntries]
  }

  function Count(w: World, directory: string, entries: seq<Entry>, fate: Fate): nat {
    if entries == [] then 0
    else Count(w, directory, entries[..|entries| - 1], fate)
         + (if FateOf(w, directory, entries[|entries| - 1]) == fate then 1 else 0)
  }

  function ReapedIn(w: World, directory: string, entries: seq<Entry>): set<string> {
    set k | 0 <= k < |entries| && FateOf(w, directory, entries[k]) == Reaped :: PathIn(directory, entries[k].name)
  }

  function OneDirectory(w: World, directory: string, entries: seq<Entry>): SweepResult {
    SweepResult(0, |entries|, Count(w, directory, entries, Reaped), Count(w, directory, entries, Spared), false)
  }

  /** A result after some more entries of one directory. */
  function Tallied(w: World, directory: string, entries: seq<Entry>, result: SweepResult): SweepResult {
    var d := OneDirectory(w, directory, entries);
    result.(scanned := result.scanned + d.scanned, removed := result.removed + d.removed,
            liveSkipped := result.liveSkipped + d.liveSkipped)
  }

  lemma NothingTallied(w: World, directory: string, result: SweepResult)
    ensures Tallied(w, directory, [], result) == result && ReapedIn(w, directory, []) == {}
  {}

  lemma TalliedSnoc(w: World, directory: string, entries: seq<Entry>, e: Entry, result: SweepResult)
    ensures var t, fate := Tallied(w, directory, entries, result), FateOf(w, directory, e);
            Tallied(w, directory, entries + [e], result)
            == t.(scanned := t.scanned + 1, liveSkipped := t.liveSkipped + (if fate == Spared then 1 else 0),
                  removed := t.removed + (if fate == Reaped then 1 else 0))
  {
    assert (entries + [e])[..|entries|] == entries;
  }

  lemma KeepsTruncated(w: World, directory: string, entries: seq<Entry>, result: SweepResult)
    ensures Tallied(w, directory, entries, result).truncated == result.truncated
  {}

  /** `[...new Set(directories)].filter(Boolean)` */
  function UniqueNames(directories: seq<string>): seq<string> {
    if directories == [] then []
    else
      var last, front := directories[|directories| - 1], UniqueNames(directories[..|directories| - 1]);
      if last == "" then front else Add(front, last)
  }

  function Total(w: World, directories: seq<string>): SweepResult {
    if directories == [] then SweepResult(0, 0, 0, 0, false)
    else
      var t, dir := Total(w, directories[..|directories| - 1]), directories[|directories| - 1];
      match w.listing(dir)
      case None => t
      case Some(entries) =>
        var d := OneDirectory(w, dir, Visible(w, entries));
        SweepResult(0, t.scanned + d.scanned, t.removed + d.removed, t.liveSkipped + d.liveSkipped,
                    t.truncated || |entries| >= w.maxEntries)
  }

  function Reapable(w: World, directories: seq<string>): set<string> {
    if directories == [] then {}
    else
      var before, dir := Reapable(w, directories[..|directories| - 1]), directories[|directories| - 1];
      match w.listing(dir)
      case None => before
      case Some(entries) => before + ReapedIn(w, dir, Visible(w, entries))
  }

  class Disk {
    var files: map<string, string>

    /** One directory entry. */
    method SweepEntry(w: World, directory: string, e: Entry) returns (fate: Fate)
      modifies this
      ensures fate == FateOf(w, directory, e)
      ensures files == if fate == Reaped then old(files) - {PathIn(directory, e.name)} else old(files)
    {
      var pid := StageOwnerPid(e.name);
      if !e.isFile || pid.None? { return Ignored; }
      if pid.value == w.ownPid || w.isPidAlive(pid.value) { return Spared; }
      if w.removalFails(PathIn(directory, e.name)) { return Stuck; }
      files := files - {PathIn(directory, e.name)};
      fate := Reaped;
    }

    /** One directory: stops at the end of the listing or at the cap, whichever comes first. */
    method SweepDirectory(w: World, directory: string, entries: seq<Entry>, result: SweepResult)
      returns (r: SweepResult)
      modifies this
      ensures r == Tallied(w, directory, Visible(w, entries), result).(truncated := result.truncated
              || |entries| >= w.maxEntries)
      ensures files == old(files) - ReapedIn(w, directory, Visible(w, entries))
    {
      hide FateOf, ReapedIn, Tallied, StageOwnerPid;
      ghost var before := files;
      NothingTallied(w, directory, result);
      r := result;
      var reachedEntryCap, i := true, 0;
      while i < w.maxEntries
        invariant 0 <= i <= |entries| && (i <= w.maxEntries || i == 0) && reachedEntryCap
        invariant r == Tallied(w, directory, entries[..i], result)
        invariant files == before - ReapedIn(w, directory, entries[..i])
        decreases w.maxEntries - i
      {
        if i == |entries| {
          reachedEntryCap := false;
          break;
        }
        TakeSnoc(entries, i);
        ReapedSnoc(w, directory, entries[..i], entries[i]);
        TalliedSnoc(w, directory, entries[..i], entries[i], result);
        var fate := SweepEntry(w, directory, entries[i]);
        r := r.(scanned := r.scanned + 1);
        if fate == Spared { r := r.(liveSkipped := r.liveSkipped + 1); }
        if fate == Reaped { r := r.(removed := r.removed + 1); }
        i := i + 1;
      }
      assert Visible(w, entries) == entries[..i];
      KeepsTruncated(w, directory, entries[..i], result);
      r := r.(truncated := r.truncated || reachedEntryCap);
    }

    method SweepOwnStagingFiles(directories: seq<string>, w: World) returns (result: SweepResult)
      modifies this
      ensures result == Total(w, UniqueNames(directories)).(directories := |UniqueNames(directories)|)
      ensures files == old(files) - Reapable(w, UniqueNames(directories))
    {
      var unique := UniqueNames(directories);
      result := SweepResult(|unique|, 0, 0, 0, false);
      for i := 0 to |unique|
        invariant result == Total(w, unique[..i]).(directories := |unique|)
        invariant files == old(files) - Reapable(w, unique[..i])
      {
        TakeSnoc(unique, i);
        match w.listing(unique[i]) {
          case None =>
          case Some(entries) =>
            ghost var before := files;
            result := SweepDirectory(w, unique[i], entries, result);
        }
      }
      assert unique[..|unique|] == unique;
    }
  }

  lemma ReapedSnoc(w: World, directory: string, entries: seq<Entry>, e: Entry)
    ensures ReapedIn(w, directory, entries + [e])
            == ReapedIn(w, directory, entries) + (if FateOf(w, directory, e) == Reaped
              then {PathIn(directory, e.name)} else {})
  {
    var all := entries + [e];
    assert all[|entries|] == e && forall k :: 0 <= k < |entries| ==> all[k] == entries[k];
  }

  // ---- what a sweep removes ------------------------------------------------------

  lemma VisiblePrefix(w: World, entries: seq<Entry>)
    ensures Visible(w, entries) <= entries
  {}

  /** Every path removed belongs to a dead process that is not the sweeper, by its name. */
  lemma {:induction false} SweepSparesTheLiving(w: World, directories: seq<string>, path: string)
    returns (directory: string, name: string)
    requires path in Reapable(w, directories)
    ensures directory in directories && path == PathIn(directory, name)
    ensures StageOwnerPid(name).Some? && StageOwnerPid(name).value != w.ownPid
            && !w.isPidAlive(StageOwnerPid(name).value)
    ensures w.listing(directory).Some? && Entry(name, true) in w.listing(directory).value
  {
    var front, last := directories[..|directories| - 1], directories[|directories| - 1];
    if path in Reapable(w, front) {
      directory, name := SweepSparesTheLiving(w, front, path);
    } else {
      var entries := w.listing(last).value;
      var seen := Visible(w, entries);
      VisiblePrefix(w, entries);
      var k :| 0 <= k < |seen| && FateOf(w, last, seen[k]) == Reaped && path == PathIn(last, seen[k].name);
      assert seen[k] == entries[k] && entries[k] == Entry(entries[k].name, true);
      directory, name := last, entries[k].name;
    }
  }

  function Sum(w: World, directories: seq<string>, fate: Fate): nat {
    if directories == [] then 0
    else
      var dir := directories[|directories| - 1];
      Sum(w, directories[..|directories| - 1], fate)
      + (if w.listing(dir).Some? then Count(w, dir, Visible(w, w.listing(dir).value), fate) else 0)
  }

  lemma {:induction false} CountsPartition(w: World, directory: string, entries: seq<Entry>)
    ensures |entries| == Count(w, directory, entries, Ignored) + Count(w, directory, entries, Spared)
                         + Count(w, directory, entries, Reaped) + Count(w, directory, entries, Stuck)
  {
    if entries == [] {
    } else {
      CountsPartition(w, directory, entries[..|entries| - 1]);
    }
  }

  /** Every entry scanned is ignored, spared, removed or stuck, exactly once. */
  lemma {:induction false} SweepAccounts(w: World, directories: seq<string>)
    ensures var t := Total(w, directories);
            && t.removed == Sum(w, directories, Reaped) && t.liveSkipped == Sum(w, directories, Spared)
            && t.scanned == t.removed + t.liveSkipped + Sum(w, directories, Ignored) + Sum(w, directories, Stuck)
  {
    if directories == [] {
    } else {
      var dir := directories[|directories| - 1];
      SweepAccounts(w, directories[..|directories| - 1]);
      if w.listing(dir).Some? { CountsPartition(w, dir, Visible(w, w.listing(dir).value)); }
    }
  }

  /** The sweep looks at this file: it is among the first `maxEntries` of a directory that opens. */
  ghost predicate LooksAt(w: World, directories: seq<string>, directory: string, name: string) {
    && directory in directories && w.listing(directory).Some?
    && exists k :: 0 <= k < |w.listing(directory).value| && k < w.maxEntries
                   && w.listing(directory).value[k] == Entry(name, true)
  }

  /** A staging file of a process that is dead for certain and is not the sweeper. */
  predicate Orphaned(w: World, name: string) {
    var pid := StageOwnerPid(name);
    pid.Some? && pid.value != w.ownPid && !w.isPidAlive(pid.value)
  }

  lemma ReapedHere(w: World, directory: string, entries: seq<Entry>, name: string)
    requires w.listing(directory) == Some(entries) && LooksAt(w, [directory], directory, name) && Orphaned(w, name)
    requires !w.removalFails(PathIn(directory, name))
    ensures PathIn(directory, name) in ReapedIn(w, directory, Visible(w, entries))
  {
    var k :| 0 <= k < |entries| && k < w.maxEntries && entries[k] == Entry(name, true);
    assert Visible(w, entries)[k] == entries[k] && FateOf(w, directory, entries[k]) == Reaped;
  }

  /** What the sweep looks at, finds orphaned and can remove, it removes. */
  lemma {:induction false} SweepReapsOrphans(w: World, directories: seq<string>, directory: string, name: string)
    requires LooksAt(w, directories, directory, name) && Orphaned(w, name)
    requires !w.removalFails(PathIn(directory, name))
    ensures PathIn(directory, name) in Reapable(w, directories)
  {
    hide FateOf, ReapedIn, Visible, Orphaned;
    var front, last := directories[..|directories| - 1], directories[|directories| - 1];
    assert directories == front + [last];
    if last == directory {
      ReapedHere(w, directory, w.listing(directory).value, name);
    } else {
      SweepReapsOrphans(w, front, directory, name);
    }
  }

  /** The result says it was cut short exactly if some directory holds as many entries as are looked
      at, or more. */
  lemma {:induction false} CutShortIff(w: World, directories: seq<string>)
    ensures Total(w, directories).truncated
            <==> exists d :: d in directories && w.listing(d).Some? && |w.listing(d).value| >= w.maxEntries
  {
    hide OneDirectory, Visible;
    if directories == [] {
    } else {
      var front, last := directories[..|directories| - 1], directories[|directories| - 1];
      CutShortIff(w, front);
      assert directories == front + [last];
    }
  }

  /** Every directory that is named is swept once; an empty name is none. */
  lemma {:induction false} SweepsEachOnce(directories: seq<string>)
    ensures Distinct(UniqueNames(directories))
    ensures forall d :: d in UniqueNames(directories) <==> d in directories && d != ""
  {
    if directories == [] {
    } else {
      var front, last := directories[..|directories| - 1], directories[|directories| - 1];
      SweepsEachOnce(front);
      assert directories == front + [last];
    }
  }
}
