/** The touched-file accumulator behind the working-tree nudge (clients/agent-nudge.ts:60-460):
    what a drained batch says about the log of events since the previous drain. */
module AgentNudge {
  import opened JsMap

  datatype Reason = Autofix | Format

  datatype Source = Local | CrossProcess

  datatype Touched = Touched(displayPath: string, reasons: set<Reason>, source: Source, contentDelivered: bool, ts: int)

  /** What reaches the accumulator, path by path. `relevant` is the read guard's answer for a path
      of this process's own bus; other processes' entries arrive already filtered. */
  datatype Event =
    | OwnTouch(path: string, relevant: bool, reason: Reason, at: int)
    | ForeignTouch(path: string, reason: Reason, at: int)
    | Attachment(path: string, attached: bool)

  datatype Tray = Tray(files: Entries<string, Touched>, filtered: nat)

  const EMPTY := Tray([], 0)

  /** What one touch makes of the entry of its path. */
  function TouchedBy(existing: Option<Touched>, path: string, reason: Reason, source: Source, at: int): Touched {
    match existing
    case Some(e) =>
      e.(reasons := e.reasons + {reason}, contentDelivered := false, ts := at,
         source := if source == Local then Local else e.source)
    case None => Touched(path, {reason}, source, false, at)
  }

  function Merge(t: Tray, key: string, path: string, reason: Reason, source: Source, at: int): Tray {
    t.(files := Put(t.files, key, TouchedBy(Get(t.files, key), path, reason, source, at)))
  }

  function Next(normalize: string -> string, t: Tray, e: Event): Tray {
    match e
    case OwnTouch(path, relevant, reason, at) =>
      if !relevant then t.(filtered := t.filtered + 1) else Merge(t, normalize(path), path, reason, Local, at)
    case ForeignTouch(path, reason, at) => Merge(t, normalize(path), path, reason, CrossProcess, at)
    case Attachment(path, attached) =>
      var existing := Get(t.files, normalize(path));
      if existing.None? then t
      else t.(files := Put(t.files, normalize(path), existing.value.(contentDelivered := attached)))
  }

  function Replay(normalize: string -> string, log: seq<Event>): Tray {
    if log == [] then EMPTY else Next(normalize, Replay(normalize, log[..|log| - 1]), log[|log| - 1])
  }

  /** The files a drained batch names. */
  function Undelivered(files: Entries<string, Touched>): seq<Touched> {
    if files == [] then []
    else
      var front, last := Undelivered(files[..|files| - 1]), files[|files| - 1].1;
      if last.contentDelivered then front else front + [last]
  }

  // ---- the program ---------------------------------------------------------------

  datatype Batch = Batch(entries: seq<Touched>, filesFiltered: nat, filesContentDelivered: nat, localCount: nat,
    crossProcessCount: nat)

  function CrossIn(entries: seq<Touched>): nat {
    if entries == [] then 0
    else CrossIn(entries[..|entries| - 1]) + (if entries[|entries| - 1].source == CrossProcess then 1 else 0)
  }

  class Accumulator {
    const normalize: string -> string
    const enabled: bool
    var touched: Entries<string, Touched>
    var relevanceFilteredCount: nat
    /** Accepted events since the last drain. */
    ghost var log: seq<Event>

    ghost predicate Valid()
      reads this
    {
      Tray(touched, relevanceFilteredCount) == Replay(normalize, log)
    }

    constructor (normalize: string -> string, enabled: bool)
      ensures Valid() && log == [] && this.normalize == normalize && this.enabled == enabled
    {
      this.normalize, this.enabled := normalize, enabled;
      touched, relevanceFilteredCount, log := [], 0, [];
    }

    method Touch(path: string, reason: Reason, source: Source, at: int)
      modifies this`touched
      ensures Tray(touched, relevanceFilteredCount)
              == Merge(Tray(old(touched), relevanceFilteredCount), normalize(path), path, reason, source, at)
    {
      var key := normalize(path);
      var existing := Get(touched, key);
      if existing.Some? {
        var e := existing.value;
        e := e.(reasons := e.reasons + {reason});
        if source == Local { e := e.(source := Local); }
        e := e.(contentDelivered := false, ts := at);
        touched := Put(touched, key, e);
      } else {
        touched := Put(touched, key, Touched(path, {reason}, source, false, at));
      }
    }

    method RecordOwn(path: string, relevant: bool, reason: Reason, at: int)
      requires Valid()
      modifies this
      ensures Valid() && log == old(log) + [OwnTouch(path, relevant, reason, at)]
    {
      hide Replay, Merge;
      if !relevant {
        relevanceFilteredCount := relevanceFilteredCount + 1;
      } else {
        Touch(path, reason, Local, at);
      }
      ReplaySnoc(normalize, log, OwnTouch(path, relevant, reason, at));
      log := log + [OwnTouch(path, relevant, reason, at)];
    }

    method RecordForeign(path: string, reason: Reason, at: int)
      requires Valid()
      modifies this
      ensures Valid() && log == old(log) + [ForeignTouch(path, reason, at)]
    {
      hide Replay, Merge;
      Touch(path, reason, CrossProcess, at);
      ReplaySnoc(normalize, log, ForeignTouch(path, reason, at));
      log := log + [ForeignTouch(path, reason, at)];
    }

    /** One bus event: the events it amounts to, one per path; without a read guard, none. */
    method RecordTouchedEvent(paths: seq<string>, reason: Reason, relevant: Option<string -> bool>, at: int)
      requires Valid()
      modifies this
      ensures Valid() && log == old(log) + OwnEvents(if enabled then paths else [], reason, relevant, at)
    {
      hide Valid;
      if !enabled || relevant.None? {
        assert log == old(log) + [];
        return;
      }
      for i := 0 to |paths|
        invariant Valid() && log == old(log) + OwnEvents(paths[..i], reason, relevant, at)
      {
        TakeSnoc(paths, i);
        RecordOwn(paths[i], relevant.value(paths[i]), reason, at);
      }
      assert paths[..|paths|] == paths;
    }

    method RecordCrossProcessTouches(entries: seq<(string, Reason)>, at: int)
      requires Valid()
      modifies this
      ensures Valid() && log == old(log) + ForeignEvents(if enabled then entries else [], at)
    {
      hide Valid;
      if !enabled {
        assert log == old(log) + [];
        return;
      }
      for i := 0 to |entries|
        invariant Valid() && log == old(log) + ForeignEvents(entries[..i], at)
      {
        TakeSnoc(entries, i);
        RecordForeign(entries[i].0, entries[i].1, at);
      }
      assert entries[..|entries|] == entries;
    }

    method NoteAuthoritativeContentAttachment(path: string, attached: bool)
      requires Valid()
      modifies this
      ensures Valid() && log == old(log) + [Attachment(path, attached)]
    {
      hide Replay;
      var key := normalize(path);
      var entry := Get(touched, key);
      if entry.Some? { touched := Put(touched, key, entry.value.(contentDelivered := attached)); }
      ReplaySnoc(normalize, log, Attachment(path, attached));
      log := log + [Attachment(path, attached)];
    }

    /** Drains whatever happens; the batch is what is left to say. */
    method ConsumeAgentNudge() returns (batch: Option<Batch>, injects: bool)
      requires Valid()
      modifies this
      ensures Valid() && log == []
      ensures var tray := Replay(normalize, old(log));
              var entries := Undelivered(tray.files);
              |entries| <= |tray.files| && CrossIn(entries) <= |entries|
              && batch == if !enabled || tray.files == [] then None
                       else Some(Batch(entries, tray.filtered, |tray.files| - |entries|,
                         |entries| - CrossIn(entries), CrossIn(entries)))
      ensures injects <==> batch.Some? && batch.value.entries != []
    {
      hide Replay, Undelivered, CrossIn;
      var drained, filesFiltered := touched, relevanceFilteredCount;
      touched, relevanceFilteredCount, log := [], 0, [];
      NothingReplayed(normalize);
      var entries, cross := Select(drained);
      if !enabled || |drained| == 0 { return None, false; }
      batch := Some(Batch(entries, filesFiltered, |drained| - |entries|, |entries| - cross, cross));
      injects := |entries| > 0;
    }
  }

  lemma NothingReplayed(normalize: string -> string)
    ensures Replay(normalize, []) == Tray([], 0)
  {}

  /** The entries whose content the agent does not already hold. */
  method Select(drained: Entries<string, Touched>) returns (entries: seq<Touched>, cross: nat)
    ensures entries == Undelivered(drained) && |entries| <= |drained|
    ensures cross == CrossIn(entries) && cross <= |entries|
  {
    entries, cross := [], 0;
    for i := 0 to |drained|
      invariant entries == Undelivered(drained[..i]) && cross == CrossIn(entries) && |entries| <= i
    {
      TakeSnoc(drained, i);
      var e := drained[i].1;
      if !e.contentDelivered {
        assert (entries + [e])[..|entries|] == entries;
        entries := entries + [e];
        if e.source == CrossProcess { cross := cross + 1; }
      }
    }
    assert drained[..|drained|] == drained;
    CrossAtMost(entries);
  }

  lemma {:induction false} CrossAtMost(entries: seq<Touched>)
    ensures CrossIn(entries) <= |entries|
  {
    if entries == [] {
    } else {
      CrossAtMost(entries[..|entries| - 1]);
    }
  }

  function OwnEvents(paths: seq<string>, reason: Reason, relevant: Option<string -> bool>, at: int): seq<Event> {
    if paths == [] || relevant.None? then []
    else
      var last := paths[|paths| - 1];
      OwnEvents(paths[..|paths| - 1], reason, relevant, at) + [OwnTouch(last, relevant.value(last), reason, at)]
  }

  function ForeignEvents(entries: seq<(string, Reason)>, at: int): seq<Event> {
    if entries == [] then []
    else ForeignEvents(entries[..|entries| - 1], at) + [ForeignTouch(entries[|entries| - 1].0,
      entries[|entries| - 1].1, at)]
  }

  lemma ReplaySnoc(normalize: string -> string, log: seq<Event>, e: Event)
    ensures Replay(normalize, log + [e]) == Next(normalize, Replay(normalize, log), e)
  {
    assert (log + [e])[..|log|] == log;
  }

  // ---- what the log says about one path ------------------------------------------

  predicate Touches(normalize: string -> string, e: Event, key: string) {
    normalize(e.path) == key && ((e.OwnTouch? && e.relevant) || e.ForeignTouch?)
  }

  predicate Concerns(normalize: string -> string, e: Event, key: string) {
    normalize(e.path) == key && !(e.OwnTouch? && !e.relevant)
  }

  predicate EverTouched(normalize: string -> string, log: seq<Event>, key: string) {
    exists i :: 0 <= i < |log| && Touches(normalize, log[i], key)
  }

  predicate EverOwn(normalize: string -> string, log: seq<Event>, key: string) {
    exists i :: 0 <= i < |log| && Touches(normalize, log[i], key) && log[i].OwnTouch?
  }

  /** The last event that concerns the path delivered its content. */
  predicate LastDelivered(normalize: string -> string, log: seq<Event>, key: string) {
    log != []
    && (var e := log[|log| - 1];
        if Concerns(normalize, e, key) then e == Attachment(e.path, true)
        else LastDelivered(normalize, log[..|log| - 1], key))
  }

  /** The first path string and the time of the last touch. */
  function FirstPath(normalize: string -> string, log: seq<Event>, key: string): Option<string> {
    if log == [] then None
    else
      var before, e := FirstPath(normalize, log[..|log| - 1], key), log[|log| - 1];
      if before.Some? || !Touches(normalize, e, key) then before else Some(e.path)
  }

  function LastTouchAt(normalize: string -> string, log: seq<Event>, key: string): Option<int> {
    if log == [] then None
    else
      var e := log[|log| - 1];
      if Touches(normalize, e, key) then Some(e.at) else LastTouchAt(normalize, log[..|log| - 1], key)
  }

  /** An entry tells the truth about the log. */
  ghost predicate Tells(normalize: string -> string, log: seq<Event>, key: string, e: Option<Touched>) {
    && (e.Some? <==> EverTouched(normalize, log, key))
    && (e.Some? ==>
          && (e.value.source == Local <==> EverOwn(normalize, log, key))
          && (e.value.contentDelivered <==> LastDelivered(normalize, log, key))
          && Some(e.value.displayPath) == FirstPath(normalize, log, key)
          && Some(e.value.ts) == LastTouchAt(normalize, log, key)
          && (forall r :: r in e.value.reasons <==> GivesReason(normalize, log, key, r)))
  }

  predicate GivesReason(normalize: string -> string, log: seq<Event>, key: string, r: Reason) {
    exists i :: 0 <= i < |log| && Touches(normalize, log[i], key) && log[i].reason == r
  }

  lemma EverSnoc(normalize: string -> string, log: seq<Event>, e: Event, key: string)
    ensures EverTouched(normalize, log + [e], key) <==> EverTouched(normalize, log, key) || Touches(normalize, e, key)
    ensures EverOwn(normalize, log + [e], key)
            <==> EverOwn(normalize, log, key) || (Touches(normalize, e, key) && e.OwnTouch?)
  {
    var all := log + [e];
    assert all[|log|] == e;
    if i :| 0 <= i < |log| && Touches(normalize, log[i], key) { assert Touches(normalize, all[i], key); }
    if i :| 0 <= i < |log| && Touches(normalize, log[i], key) && log[i].OwnTouch? { assert all[i] == log[i]; }
  }

  lemma ReasonSnoc(normalize: string -> string, log: seq<Event>, e: Event, key: string, r: Reason)
    ensures GivesReason(normalize, log + [e], key, r)
            <==> GivesReason(normalize, log, key, r) || (Touches(normalize, e, key) && e.reason == r)
  {
    var all := log + [e];
    assert all[|log|] == e;
    if i :| 0 <= i < |log| && Touches(normalize, log[i], key) && log[i].reason == r { assert all[i] == log[i]; }
  }

  lemma FirstPathIff(normalize: string -> string, log: seq<Event>, key: string)
    ensures FirstPath(normalize, log, key).Some? <==> EverTouched(normalize, log, key)
  {
    if log != [] {
      var front, last := log[..|log| - 1], log[|log| - 1];
      FirstPathIff(normalize, front, key);
      assert log == front + [last];
      EverSnoc(normalize, front, last, key);
    }
  }

  /** What one event does to one path's entry. */
  function EntryAfter(normalize: string -> string, before: Option<Touched>, e: Event, key: string): Option<Touched> {
    if Touches(normalize, e, key) then
      if before.Some? then
        Some(before.value.(reasons := before.value.reasons + {e.reason}, contentDelivered := false, ts := e.at,
                           source := if e.OwnTouch? then Local else before.value.source))
      else Some(Touched(e.path, {e.reason}, if e.OwnTouch? then Local else CrossProcess, false, e.at))
    else if e.Attachment? && normalize(e.path) == key && before.Some? then
      Some(before.value.(contentDelivered := e.attached))
    else before
  }

  lemma MergeEntry(t: Tray, k: string, path: string, reason: Reason, source: Source, at: int, key: string)
    ensures Get(Merge(t, k, path, reason, source, at).files, key)
            == if key == k then Some(TouchedBy(Get(t.files, k), path, reason, source, at)) else Get(t.files, key)
  {
    PutGet(t.files, k, TouchedBy(Get(t.files, k), path, reason, source, at), key);
  }

  lemma NextEntry(normalize: string -> string, t: Tray, e: Event, key: string)
    ensures Get(Next(normalize, t, e).files, key) == EntryAfter(normalize, Get(t.files, key), e, key)
  {
    hide Merge;
    var k := normalize(e.path);
    match e {
      case OwnTouch(path, relevant, reason, at) =>
        if relevant { MergeEntry(t, k, path, reason, Local, at, key); }
      case ForeignTouch(path, reason, at) => MergeEntry(t, k, path, reason, CrossProcess, at, key);
      case Attachment(path, attached) =>
        var existing := Get(t.files, k);
        if existing.Some? { PutGet(t.files, k, existing.value.(contentDelivered := attached), key); }
    }
  }

  lemma EntryTells(normalize: string -> string, log: seq<Event>, e: Event, key: string, before: Option<Touched>)
    requires Tells(normalize, log, key, before)
    ensures Tells(normalize, log + [e], key, EntryAfter(normalize, before, e, key))
  {
    hide EverTouched, EverOwn, GivesReason;
    assert (log + [e])[..|log|] == log;
    EverSnoc(normalize, log, e, key);
    FirstPathIff(normalize, log, key);
    var after := EntryAfter(normalize, before, e, key);
    if after.Some? {
      forall r ensures r in after.value.reasons <==> GivesReason(normalize, log + [e], key, r) {
        ReasonSnoc(normalize, log, e, key, r);
        if before.None? { NoReason(normalize, log, key, r); }
      }
    }
    if before.None? { NoOwn(normalize, log, key); }
  }

  lemma NoReason(normalize: string -> string, log: seq<Event>, key: string, r: Reason)
    requires !EverTouched(normalize, log, key)
    ensures !GivesReason(normalize, log, key, r)
  {}

  lemma NoOwn(normalize: string -> string, log: seq<Event>, key: string)
    requires !EverTouched(normalize, log, key)
    ensures !EverOwn(normalize, log, key)
  {}

  /** The accumulator is a replay of the log since the drain: an entry exists iff the path was
      touched, is local iff some touch was this process's own, counts as delivered iff its last
      event was a delivered attachment, shows the path as first spelled, and carries the time of
      the last touch and the reasons of all. */
  lemma {:induction false} TrayTells(normalize: string -> string, log: seq<Event>, key: string)
    ensures Tells(normalize, log, key, Get(Replay(normalize, log).files, key))
  {
    hide Next, Tells, EntryAfter;
    if log == [] {
      NothingTold(normalize, key);
    } else {
      var front, e := log[..|log| - 1], log[|log| - 1];
      TrayTells(normalize, front, key);
      NextEntry(normalize, Replay(normalize, front), e, key);
      EntryTells(normalize, front, e, key, Get(Replay(normalize, front).files, key));
      assert log == front + [e];
    }
  }

  lemma NothingTold(normalize: string -> string, key: string)
    ensures Tells(normalize, [], key, None)
  {}

  /** Own touches that the read guard set aside. */
  function SetAside(log: seq<Event>): nat {
    if log == [] then 0
    else SetAside(log[..|log| - 1]) + if log[|log| - 1].OwnTouch? && !log[|log| - 1].relevant then 1 else 0
  }

  lemma {:induction false} FilteredIsSetAside(normalize: string -> string, log: seq<Event>)
    ensures Replay(normalize, log).filtered == SetAside(log)
  {
    if log == [] {
    } else {
      FilteredIsSetAside(normalize, log[..|log| - 1]);
    }
  }

  // ---- the batch -----------------------------------------------------------------

  /** Every entry sits under the key of its displayed path. */
  ghost predicate Keyed(normalize: string -> string, files: Entries<string, Touched>) {
    Unique(files) && forall i :: 0 <= i < |files| ==> normalize(files[i].1.displayPath) == files[i].0
  }

  lemma PutKeyed(normalize: string -> string, files: Entries<string, Touched>, key: string, e: Touched)
    requires Keyed(normalize, files) && normalize(e.displayPath) == key
    ensures Keyed(normalize, Put(files, key, e))
  {
    PutShape(files, key, e);
    if Get(files, key).Some? { var i := PutFirst(files, key, e); } else { PutNew(files, key, e); }
  }

  lemma {:induction false} ReplayKeyed(normalize: string -> string, log: seq<Event>)
    ensures Keyed(normalize, Replay(normalize, log).files)
  {
    if log == [] {
    } else {
      var t, e := Replay(normalize, log[..|log| - 1]), log[|log| - 1];
      ReplayKeyed(normalize, log[..|log| - 1]);
      NextKeyed(normalize, t, e);
    }
  }

  lemma NextKeyed(normalize: string -> string, t: Tray, e: Event)
    requires Keyed(normalize, t.files)
    ensures Keyed(normalize, Next(normalize, t, e).files)
  {
    var k := normalize(e.path);
    var existing := Get(t.files, k);
    if existing.Some? { var i := GetIndex(t.files, k); }
    NextEntry(normalize, t, e, k);
    var after := Get(Next(normalize, t, e).files, k);
    if after.Some? && (e.ForeignTouch? || (e.OwnTouch? && e.relevant) || (e.Attachment? && existing.Some?)) {
      PutKeyed(normalize, t.files, k, after.value);
      NextPuts(normalize, t, e, after.value);
    }
  }

  lemma NextPuts(normalize: string -> string, t: Tray, e: Event, v: Touched)
    requires e.ForeignTouch? || (e.OwnTouch? && e.relevant) || (e.Attachment? && Get(t.files, normalize(e.path)).Some?)
    requires Get(Next(normalize, t, e).files, normalize(e.path)) == Some(v)
    ensures Next(normalize, t, e).files == Put(t.files, normalize(e.path), v)
  {
    var k := normalize(e.path);
    var existing := Get(t.files, k);
    match e {
      case OwnTouch(path, _, reason, at) =>
        PutGet(t.files, k, TouchedBy(existing, path, reason, Local, at), k);
      case ForeignTouch(path, reason, at) =>
        PutGet(t.files, k, TouchedBy(existing, path, reason, CrossProcess, at), k);
      case Attachment(_, attached) => PutGet(t.files, k, existing.value.(contentDelivered := attached), k);
    }
  }

  lemma {:induction false} UndeliveredIs(files: Entries<string, Touched>, e: Touched)
    ensures e in Undelivered(files) <==> exists i :: 0 <= i < |files| && files[i].1 == e && !e.contentDelivered
  {
    if files == [] {
    } else {
      var front, last := files[..|files| - 1], files[|files| - 1];
      UndeliveredIs(front, e);
      if i :| 0 <= i < |front| && front[i].1 == e && !e.contentDelivered { assert files[i] == front[i]; }
      if i :| 0 <= i < |files| && files[i].1 == e && !e.contentDelivered {
        if i < |front| { assert front[i] == files[i]; }
      }
    }
  }

  predicate Named(normalize: string -> string, batch: seq<Touched>, key: string) {
    exists i :: 0 <= i < |batch| && normalize(batch[i].displayPath) == key
  }

  /** A path is in the batch exactly when some event touched it since the previous drain and
      the last event about it is not a delivered attachment. */
  lemma BatchNamesPath(normalize: string -> string, log: seq<Event>, key: string)
    ensures Named(normalize, Undelivered(Replay(normalize, log).files), key)
            <==> EverTouched(normalize, log, key) && !LastDelivered(normalize, log, key)
  {
    hide Replay, EverTouched, LastDelivered, EverOwn, GivesReason;
    var files := Replay(normalize, log).files;
    var batch := Undelivered(files);
    TrayTells(normalize, log, key);
    ReplayKeyed(normalize, log);
    if i :| 0 <= i < |batch| && normalize(batch[i].displayPath) == key {
      UndeliveredIs(files, batch[i]);
      var j :| 0 <= j < |files| && files[j].1 == batch[i] && !batch[i].contentDelivered;
      GetAt(files, j);
    }
    if Get(files, key).Some? && !Get(files, key).value.contentDelivered {
      var j := GetIndex(files, key);
      UndeliveredIs(files, files[j].1);
      var i :| 0 <= i < |batch| && batch[i] == files[j].1;
    }
  }

  /** And its label is local exactly when some touch was this process's own. */
  lemma BatchLabels(normalize: string -> string, log: seq<Event>, i: nat)
    requires i < |Undelivered(Replay(normalize, log).files)|
    ensures var e := Undelivered(Replay(normalize, log).files)[i];
            e.source == Local <==> EverOwn(normalize, log, normalize(e.displayPath))
  {
    hide Replay, EverTouched, LastDelivered, EverOwn, GivesReason;
    var files := Replay(normalize, log).files;
    var e := Undelivered(files)[i];
    UndeliveredIs(files, e);
    var j :| 0 <= j < |files| && files[j].1 == e && !e.contentDelivered;
    ReplayKeyed(normalize, log);
    GetAt(files, j);
    TrayTells(normalize, log, normalize(e.displayPath));
  }

  /** Entries of the batch whose path no touch of this process concerned. */
  function Foreign(normalize: string -> string, log: seq<Event>, entries: seq<Touched>): nat {
    if entries == [] then 0
    else
      Foreign(normalize, log, entries[..|entries| - 1])
      + if EverOwn(normalize, log, normalize(entries[|entries| - 1].displayPath)) then 0 else 1
  }

  lemma {:induction false} CrossIsForeign(normalize: string -> string, log: seq<Event>, entries: seq<Touched>)
    requires forall i :: 0 <= i < |entries| ==>
               (entries[i].source == Local <==> EverOwn(normalize, log, normalize(entries[i].displayPath)))
    ensures CrossIn(entries) == Foreign(normalize, log, entries)
  {
    hide EverOwn;
    if entries == [] {
    } else {
      CrossIsForeign(normalize, log, entries[..|entries| - 1]);
    }
  }

  /** So the two counts of a batch are those of its local and its foreign paths. */
  lemma BatchCounts(normalize: string -> string, log: seq<Event>)
    ensures var entries := Undelivered(Replay(normalize, log).files);
            CrossIn(entries) == Foreign(normalize, log, entries)
  {
    hide Replay, Undelivered, EverOwn, CrossIn, Foreign;
    var entries := Undelivered(Replay(normalize, log).files);
    forall i | 0 <= i < |entries|
      ensures entries[i].source == Local <==> EverOwn(normalize, log, normalize(entries[i].displayPath))
    {
      BatchLabels(normalize, log, i);
    }
    CrossIsForeign(normalize, log, entries);
  }

  // ---- order ---------------------------------------------------------------------

  /** Keys by first touch. */
  function FirstTouches(normalize: string -> string, log: seq<Event>): seq<string> {
    if log == [] then []
    else
      var before, e := FirstTouches(normalize, log[..|log| - 1]), log[|log| - 1];
      if Touches(normalize, e, normalize(e.path)) then Add(before, normalize(e.path)) else before
  }

  /** The accumulator keeps paths in the order in which they were first touched. */
  lemma {:induction false} TrayInOrder(normalize: string -> string, log: seq<Event>)
    ensures Keys(Replay(normalize, log).files) == FirstTouches(normalize, log)
  {
    hide Next;
    if log == [] {
    } else {
      var t, e := Replay(normalize, log[..|log| - 1]), log[|log| - 1];
      TrayInOrder(normalize, log[..|log| - 1]);
      NextKeys(normalize, t, e);
    }
  }

  function BatchKeys(normalize: string -> string, batch: seq<Touched>): seq<string> {
    if batch == [] then []
    else BatchKeys(normalize, batch[..|batch| - 1]) + [normalize(batch[|batch| - 1].displayPath)]
  }

  /** The keys whose content is still to be said. */
  function Unsaid(normalize: string -> string, log: seq<Event>, keys: seq<string>): seq<string> {
    if keys == [] then []
    else
      var front, key := Unsaid(normalize, log, keys[..|keys| - 1]), keys[|keys| - 1];
      if LastDelivered(normalize, log, key) then front else front + [key]
  }

  lemma {:induction false} UndeliveredInOrder(normalize: string -> string, log: seq<Event>,
                                              files: Entries<string, Touched>)
    requires forall i :: 0 <= i < |files| ==> normalize(files[i].1.displayPath) == files[i].0
    requires forall i :: 0 <= i < |files| ==> (files[i].1.contentDelivered
             <==> LastDelivered(normalize, log, files[i].0))
    ensures BatchKeys(normalize, Undelivered(files)) == Unsaid(normalize, log, Keys(files))
  {
    hide LastDelivered;
    if files == [] {
    } else {
      var front, last := files[..|files| - 1], files[|files| - 1];
      UndeliveredInOrder(normalize, log, front);
      assert Keys(files)[..|files| - 1] == Keys(front);
      var batch := Undelivered(front);
      assert (batch + [last.1])[..|batch|] == batch;
    }
  }

  /** The drained batch names, in the order in which they were first touched, exactly the touched
      paths whose last event is not a delivered attachment. */
  lemma OrderIsFirstTouch(normalize: string -> string, log: seq<Event>)
    ensures BatchKeys(normalize, Undelivered(Replay(normalize, log).files))
         == Unsaid(normalize, log, FirstTouches(normalize, log))
  {
    hide Replay, LastDelivered, EverTouched, EverOwn, GivesReason, FirstTouches;
    var files := Replay(normalize, log).files;
    TrayInOrder(normalize, log);
    ReplayKeyed(normalize, log);
    forall i | 0 <= i < |files| ensures files[i].1.contentDelivered <==> LastDelivered(normalize, log, files[i].0) {
      GetAt(files, i);
      TrayTells(normalize, log, files[i].0);
    }
    UndeliveredInOrder(normalize, log, files);
  }

  lemma NextKeys(normalize: string -> string, t: Tray, e: Event)
    ensures Keys(Next(normalize, t, e).files)
            == if Touches(normalize, e, normalize(e.path)) then Add(Keys(t.files), normalize(e.path)) else Keys(t.files)
  {
    var k := normalize(e.path);
    var existing := Get(t.files, k);
    match e {
      case OwnTouch(path, relevant, reason, at) =>
        if relevant {
          MergeEntry(t, k, path, reason, Local, at, k);
          var v := Get(Merge(t, k, path, reason, Local, at).files, k).value;
          PutKeys(t.files, k, v);
          NextPuts(normalize, t, e, v);
        }
      case ForeignTouch(path, reason, at) =>
        MergeEntry(t, k, path, reason, CrossProcess, at, k);
        var v := Get(Merge(t, k, path, reason, CrossProcess, at).files, k).value;
        PutKeys(t.files, k, v);
        NextPuts(normalize, t, e, v);
      case Attachment(_, attached) =>
        if existing.Some? {
          PutKeys(t.files, k, existing.value.(contentDelivered := attached));
          HasIsGet(t.files, k);
          KeysHas(t.files, k);
        }
    }
  }

  /** Re-arming a path that was not touched since the drain does nothing: it stays out of the
      batch. */
  lemma RearmNeedsTouch(normalize: string -> string, log: seq<Event>, path: string)
    requires !EverTouched(normalize, log, normalize(path))
    ensures Replay(normalize, log + [Attachment(path, false)]) == Replay(normalize, log)
    ensures !Named(normalize, Undelivered(Replay(normalize, log + [Attachment(path, false)]).files), normalize(path))
  {
    hide Replay, EverTouched, LastDelivered, EverOwn, GivesReason, Undelivered;
    TrayTells(normalize, log, normalize(path));
    ReplaySnoc(normalize, log, Attachment(path, false));
    BatchNamesPath(normalize, log, normalize(path));
  }
}
