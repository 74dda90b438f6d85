/** The persisted worklist of a turn (clients/cache-manager.ts:402-638): who may write it, and
    which lines it says were edited. */
module TurnState {
  import opened JsMap
  import opened RangeMerge
  import opened RangeMergeLaws

  datatype OwnerKind = Pi | Mcp

  /** Time stamps are what `Date.parse` makes of them; None is not finite. */
  datatype Owner = Owner(kind: OwnerKind, id: string, pid: int, lastSeen: Option<real>, sessionStartedAt: Option<real>)

  datatype FileState = FileState(modifiedRanges: seq<Span>, importsChanged: bool, lastEdit: real)

  /** An absent session id is the empty string: the code treats both alike. */
  datatype Worklist = Worklist(
    files: map<string, FileState>, turnCycles: int, maxCycles: int, lastUpdated: Option<real>,
    sessionId: string, owner: Option<Owner>)

  datatype Access = Owned | Available | ForeignLive

  const TURN_OWNER_STALE_MS := 1800000.0

  /** The moment and process of one call: clock, own pid, who is alive, which paths lie in the
      project, and the key of a path. */
  datatype Env = Env(now: real, pid: int, alive: int -> bool, withinRoot: string -> bool, keyOf: string -> string)

  datatype Asking = Asking(kind: OwnerKind, id: string, sessionStartedAt: Option<real>)

  function Default(now: real): Worklist { Worklist(map[], 0, 3, Some(now), "", None) }

  function Read(env: Env, stored: Option<Worklist>): Worklist { if stored.Some? then stored.value
                else Default(env.now) }

  // ---- access --------------------------------------------------------------------

  predicate PredatesSession(state: Worklist, startedAt: Option<real>) {
    startedAt.Some? && (state.lastUpdated.None? || state.lastUpdated.value < startedAt.value)
  }

  predicate OwnerStale(env: Env, owner: Owner) {
    if owner.pid > 0 && owner.pid != env.pid then !env.alive(owner.pid)
    else owner.lastSeen.None? || env.now - owner.lastSeen.value > TURN_OWNER_STALE_MS
  }

  function AccessOf(env: Env, state: Worklist, asking: Asking): Access {
    if state.owner.None? then
      if state.sessionId == "" || state.sessionId == asking.id then
        if state.files != map[] && PredatesSession(state, asking.sessionStartedAt) then Available else Owned
      else Available
    else
      var owner := state.owner.value;
      if owner.kind == asking.kind && owner.id == asking.id then Owned
      else if state.files == map[] then Owned
      else if OwnerStale(env, owner) then Available else ForeignLive
  }

  /** A writer is locked out exactly by a non-empty worklist of somebody else who is alive. */
  lemma LockedOutIff(env: Env, state: Worklist, asking: Asking)
    ensures AccessOf(env, state, asking) == ForeignLive
            <==> && state.files != map[] && state.owner.Some?
                 && (state.owner.value.kind != asking.kind || state.owner.value.id != asking.id)
                 && !OwnerStale(env, state.owner.value)
  {}

  // ---- the three writers, on values ----------------------------------------------

  datatype Event =
    | Edit(env: Env, filePath: string, range: Span, importsChanged: bool, sessionId: string, kind: OwnerKind)
    | Clear(env: Env, asking: Asking)
    | Cycle(env: Env, asking: Asking)

  predicate MayAct(env: Env, state: Worklist, asking: Asking) {
    AccessOf(env, state, asking) != ForeignLive || (state.owner.Some? && env.pid == state.owner.value.pid)
  }

  /** Does the event change the worklist? */
  predicate Accepted(stored: Option<Worklist>, e: Event) {
    var state := Read(e.env, stored);
    match e
    case Edit(env, filePath, _, _, sessionId, kind) =>
      env.withinRoot(filePath)
      && (sessionId == "" || AccessOf(env, state, Asking(kind, sessionId, None)) != ForeignLive)
    case Clear(env, asking) => MayAct(env, state, asking)
    case Cycle(env, asking) => MayAct(env, state, asking)
  }

  function EditFile(files: map<string, FileState>, key: string, range: Span, importsChanged: bool,
                    now: real): map<string, FileState> {
    if key in files then
      var f := files[key];
      files[key := FileState(MergeSpans(f.modifiedRanges + [range]), f.importsChanged || importsChanged, now)]
    else files[key := FileState([range], importsChanged, now)]
  }

  function Claim(env: Env, state: Worklist, sessionId: string, kind: OwnerKind): Worklist {
    if sessionId == "" then state
    else state.(sessionId := sessionId, owner := Some(Owner(kind, sessionId, env.pid, Some(env.now), None)))
  }

  function Next(stored: Option<Worklist>, e: Event): Option<Worklist> {
    var state := Read(e.env, stored);
    if !Accepted(stored, e) then stored
    else
      match e
      case Edit(env, filePath, range, importsChanged, sessionId, kind) =>
        var claimed := Claim(env, state, sessionId, kind);
        Some(claimed.(files := EditFile(state.files, env.keyOf(filePath), range, importsChanged, env.now),
          lastUpdated := Some(env.now)))
      case Clear(env, asking) =>
        Some(Default(env.now).(sessionId := asking.id,
                               owner := Some(Owner(asking.kind, asking.id, env.pid, Some(env.now),
                                 asking.sessionStartedAt))))
      case Cycle(env, asking) => Some(state.(turnCycles := state.turnCycles + 1, lastUpdated := Some(env.now)))
  }

  // ---- the program ---------------------------------------------------------------

  /** Range objects of a freshly parsed file. */
  method Parse(ranges: seq<Span>) returns (objects: seq<ModifiedRange>)
    ensures ValuesOf(objects) == ranges
    ensures forall i :: 0 <= i < |objects| ==> fresh(objects[i])
  {
    objects := [];
    for i := 0 to |ranges|
      invariant ValuesOf(objects) == ranges[..i]
      invariant forall j :: 0 <= j < |objects| ==> fresh(objects[j])
    {
      ghost var before := objects;
      var r := new ModifiedRange(ranges[i].start, ranges[i].end);
      objects := objects + [r];
      assert objects[..|before|] == before;
      TakeSnoc(ranges, i);
    }
    assert ranges[..|ranges|] == ranges;
  }

  class CacheManager {
    var stored: Option<Worklist>

    constructor ()
      ensures stored == None
    {
      stored := None;
    }

    method ReadTurnState(env: Env) returns (state: Worklist)
      ensures state == Read(env, stored)
    {
      state := if stored.Some? then stored.value else Default(env.now);
    }

    method WriteTurnState(env: Env, state: Worklist)
      modifies this
      ensures stored == Some(state.(lastUpdated := Some(env.now)))
    {
      stored := Some(state.(lastUpdated := Some(env.now)));
    }

    method GetTurnStateAccess(env: Env, asking: Asking) returns (access: Access)
      ensures access == AccessOf(env, Read(env, stored), asking)
    {
      var state := ReadTurnState(env);
      access := AccessOf(env, state, asking);
    }

    /** The stored ranges of one file joined by one more, on the objects. */
    method MergeInto(existing: seq<Span>, range: ModifiedRange) returns (merged: seq<Span>)
      modifies range
      ensures merged == MergeSpans(existing + [old(range.Value())])
      ensures range.start == old(range.start) && range.end >= old(range.end)
    {
      var objects := Parse(existing);
      ghost var value := range.Value();
      ValuesSnoc(objects, range);
      var result := MergeRanges(objects + [range]);
      merged := ValuesOf(result);
      ghost var all := objects + [range];
      assert all[|objects|] == range;
    }

    method AddModifiedRange(env: Env, filePath: string, range: ModifiedRange, importsChanged: bool,
                            sessionId: string, kind: OwnerKind)
      returns (state: Worklist)
      modifies this, range
      ensures stored == Next(old(stored), Edit(env, filePath, old(range.Value()), importsChanged, sessionId, kind))
      ensures state == if Accepted(old(stored), Edit(env, filePath, old(range.Value()), importsChanged, sessionId,
              kind))
                       then stored.value else Read(env, stored)
      ensures range.start == old(range.start) && range.end >= old(range.end)
    {
      state := ReadTurnState(env);
      if !env.withinRoot(filePath) { return; }
      var files := state.files;
      if sessionId != "" {
        var access := GetTurnStateAccess(env, Asking(kind, sessionId, None));
        if access == ForeignLive { return; }
        state := state.(sessionId := sessionId, owner := Some(Owner(kind, sessionId, env.pid, Some(env.now), None)));
      }
      var key := env.keyOf(filePath);
      if key in files {
        var ranges := MergeInto(files[key].modifiedRanges, range);
        state := state.(files := files[key := FileState(ranges, files[key].importsChanged || importsChanged, env.now)]);
      } else {
        state := state.(files := files[key := FileState([range.Value()], importsChanged, env.now)]);
      }
      WriteTurnState(env, state);
      state := stored.value;
    }

    method ClearTurnState(env: Env, asking: Asking) returns (cleared: bool)
      modifies this
      ensures stored == Next(old(stored), Clear(env, asking)) && cleared == Accepted(old(stored), Clear(env, asking))
    {
      var current := ReadTurnState(env);
      var access := GetTurnStateAccess(env, asking);
      if access == ForeignLive && !(current.owner.Some? && env.pid == current.owner.value.pid) { return false; }
      var state := Default(env.now).(sessionId := asking.id);
      state := state.(owner := Some(Owner(asking.kind, asking.id, env.pid, Some(env.now), asking.sessionStartedAt)));
      WriteTurnState(env, state);
      cleared := true;
    }

    method IncrementTurnCycle(env: Env, asking: Asking) returns (state: Worklist)
      modifies this
      ensures stored == Next(old(stored), Cycle(env, asking)) && state == Read(env, stored)
    {
      state := ReadTurnState(env);
      var access := GetTurnStateAccess(env, asking);
      if access == ForeignLive && !(state.owner.Some? && env.pid == state.owner.value.pid) { return; }
      WriteTurnState(env, state.(turnCycles := state.turnCycles + 1));
      state := stored.value;
    }
  }

  lemma ValuesSnoc(rs: seq<ModifiedRange>, r: ModifiedRange)
    ensures ValuesOf(rs + [r]) == ValuesOf(rs) + [r.Value()]
  {
    assert (rs + [r])[..|rs|] == rs;
  }

  // ---- every history -------------------------------------------------------------

  function Replay(history: seq<Event>): Option<Worklist> {
    if history == [] then None else Next(Replay(history[..|history| - 1]), history[|history| - 1])
  }

  /** The accepted edits of one key since the last clear that took effect. */
  function EditsSinceClear(history: seq<Event>, key: string): seq<Event> {
    if history == [] then []
    else
      var front, last := history[..|history| - 1], history[|history| - 1];
      var before := EditsSinceClear(front, key);
      if !Accepted(Replay(front), last) then before
      else if last.Clear? then []
      else if last.Edit? && last.env.keyOf(last.filePath) == key then before + [last]
      else before
  }

  function RangesOf(edits: seq<Event>): (r: seq<Span>)
    ensures |r| == |edits|
    ensures forall i :: 0 <= i < |edits| && edits[i].Edit? ==> r[i] == edits[i].range
  {
    if edits == [] then []
    else RangesOf(edits[..|edits| - 1]) + [if edits[|edits| - 1].Edit? then edits[|edits| - 1].range else Span(0, -1)]
  }

  predicate AnyImports(edits: seq<Event>) {
    exists i :: 0 <= i < |edits| && edits[i].Edit? && edits[i].importsChanged
  }

  lemma RangesSnoc(edits: seq<Event>, e: Event)
    requires e.Edit?
    ensures RangesOf(edits + [e]) == RangesOf(edits) + [e.range]
    ensures AnyImports(edits + [e]) <==> AnyImports(edits) || e.importsChanged
  {
    var all := edits + [e];
    assert all[..|edits|] == edits && all[|edits|] == e;
    if i :| 0 <= i < |edits| && edits[i].Edit? && edits[i].importsChanged { assert all[i] == edits[i]; }
  }

  /** What the worklist holds for a key, given the edits. */
  ghost predicate Reflects(stored: Option<Worklist>, key: string, edits: seq<Event>) {
    var files := if stored.Some? then stored.value.files else map[];
    && (key in files <==> edits != [])
    && (key in files ==>
          files[key].modifiedRanges == Incremental(RangesOf(edits))
            && (files[key].importsChanged <==> AnyImports(edits)))
  }

  lemma IncrementalSnoc(ranges: seq<Span>, r: Span)
    ensures Incremental(ranges + [r]) == if ranges == [] then [r] else MergeSpans(Incremental(ranges) + [r])
  {
    assert (ranges + [r])[..|ranges|] == ranges;
  }

  lemma EditReflects(stored: Option<Worklist>, e: Event, key: string, edits: seq<Event>)
    requires Reflects(stored, key, edits) && e.Edit? && Accepted(stored, e)
    ensures Reflects(Next(stored, e), key, if e.env.keyOf(e.filePath) == key then edits + [e] else edits)
  {
    hide Accepted, MergeSpans, Incremental, AnyImports, RangesOf;
    RangesSnoc(edits, e);
    IncrementalSnoc(RangesOf(edits), e.range);
    if edits == [] { NoImports(); }
  }

  lemma OtherReflects(stored: Option<Worklist>, e: Event, key: string, edits: seq<Event>)
    requires Reflects(stored, key, edits) && !(e.Edit? && Accepted(stored, e))
    ensures Reflects(Next(stored, e), key, if Accepted(stored, e) && e.Clear? then [] else edits)
  {
    hide Accepted, Incremental, AnyImports, RangesOf;
  }

  /** A worklist is a replay of its log: for every file, the ranges that one merge per accepted
      edit since the last effective clear gives, and whether any of them touched imports. */
  lemma {:induction false} WorklistIsReplay(history: seq<Event>, key: string)
    ensures Reflects(Replay(history), key, EditsSinceClear(history, key))
  {
    hide Accepted, Next, Reflects;
    if history != [] {
      var front, last := history[..|history| - 1], history[|history| - 1];
      WorklistIsReplay(front, key);
      if last.Edit? && Accepted(Replay(front), last) {
        EditReflects(Replay(front), last, key, EditsSinceClear(front, key));
      } else {
        OtherReflects(Replay(front), last, key, EditsSinceClear(front, key));
      }
    } else {
      NothingReflects(key);
    }
  }

  lemma NothingReflects(key: string)
    ensures Reflects(None, key, [])
  {}

  lemma NoImports()
    ensures !AnyImports([])
  {}

  /** A line is in the stored ranges of a file exactly when some accepted edit since the last
      effective clear covered it. */
  lemma LineIffEdited(history: seq<Event>, key: string, line: int)
    ensures var stored, edits := Replay(history), EditsSinceClear(history, key);
            (stored.Some? && key in stored.value.files && Covers(stored.value.files[key].modifiedRanges, line))
            <==> exists i :: 0 <= i < |edits| && edits[i].Edit? && Inside(line, edits[i].range)
  {
    hide Accepted, Incremental;
    var edits := EditsSinceClear(history, key);
    WorklistIsReplay(history, key);
    IncrementalKeepsLines(RangesOf(edits), line);
    AreEdits(history, key);
    if i :| 0 <= i < |edits| && edits[i].Edit? && Inside(line,
      edits[i].range) { assert Inside(line, RangesOf(edits)[i]); }
    if i :| 0 <= i < |edits| && Inside(line, RangesOf(edits)[i]) { assert edits[i].Edit?
      && Inside(line, edits[i].range); }
  }

  lemma {:induction false} AreEdits(history: seq<Event>, key: string)
    ensures forall i :: 0 <= i < |EditsSinceClear(history, key)| ==> EditsSinceClear(history, key)[i].Edit?
  {
    hide Accepted;
    if history == [] {
    } else {
      AreEdits(history[..|history| - 1], key);
    }
  }

  /** If no edit is empty, the stored ranges are one batch merge of all of them. */
  lemma StoredIsBatch(history: seq<Event>, key: string)
    requires Proper(RangesOf(EditsSinceClear(history, key))) && EditsSinceClear(history, key) != []
    ensures Replay(history).Some? && key in Replay(history).value.files
    ensures var ranges := Replay(history).value.files[key].modifiedRanges;
            Canonical(ranges) && ranges == MergeSpans(RangesOf(EditsSinceClear(history, key)))
  {
    hide MergeSpans, Incremental;
    WorklistIsReplay(history, key);
    IncrementalIsBatch(RangesOf(EditsSinceClear(history, key)));
    MergeIsCanonical(RangesOf(EditsSinceClear(history, key)));
  }
}
