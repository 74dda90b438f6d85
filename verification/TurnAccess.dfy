/** Who may touch the worklist of a turn, read off process ids, liveness and time stamps
    (clients/cache-manager.ts:441-517, 526-638). */
module TurnAccess {
  import opened JsMap
  import opened TurnState

  /** The owner is still there: another process answers a signal; this process, or one without a
      pid, was seen within the last half hour. */
  predicate Live(env: Env, owner: Owner) {
    if owner.pid <= 0 || owner.pid == env.pid then
      owner.lastSeen.Some? && env.now - owner.lastSeen.value <= 1800000.0
    else env.alive(owner.pid)
  }

  predicate Mine(owner: Owner, asking: Asking) { owner.kind == asking.kind && owner.id == asking.id }

  /** Without an owner: claimed by no session, or by the asking one. */
  predicate Unclaimed(state: Worklist, asking: Asking) {
    state.owner.None? && (state.sessionId == "" || state.sessionId == asking.id)
  }

  /** Last written before the asking session began, or at a time that cannot be read. */
  predicate Outlived(state: Worklist, asking: Asking) {
    && asking.sessionStartedAt.Some?
    && !(state.lastUpdated.Some? && state.lastUpdated.value >= asking.sessionStartedAt.value)
  }

  predicate LockedOut(env: Env, state: Worklist, asking: Asking) {
    state.files != map[] && state.owner.Some? && !Mine(state.owner.value, asking) && Live(env, state.owner.value)
  }

  /** A worklist is the asking session's own if it owns it, if there is nothing in it and no other
      session has claimed it, or if it is unclaimed and was written during the session. */
  predicate Own(state: Worklist, asking: Asking) {
    || (state.owner.Some? && (Mine(state.owner.value, asking) || state.files == map[]))
    || (Unclaimed(state, asking) && (state.files == map[] || !Outlived(state, asking)))
  }

  /** The three answers: locked out by a live owner of a worklist that holds something, its own,
      or there to be taken over. */
  lemma AccessIff(env: Env, state: Worklist, asking: Asking)
    ensures AccessOf(env, state, asking) == ForeignLive <==> LockedOut(env, state, asking)
    ensures AccessOf(env, state, asking) == Owned <==> Own(state, asking)
    ensures AccessOf(env, state, asking) == Available <==> !LockedOut(env, state, asking) && !Own(state, asking)
  {}

  // ---- what each writer does -----------------------------------------------------

  function FilesOf(stored: Option<Worklist>): map<string, FileState> {
    if stored.Some? then stored.value.files else map[]
  }

  /** What a writer starts from where nothing is stored. */
  ghost predicate Blank(state: Worklist) { state.files == map[] && state.sessionId == "" && state.owner.None? }

  /** An edit counts unless its path is outside the project or its session is locked out; an edit
      without a session is never locked out. */
  lemma EditAcceptedIff(stored: Option<Worklist>, e: Event)
    requires e.Edit?
    ensures Accepted(stored, e)
            <==> && e.env.withinRoot(e.filePath)
                 && !(e.sessionId != "" && stored.Some?
                      && LockedOut(e.env, stored.value, Asking(e.kind, e.sessionId, None)))
  {
    AccessIff(e.env, Read(e.env, stored), Asking(e.kind, e.sessionId, None));
  }

  /** A clear or a cycle goes through unless it is locked out by another process. */
  lemma OtherAcceptedIff(stored: Option<Worklist>, e: Event)
    requires !e.Edit?
    ensures Accepted(stored, e)
            <==> !(stored.Some? && LockedOut(e.env, stored.value, e.asking)
                   && stored.value.owner.value.pid != e.env.pid)
  {
    AccessIff(e.env, Read(e.env, stored), e.asking);
  }

  /** An accepted edit of a session makes it the owner, seen now; one without a session leaves the
      ownership as it was. Every other file keeps its entry. */
  lemma EditStamps(stored: Option<Worklist>, e: Event)
    requires e.Edit? && Accepted(stored, e)
    ensures var after, key := Next(stored, e), e.env.keyOf(e.filePath);
            && after.Some? && after.value.lastUpdated == Some(e.env.now) && key in after.value.files
            && after.value.files[key].lastEdit == e.env.now
            && after.value.files - {key} == FilesOf(stored) - {key}
            && (e.sessionId != "" ==>
                  && after.value.sessionId == e.sessionId
                  && after.value.owner == Some(Owner(e.kind, e.sessionId, e.env.pid, Some(e.env.now), None)))
            && (e.sessionId == "" && stored.Some? ==>
                  after.value.sessionId == stored.value.sessionId && after.value.owner == stored.value.owner)
            && (e.sessionId == "" && stored.None? ==> after.value.sessionId == "" && after.value.owner.None?)
  {
    hide Accepted;
  }

  /** An accepted clear empties the worklist and makes the asking session its owner; a cycle counts
      one turn and touches nothing else. A refused event changes nothing. */
  lemma OthersStamp(stored: Option<Worklist>, e: Event)
    requires !e.Edit?
    ensures Accepted(stored, e) && e.Clear? ==>
              var owner := Owner(e.asking.kind, e.asking.id, e.env.pid, Some(e.env.now), e.asking.sessionStartedAt);
              Next(stored, e) == Some(Worklist(map[], 0, 3, Some(e.env.now), e.asking.id, Some(owner)))
    ensures Accepted(stored, e) && e.Cycle? && stored.Some? ==>
              && Next(stored, e).Some? && Next(stored, e).value.turnCycles == stored.value.turnCycles + 1
              && Next(stored, e).value.files == stored.value.files
              && Next(stored, e).value.owner == stored.value.owner
              && Next(stored, e).value.sessionId == stored.value.sessionId
    ensures !Accepted(stored, e) ==> Next(stored, e) == stored
  {
    hide Accepted;
  }

  /** A session that has edited holds the worklist: another one that asks from another process is
      locked out exactly as long as the editing process lives, and one that asks from the same
      process for half an hour. */
  lemma EditLocksOut(stored: Option<Worklist>, e: Event, env: Env, asking: Asking)
    requires e.Edit? && Accepted(stored, e) && e.sessionId != "" && e.env.pid > 0
    requires asking.kind != e.kind || asking.id != e.sessionId
    ensures var access := AccessOf(env, Next(stored, e).value, asking);
            && (env.pid != e.env.pid ==> (access == ForeignLive <==> env.alive(e.env.pid)))
            && (env.pid == e.env.pid ==> (access == ForeignLive <==> env.now - e.env.now <= 1800000.0))
            && access != Owned
  {
    hide Accepted, Next, AccessOf;
    EditStamps(stored, e);
    AccessIff(env, Next(stored, e).value, asking);
    var after := Next(stored, e).value;
    assert after.files != map[];
  }

  /** A session that has cleared it locks nobody out. */
  lemma ClearFrees(stored: Option<Worklist>, e: Event, env: Env, asking: Asking)
    requires e.Clear? && Accepted(stored, e)
    ensures Next(stored, e).Some? && AccessOf(env, Next(stored, e).value, asking) == Owned
  {
    hide Accepted, AccessOf;
    AccessIff(env, Next(stored, e).value, asking);
  }
}
