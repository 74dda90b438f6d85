/** Runs on which the asynchronous directory lock has two holders, or a call deletes the lock that
    replaced its own. */
module QuarantineFailures {
  import opened JsMap
  import opened QuarantineLock
  import opened QuarantineExclusion
  import opened QuarantineRelease

  // ---- runs that fail ------------------------------------------------------------

  /** A creator so slow that its directory, without an owner file yet, is reclaimed and replaced. */
  function Replaced(slow: Owner, quick: Owner, late: Moment): seq<Step> {
    [MakeDir(1, slow, 0)] + Looking(2, late) + Clearing(2, 0, late) + Taking(3, quick, 9)
  }

  lemma ReplacedLeads(slow: Owner, quick: Owner, late: Moment) returns (end: System)
    requires slow.token != quick.token && late.statWorks && late.now > late.staleMs
    ensures Leads(EMPTY, Replaced(slow, quick, late), end)
    ensures end == System(map[Canonical := Dir(Some(quick), 9, quick.token)],
                          map[1 := Creating(slow), 3 := Holding(quick.token)], {0}, {slow.token, quick.token},
                          map[quick.token := quick.token])
  {
    hide Enabled, Leads, Looking, Clearing, Taking;
    var s1 := MakesFirst(slow);
    var s2 := Suspects(s1, 2, late);
    var s3 := Reclaims(s2, 2, 0, late);
    end := TakesLock(s3, 3, quick, 9);
    LeadsOn(EMPTY, [MakeDir(1, slow, 0)], s1, Looking(2, late), s2);
    LeadsOn(EMPTY, [MakeDir(1, slow, 0)] + Looking(2, late), s2, Clearing(2, 0, late), s3);
    LeadsOn(EMPTY, [MakeDir(1, slow, 0)] + Looking(2, late) + Clearing(2, 0, late), s3, Taking(3, quick, 9), end);
    assert end.procs == map[1 := Creating(slow), 3 := Holding(quick.token)];
  }

  lemma MakesFirst(owner: Owner) returns (end: System)
    ensures Leads(EMPTY, [MakeDir(1, owner, 0)], end)
    ensures end == System(map[Canonical := Dir(None, 0, owner.token)], map[1 := Creating(owner)], {}, {owner.token},
            map[])
  {
    LeadsOne(EMPTY, MakeDir(1, owner, 0));
    end := Apply(EMPTY, MakeDir(1, owner, 0));
  }

  /** Two holders: the slow creator writes its owner file over that of the call that replaced it. */
  lemma SlowCreatorOverwrites(slow: Owner, quick: Owner, late: Moment) returns (end: System)
    requires slow.token != quick.token && late.statWorks && late.now > late.staleMs
    ensures Leads(EMPTY, Replaced(slow, quick, late) + [WriteOwner(1, 9)], end) && !OneHolder(end)
    ensures end.procs == map[1 := Holding(slow.token), 3 := Holding(quick.token)]
    ensures end.dirs == map[Canonical := Dir(Some(slow), 9, quick.token)]
  {
    var s := ReplacedLeads(slow, quick, late);
    LeadsOne(s, WriteOwner(1, 9));
    end := Apply(s, WriteOwner(1, 9));
    LeadsOn(EMPTY, Replaced(slow, quick, late), s, [WriteOwner(1, 9)], end);
    assert HoldsLock(end, 1) && HoldsLock(end, 3);
  }

  /** And when the slow one releases, its token matches: it deletes the other's lock. */
  lemma LateOwnerDeletesReplacement(slow: Owner, quick: Owner, late: Moment) returns (end: System)
    requires slow.token != quick.token && late.statWorks && late.now > late.staleMs
    ensures Leads(EMPTY, Replaced(slow, quick, late) + ([WriteOwner(1, 9)] + Letting(1, 1)), end)
    ensures end.procs == map[3 := Holding(quick.token)] && end.dirs == map[]
  {
    var s := ReplacedLeads(slow, quick, late);
    end := ForeignWriteDeletes(s, 1, 9, 1);
    LeadsOn(EMPTY, Replaced(slow, quick, late), s, [WriteOwner(1, 9)] + Letting(1, 1), end);
  }

  /** So does the slow creator if it cannot write and cleans up. */
  lemma FailedCreatorDeletesReplacement(slow: Owner, quick: Owner, late: Moment) returns (end: System)
    requires slow.token != quick.token && late.statWorks && late.now > late.staleMs
    ensures Leads(EMPTY, Replaced(slow, quick, late) + [FailWrite(1), CleanUp(1, true)], end)
    ensures end.procs == map[3 := Holding(quick.token)] && end.dirs == map[]
  {
    var s := ReplacedLeads(slow, quick, late);
    LeadsTwo(s, FailWrite(1), CleanUp(1, true));
    end := Apply(Apply(s, FailWrite(1)), CleanUp(1, true));
    LeadsOn(EMPTY, Replaced(slow, quick, late), s, [FailWrite(1), CleanUp(1, true)], end);
  }

  /** A reclaimer that looked at an aged lock takes aside the fresh one of a later call, ... */
  function LookedEarly(first: Owner, later: Owner, aged: Moment): seq<Step> {
    Taking(4, first, 0) + Looking(2, aged) + Letting(4, 0) + Taking(1, later, 9) + [ReclaimAside(2, 1)]
  }

  lemma LookedEarlyLeads(first: Owner, later: Owner, aged: Moment) returns (end: System)
    requires first.token != later.token && OwnerIsStale(first, aged)
    ensures Leads(EMPTY, LookedEarly(first, later, aged), end)
    ensures end.dirs == map[Quarantine(1) := Dir(Some(later), 9, later.token)]
            && end.tokens == {first.token, later.token}
    ensures end.procs == map[1 := Holding(later.token), 2 := Reclaiming(1)]
  {
    hide Enabled, Leads, Looking, Letting, Taking, OwnerIsStale;
    var s1 := TakesLock(EMPTY, 4, first, 0);
    var s2 := Suspects(s1, 2, aged);
    var s3 := Releases(s2, 4, 0);
    assert s3.procs == map[2 := Suspecting] && s3.dirs == map[];
    var s4 := TakesLock(s3, 1, later, 9);
    var s5 := PutsAside(s4, 2, 1);
    LeadsOn(EMPTY, Taking(4, first, 0), s1, Looking(2, aged), s2);
    LeadsOn(EMPTY, Taking(4, first, 0) + Looking(2, aged), s2, Letting(4, 0), s3);
    LeadsOn(EMPTY, Taking(4, first, 0) + Looking(2, aged) + Letting(4, 0), s3, Taking(1, later, 9), s4);
    LeadsOn(EMPTY, Taking(4, first, 0) + Looking(2, aged) + Letting(4, 0) + Taking(1, later, 9), s4,
      [ReclaimAside(2, 1)], s5);
    end := s5;
  }

  lemma PutsAside(s: System, p: nat, id: nat) returns (end: System)
    requires p in s.procs && s.procs[p].Suspecting? && Canonical in s.dirs && id !in s.used
    ensures Leads(s, [ReclaimAside(p, id)], end)
    ensures end == s.(dirs := MoveDir(s.dirs, Canonical, Quarantine(id)), procs := s.procs[p := Reclaiming(id)],
            used := s.used + {id})
  {
    LeadsOne(s, ReclaimAside(p, id));
    end := Apply(s, ReclaimAside(p, id));
  }

  /** ... and its second look comes after a third call has taken the free name: two holders, with
      no late writer and no stale verdict, and the live lock stranded aside. */
  lemma EarlyLookStrandsLock(first: Owner, later: Owner, third: Owner, aged: Moment, young: Moment)
    returns (end: System)
    requires first.token != later.token && later.token != third.token && first.token != third.token
    requires OwnerIsStale(first, aged) && !OwnerIsStale(later, young)
    ensures Leads(EMPTY, LookedEarly(first, later, aged) + Taking(3, third, 9) + [Judge(2, young), Restore(2)], end)
    ensures end.procs == map[1 := Holding(later.token), 3 := Holding(third.token)] && !OneHolder(end)
    ensures end.dirs == map[Canonical := Dir(Some(third), 9, third.token),
            Quarantine(1) := Dir(Some(later), 9, later.token)]
  {
    hide OwnerIsStale, LookedEarly, Taking, Leads;
    var s := LookedEarlyLeads(first, later, aged);
    var s1 := TakesLock(s, 3, third, 9);
    LeadsOn(EMPTY, LookedEarly(first, later, aged), s, Taking(3, third, 9), s1);
    end := KeepsAside(s1, 2, 1, young);
    LeadsOn(EMPTY, LookedEarly(first, later, aged) + Taking(3, third, 9), s1, [Judge(2, young), Restore(2)], end);
    assert end.procs == map[1 := Holding(later.token), 3 := Holding(third.token)];
    assert HoldsLock(end, 1) && HoldsLock(end, 3);
  }

  lemma KeepsAside(s: System, p: nat, id: nat, moment: Moment) returns (end: System)
    requires p in s.procs && s.procs[p] == Reclaiming(id) && Quarantine(id) in s.dirs
             && !IsStale(s.dirs[Quarantine(id)], moment)
    requires Canonical in s.dirs && s.dirs[Canonical].owner.Some?
    ensures Leads(s, [Judge(p, moment), Restore(p)], end) && end == s.(procs := s.procs - {p})
  {
    hide IsStale;
    LeadsTwo(s, Judge(p, moment), Restore(p));
    end := Apply(Apply(s, Judge(p, moment)), Restore(p));
    assert s.procs[p := Judged(id, moment, false)] - {p} == s.procs - {p};
  }
}
