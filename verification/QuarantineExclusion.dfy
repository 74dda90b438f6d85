/** When the asynchronous directory lock excludes (clients/bounded-pid-file-lock.ts:89-173): exactly
    while no lock is renamed aside as stale that an active call has. */
module QuarantineExclusion {
  import opened JsMap
  import opened QuarantineLock

  // ---- calls that have, or are about to have, the lock ---------------------------

  /** The token of a call between its `mkdir` and the end of its ownership. */
  function ActiveToken(proc: Proc): Option<string> {
    match proc
    case Creating(owner) => Some(owner.token)
    case Cleaning(token) => Some(token)
    case Holding(token) => Some(token)
    case _ => None
  }

  predicate Active(s: System, p: nat) { p in s.procs && ActiveToken(s.procs[p]).Some? }

  predicate NoneActive(s: System) { forall p :: p in s.procs ==> ActiveToken(s.procs[p]).None? }

  predicate HoldsLock(s: System, p: nat) { p in s.procs && s.procs[p].Holding? }

  ghost predicate OneHolder(s: System) { forall p, q :: HoldsLock(s, p) && HoldsLock(s, q) ==> p == q }

  /** Nothing is running yet; what is on disk uses names that were drawn before. */
  ghost predicate Started(s: System) { s.procs == map[] && s.written == map[] && UsedNames(s) && KnownTokens(s) }

  ghost predicate KnownTokens(s: System) {
    forall path :: path in s.dirs ==>
      s.dirs[path].maker in s.tokens && (s.dirs[path].owner.Some? ==> s.dirs[path].owner.value.token in s.tokens)
  }

  // ---- the condition -------------------------------------------------------------

  /** No lock is renamed aside as stale while some call is active. */
  predicate Undisturbed(s: System, steps: seq<Step>)
    requires IsRun(s, steps)
    decreases |steps|
  {
    steps == [] || ((steps[0].ReclaimAside? ==> NoneActive(s)) && Undisturbed(Apply(s, steps[0]), steps[1..]))
  }

  /** At most one call is active; while one is, the lock exists, and it is that of the holder. */
  ghost predicate Exclusive(s: System) {
    && (forall p, q :: Active(s, p) && Active(s, q) ==> p == q)
    && (forall p :: Active(s, p) ==> Canonical in s.dirs)
    && (forall p :: HoldsLock(s, p) ==> Canonical in s.dirs && HasToken(s.dirs[Canonical], s.procs[p].token))
  }

  /** No directory that was renamed aside is the one an active call made. */
  ghost predicate NoneAside(s: System) {
    forall p, path :: Active(s, p) && path in s.dirs && path != Canonical ==>
      s.dirs[path].maker != ActiveToken(s.procs[p]).value
  }

  ghost predicate TokensDrawn(s: System) {
    forall p :: Active(s, p) ==> ActiveToken(s.procs[p]).value in s.tokens
  }

  /** Only `mkdir` makes a call active. */
  lemma WasActive(s: System, step: Step, p: nat)
    requires Enabled(s, step) && Active(Apply(s, step), p)
    ensures if step.MakeDir? && step.p == p then Canonical !in s.dirs
            && ActiveToken(Apply(s, step).procs[p]) == Some(step.owner.token)
            else Active(s, p) && ActiveToken(Apply(s, step).procs[p]) == ActiveToken(s.procs[p])
  {}

  lemma StepKeepsTokens(s: System, step: Step)
    requires KnownTokens(s) && TokensDrawn(s) && Enabled(s, step)
    ensures KnownTokens(Apply(s, step)) && TokensDrawn(Apply(s, step))
  {
    forall p | Active(Apply(s, step), p) ensures ActiveToken(Apply(s, step).procs[p]).value in Apply(s, step).tokens {
      WasActive(s, step, p);
    }
    if step.WriteOwner? { assert Active(s, step.p); }
  }

  /** What a step does to the lock when no active call but its own has it. */
  lemma LockStays(s: System, step: Step, p: nat)
    requires Exclusive(s) && Enabled(s, step) && (step.ReclaimAside? ==> NoneActive(s))
    requires Active(s, p) && Active(Apply(s, step), p)
    ensures Canonical in Apply(s, step).dirs
    ensures HoldsLock(Apply(s, step), p) ==> HasToken(Apply(s, step).dirs[Canonical], Apply(s, step).procs[p].token)
  {
    assert Active(s, step.p) ==> step.p == p;
    if HoldsLock(s, p) { assert HasToken(s.dirs[Canonical], s.procs[p].token); }
  }

  lemma StepKeepsExclusion(s: System, step: Step)
    requires Exclusive(s) && Enabled(s, step) && (step.ReclaimAside? ==> NoneActive(s))
    ensures Exclusive(Apply(s, step))
  {
    hide Enabled, Apply;
    var next := Apply(s, step);
    forall p, q | Active(next, p) && Active(next, q) ensures p == q {
      WasActive(s, step, p);
      WasActive(s, step, q);
    }
    forall p | Active(next, p)
      ensures Canonical in next.dirs && (HoldsLock(next, p) ==> HasToken(next.dirs[Canonical], next.procs[p].token))
    {
      WasActive(s, step, p);
      if step.MakeDir? && step.p == p { FreshLock(s, step); } else { LockStays(s, step, p); }
    }
    assert forall p :: HoldsLock(next, p) ==> Active(next, p);
  }

  lemma FreshLock(s: System, step: Step)
    requires Enabled(s, step) && step.MakeDir?
    ensures Canonical in Apply(s, step).dirs && Apply(s, step).procs[step.p].Creating?
  {}

  /** Directories that a step leaves or puts aside. */
  lemma AsideBefore(s: System, step: Step, path: Path)
    requires Enabled(s, step) && path in Apply(s, step).dirs && path != Canonical
    ensures if path in s.dirs then Apply(s, step).dirs[path].maker == s.dirs[path].maker || MovesAside(step)
            else MovesAside(step)
    ensures MovesAside(step) ==>
              && Canonical in s.dirs
              && (Apply(s, step).dirs[path].maker == s.dirs[Canonical].maker
                  || (path in s.dirs && Apply(s, step).dirs[path] == s.dirs[path]))
  {}

  predicate MovesAside(step: Step) { step.ReleaseAside? || step.ReclaimAside? }

  lemma StepKeepsAside(s: System, step: Step)
    requires Exclusive(s) && NoneAside(s) && KnownTokens(s) && Enabled(s, step)
             && (step.ReclaimAside? ==> NoneActive(s))
    ensures NoneAside(Apply(s, step))
  {
    hide Apply;
    var next := Apply(s, step);
    forall p, path | Active(next, p) && path in next.dirs && path != Canonical
      ensures next.dirs[path].maker != ActiveToken(next.procs[p]).value
    {
      WasActive(s, step, p);
      AsideBefore(s, step, path);
      if MovesAside(step) { NoneLeftActive(s, step, p); }
    }
  }

  /** Renaming aside leaves no call active: a release ends its own. */
  lemma NoneLeftActive(s: System, step: Step, p: nat)
    requires Exclusive(s) && Enabled(s, step) && MovesAside(step) && (step.ReclaimAside? ==> NoneActive(s))
    ensures !Active(Apply(s, step), p)
  {
    if step.ReleaseAside? { assert Active(s, step.p); }
    if Active(Apply(s, step), p) { WasActive(s, step, p); }
  }

  // ---- an undisturbed lock excludes ----------------------------------------------

  ghost predicate Kept(s: System) { Exclusive(s) && NoneAside(s) && KnownTokens(s) && TokensDrawn(s) }

  lemma {:induction false} KeptOn(s: System, steps: seq<Step>)
    requires Kept(s) && IsRun(s, steps) && Undisturbed(s, steps)
    ensures Kept(After(s, steps))
    decreases |steps|
  {
    hide Exclusive, NoneAside, KnownTokens, TokensDrawn, Enabled, Apply;
    if steps == [] {
    } else {
      StepKeepsExclusion(s, steps[0]);
      StepKeepsAside(s, steps[0]);
      StepKeepsTokens(s, steps[0]);
      KeptOn(Apply(s, steps[0]), steps[1..]);
    }
  }

  lemma StartIsKept(initial: System)
    requires Started(initial)
    ensures Kept(initial)
  {}

  /** Without a reclaim of an active call's lock, at most one call is active at any time, its
      lock exists, and it records the holder's token. */
  lemma UndisturbedExcludes(initial: System, steps: seq<Step>)
    requires Started(initial) && IsRun(initial, steps) && Undisturbed(initial, steps)
    ensures Exclusive(After(initial, steps)) && OneHolder(After(initial, steps))
  {
    hide Enabled, Apply, Started, NoneAside, KnownTokens, TokensDrawn;
    StartIsKept(initial);
    KeptOn(initial, steps);
    ExclusiveIsOne(After(initial, steps));
  }

  lemma ExclusiveIsOne(s: System)
    requires Exclusive(s)
    ensures OneHolder(s)
  {
    forall p, q | HoldsLock(s, p) && HoldsLock(s, q) ensures p == q { assert Active(s, p) && Active(s, q); }
  }

  // ---- a disturbed one need not --------------------------------------------------

  predicate NoReclaim(steps: seq<Step>) { forall i :: 0 <= i < |steps| ==> !steps[i].ReclaimAside? }

  /** A run together with where it ends. */
  predicate Leads(s: System, steps: seq<Step>, end: System) { IsRun(s, steps) && After(s, steps) == end }

  lemma {:induction false} LeadsOn(s: System, a: seq<Step>, middle: System, b: seq<Step>, end: System)
    requires Leads(s, a, middle) && Leads(middle, b, end)
    ensures Leads(s, a + b, end)
    decreases |a|
  {
    hide Enabled, Apply;
    if a == [] {
      assert a + b == b;
    } else {
      assert (a + b)[1..] == a[1..] + b;
      LeadsOn(Apply(s, a[0]), a[1..], middle, b, end);
    }
  }

  lemma LeadsOne(s: System, step: Step)
    requires Enabled(s, step)
    ensures Leads(s, [step], Apply(s, step))
  {
    hide Enabled, Apply;
    RunCons(s, step, [], Apply(s, step));
    assert [step] + [] == [step];
  }

  lemma LeadsTwo(s: System, one: Step, two: Step)
    requires Enabled(s, one) && Enabled(Apply(s, one), two)
    ensures Leads(s, [one, two], Apply(Apply(s, one), two))
  {
    hide Enabled, Apply;
    LeadsOne(s, one);
    LeadsOne(Apply(s, one), two);
    LeadsOn(s, [one], Apply(s, one), [two], Apply(Apply(s, one), two));
    assert [one] + [two] == [one, two];
  }

  lemma FreshCall(procs: map<nat, Proc>) returns (p: nat)
    ensures p !in procs
  {
    var keys := procs.Keys;
    p := Above(keys);
    assert p !in keys;
  }

  lemma {:induction false} Above(keys: set<nat>) returns (p: nat)
    ensures forall k :: k in keys ==> k < p
    decreases |keys|
  {
    if keys == {} {
      p := 0;
    } else {
      var k :| k in keys;
      var rest := Above(keys - {k});
      assert forall j :: j in keys ==> j == k || j in keys - {k};
      p := if rest > k then rest else k + 1;
    }
  }

  // ---- what the calls do, when nothing comes between -----------------------------

  function Taking(p: nat, owner: Owner, mtimeMs: int): seq<Step> { [MakeDir(p, owner, mtimeMs),
                  WriteOwner(p, mtimeMs)] }

  lemma TakesLock(s: System, p: nat, owner: Owner, mtimeMs: int) returns (end: System)
    requires p !in s.procs && Canonical !in s.dirs && owner.token !in s.tokens
    ensures Leads(s, Taking(p, owner, mtimeMs), end)
    ensures end == System(s.dirs[Canonical := Dir(Some(owner), mtimeMs, owner.token)],
            s.procs[p := Holding(owner.token)],
                          s.used, s.tokens + {owner.token}, s.written[owner.token := owner.token])
  {
    LeadsTwo(s, MakeDir(p, owner, mtimeMs), WriteOwner(p, mtimeMs));
    end := Apply(Apply(s, MakeDir(p, owner, mtimeMs)), WriteOwner(p, mtimeMs));
  }

  function Looking(p: nat, moment: Moment): seq<Step> { [Contend(p), Look(p, moment)] }

  lemma Suspects(s: System, p: nat, moment: Moment) returns (end: System)
    requires p !in s.procs && Canonical in s.dirs && LooksStale(s.dirs[Canonical], moment)
    ensures Leads(s, Looking(p, moment), end) && end == s.(procs := s.procs[p := Suspecting])
  {
    hide LooksStale;
    LeadsTwo(s, Contend(p), Look(p, moment));
    end := Apply(Apply(s, Contend(p)), Look(p, moment));
  }

  function Letting(p: nat, id: nat): seq<Step> { [ReleaseAside(p, id), CheckToken(p), Remove(p)] }

  lemma Releases(s: System, p: nat, id: nat) returns (end: System)
    requires HoldsLock(s, p) && Canonical in s.dirs && HasToken(s.dirs[Canonical], s.procs[p].token)
    requires id !in s.used && Quarantine(id) !in s.dirs
    ensures Leads(s, Letting(p, id), end)
    ensures end == s.(dirs := s.dirs - {Canonical}, procs := s.procs - {p}, used := s.used + {id})
  {
    var s1 := Apply(s, ReleaseAside(p, id));
    var s2 := Apply(s1, CheckToken(p));
    LeadsOne(s, ReleaseAside(p, id));
    LeadsTwo(s1, CheckToken(p), Remove(p));
    LeadsOn(s, [ReleaseAside(p, id)], s1, [CheckToken(p), Remove(p)], Apply(s2, Remove(p)));
    assert [ReleaseAside(p, id)] + [CheckToken(p), Remove(p)] == Letting(p, id);
    end := Apply(s2, Remove(p));
    assert end.dirs == s.dirs - {Canonical};
  }

  function Clearing(p: nat, id: nat, moment: Moment): seq<Step> { [ReclaimAside(p, id), Judge(p, moment), Remove(p)] }

  lemma Reclaims(s: System, p: nat, id: nat, moment: Moment) returns (end: System)
    requires p in s.procs && s.procs[p].Suspecting? && Canonical in s.dirs && IsStale(s.dirs[Canonical], moment)
    requires id !in s.used && Quarantine(id) !in s.dirs
    ensures Leads(s, Clearing(p, id, moment), end)
    ensures end == s.(dirs := s.dirs - {Canonical}, procs := s.procs - {p}, used := s.used + {id})
  {
    hide IsStale;
    var s1 := Apply(s, ReclaimAside(p, id));
    var s2 := Apply(s1, Judge(p, moment));
    LeadsOne(s, ReclaimAside(p, id));
    LeadsTwo(s1, Judge(p, moment), Remove(p));
    LeadsOn(s, [ReclaimAside(p, id)], s1, [Judge(p, moment), Remove(p)], Apply(s2, Remove(p)));
    assert [ReclaimAside(p, id)] + [Judge(p, moment), Remove(p)] == Clearing(p, id, moment);
    end := Apply(s2, Remove(p));
    assert end.dirs == s.dirs - {Canonical};
  }

  /** A new call takes a lock whose directory is gone. */
  lemma TakesFreeLock(s: System, owner: Owner) returns (p: nat, steps: seq<Step>, end: System)
    requires Canonical !in s.dirs && owner.token !in s.tokens
    ensures p !in s.procs && Leads(s, steps, end) && NoReclaim(steps)
    ensures end.procs == s.procs[p := Holding(owner.token)] && end.tokens == s.tokens + {owner.token}
    ensures end.dirs == s.dirs[Canonical := Dir(Some(owner), 0, owner.token)]
  {
    p := FreshCall(s.procs);
    steps := Taking(p, owner, 0);
    end := TakesLock(s, p, owner, 0);
  }

  /** Once the lock of an active call is renamed aside, two calls can come to hold it without any
      further reclaim. */
  lemma DisturbanceBreaks(s: System, p: nat, q: nat, id: nat, second: Owner, third: Owner)
    returns (more: seq<Step>, end: System)
    requires Enabled(s, ReclaimAside(q, id)) && Active(s, p)
    requires second.token !in s.tokens && third.token !in s.tokens && second.token != third.token
    ensures NoReclaim(more) && Leads(Apply(s, ReclaimAside(q, id)), more, end) && !OneHolder(end)
  {
    var s0 := Apply(s, ReclaimAside(q, id));
    assert s0.procs[p] == s.procs[p] && Canonical !in s0.dirs;
    var r, taking, s1 := TakesFreeLock(s0, second);
    match s.procs[p] {
      case Holding(_) =>
        more, end := taking, s1;
        assert HoldsLock(end, p) && HoldsLock(end, r);
      case Creating(_) =>
        LeadsOne(s1, WriteOwner(p, 0));
        more, end := taking + [WriteOwner(p, 0)], Apply(s1, WriteOwner(p, 0));
        LeadsOn(s0, taking, s1, [WriteOwner(p, 0)], end);
        assert HoldsLock(end, p) && HoldsLock(end, r);
      case Cleaning(_) =>
        LeadsOne(s1, CleanUp(p, true));
        var s2 := Apply(s1, CleanUp(p, true));
        LeadsOn(s0, taking, s1, [CleanUp(p, true)], s2);
        var t, again, s3 := TakesFreeLock(s2, third);
        more, end := taking + [CleanUp(p, true)] + again, s3;
        LeadsOn(s0, taking + [CleanUp(p, true)], s2, again, s3);
        assert HoldsLock(end, r) && HoldsLock(end, t);
    }
  }

  // ---- exactly when the lock excludes --------------------------------------------

  /** However the calls go on from here, as long as nothing more is reclaimed, one holds the lock
      at most. */
  ghost predicate Safe(s: System) {
    forall more: seq<Step> :: IsRun(s, more) && NoReclaim(more) ==> OneHolder(After(s, more))
  }

  ghost predicate SafeThroughout(initial: System, steps: seq<Step>) {
    forall n :: 0 <= n <= |steps| ==> IsRun(initial, steps[..n]) && Safe(After(initial, steps[..n]))
  }

  lemma {:induction false} NoReclaimIsUndisturbed(s: System, more: seq<Step>)
    requires IsRun(s, more) && NoReclaim(more)
    ensures Undisturbed(s, more)
    decreases |more|
  {
    hide Enabled, Apply;
    if more == [] {
    } else {
      assert forall i :: 0 <= i < |more[1..]| ==> more[1..][i] == more[i + 1];
      NoReclaimIsUndisturbed(Apply(s, more[0]), more[1..]);
    }
  }

  lemma {:induction false} UndisturbedSplits(s: System, steps: seq<Step>, n: nat)
    requires IsRun(s, steps) && Undisturbed(s, steps) && n <= |steps|
    ensures IsRun(s, steps[..n]) && Undisturbed(s, steps[..n])
    decreases |steps|
  {
    hide Enabled, Apply;
    if n == 0 {
      assert steps[..0] == [];
    } else {
      UndisturbedSplits(Apply(s, steps[0]), steps[1..], n - 1);
      assert steps[..n][1..] == steps[1..][..n - 1];
    }
  }

  /** The first disturbance of a run. */
  lemma {:induction false} FirstDisturbance(s: System, steps: seq<Step>) returns (k: nat, p: nat)
    requires IsRun(s, steps) && !Undisturbed(s, steps)
    ensures k < |steps| && IsRun(s, steps[..k]) && Enabled(After(s, steps[..k]), steps[k])
    ensures IsRun(s, steps[..k + 1]) && After(s, steps[..k + 1]) == Apply(After(s, steps[..k]), steps[k])
    ensures steps[k].ReclaimAside? && Active(After(s, steps[..k]), p)
    decreases |steps|
  {
    hide Enabled, Apply;
    if steps[0].ReclaimAside? && !NoneActive(s) {
      k := 0;
      p :| p in s.procs && ActiveToken(s.procs[p]).Some?;
      assert steps[..0] == [];
      LeadsOne(s, steps[0]);
      assert steps[..1] == [steps[0]];
    } else {
      var later, q := FirstDisturbance(Apply(s, steps[0]), steps[1..]);
      k, p := later + 1, q;
      assert steps[..k][1..] == steps[1..][..later] && steps[..k + 1][1..] == steps[1..][..later + 1];
    }
  }

  lemma FreshToken(tokens: set<string>) returns (token: string)
    ensures token !in tokens
  {
    var n := LongerThan(tokens);
    token := seq(n, i => 'x');
    assert |token| == n;
  }

  lemma {:induction false} LongerThan(tokens: set<string>) returns (n: nat)
    ensures forall t :: t in tokens ==> |t| < n
    decreases |tokens|
  {
    if tokens == {} {
      n := 0;
    } else {
      var t :| t in tokens;
      var rest := LongerThan(tokens - {t});
      assert forall u :: u in tokens ==> u == t || u in tokens - {t};
      n := if rest > |t| then rest else |t| + 1;
    }
  }

  lemma SafeWhenKept(s: System)
    requires Kept(s)
    ensures Safe(s)
  {
    hide Exclusive, NoneAside, KnownTokens, TokensDrawn, Enabled, Apply, OneHolder;
    forall more: seq<Step> | IsRun(s, more) && NoReclaim(more) ensures OneHolder(After(s, more)) {
      NoReclaimIsUndisturbed(s, more);
      KeptOn(s, more);
      ExclusiveIsOne(After(s, more));
    }
  }

  lemma DisturbedIsUnsafe(s: System, q: nat, id: nat, p: nat)
    requires Enabled(s, ReclaimAside(q, id)) && Active(s, p)
    ensures !Safe(Apply(s, ReclaimAside(q, id)))
  {
    hide Enabled, Apply, OneHolder;
    var t := FreshToken(s.tokens);
    var u := FreshToken(s.tokens + {t});
    var more, end := DisturbanceBreaks(s, p, q, id, Owner(1, None, t), Owner(1, None, u));
  }

  /** The exact condition of exclusion. A run keeps the lock safe throughout, so that two calls
      can never hold it at once whatever follows short of another reclaim, if and only if no
      step of it renames the lock aside as stale while some call is active: between its own
      `mkdir` and the end of its ownership. */
  lemma ExclusionIff(initial: System, steps: seq<Step>)
    requires Started(initial) && IsRun(initial, steps)
    ensures Undisturbed(initial, steps) <==> SafeThroughout(initial, steps)
  {
    hide Enabled, Apply, Started, Safe, Exclusive, NoneAside, KnownTokens, TokensDrawn, Active;
    if Undisturbed(initial, steps) {
      forall n | 0 <= n <= |steps| ensures IsRun(initial, steps[..n]) && Safe(After(initial, steps[..n])) {
        UndisturbedSplits(initial, steps, n);
        StartIsKept(initial);
        KeptOn(initial, steps[..n]);
        SafeWhenKept(After(initial, steps[..n]));
      }
    } else {
      var k, p := FirstDisturbance(initial, steps);
      DisturbedIsUnsafe(After(initial, steps[..k]), steps[k].p, steps[k].id, p);
      assert !Safe(After(initial, steps[..k + 1]));
    }
  }
}
