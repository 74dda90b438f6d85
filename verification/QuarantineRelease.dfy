/** When a late owner of the asynchronous directory lock deletes the lock that replaced its own
    (clients/bounded-pid-file-lock.ts:47-76, 115-145, 175-178). */
module QuarantineRelease {
  import opened JsMap
  import opened QuarantineLock
  import opened QuarantineExclusion

  // ---- what a release removes ----------------------------------------------------

  /** The token of a call that has written its owner file. */
  function OwnerToken(proc: Proc): Option<string> {
    match proc
    case Holding(token) => Some(token)
    case Releasing(_, token) => Some(token)
    case Checked(_, token, _) => Some(token)
    case _ => None
  }

  /** A call that is still creating has written nothing, and nobody else has its token. */
  predicate Unwritten(s: System, p: nat) {
    p in s.procs && s.procs[p].Creating? ==>
      var token := s.procs[p].owner.token;
      && token in s.tokens && token !in s.written
      && (forall path :: path in s.dirs && s.dirs[path].owner.Some? ==> s.dirs[path].owner.value.token != token)
      && (forall q :: q in s.procs && q != p && s.procs[q].Creating? ==> s.procs[q].owner.token != token)
  }

  /** A directory that records a token is the one the token was written into. */
  predicate RecordFits(s: System, path: Path) {
    path in s.dirs && s.dirs[path].owner.Some? && s.dirs[path].owner.value.token in s.written ==>
      s.written[s.dirs[path].owner.value.token] == s.dirs[path].maker
  }

  predicate OwnerWrote(s: System, p: nat) {
    p in s.procs && OwnerToken(s.procs[p]).Some? ==> OwnerToken(s.procs[p]).value in s.written
  }

  ghost predicate Documented(s: System) {
    && (forall p :: Unwritten(s, p)) && (forall path :: RecordFits(s, path)) && (forall p :: OwnerWrote(s, p))
    && KnownTokens(s) && (forall token :: token in s.written ==> token in s.tokens)
  }

  lemma StaysUnwritten(s: System, step: Step, p: nat)
    requires Documented(s) && Enabled(s, step)
    ensures Unwritten(Apply(s, step), p)
  {
    assert Unwritten(s, p) && Unwritten(s, step.p);
    var next := Apply(s, step);
    forall q | q in next.procs && q != p && next.procs[q].Creating? && p in next.procs && next.procs[p].Creating?
      ensures next.procs[q].owner.token != next.procs[p].owner.token
    {
      assert Unwritten(s, q);
    }
  }

  lemma RecordStaysFit(s: System, step: Step, path: Path)
    requires Documented(s) && Enabled(s, step)
    ensures RecordFits(Apply(s, step), path)
  {
    assert RecordFits(s, path) && RecordFits(s, Canonical) && Unwritten(s, step.p);
    if step.Restore? { assert RecordFits(s, Quarantine(s.procs[step.p].id)); }
  }

  lemma StepKeepsDocumented(s: System, step: Step)
    requires Documented(s) && Enabled(s, step)
    ensures Documented(Apply(s, step))
  {
    hide Enabled, Apply, Unwritten, RecordFits, OwnerWrote;
    forall p ensures Unwritten(Apply(s, step), p) { StaysUnwritten(s, step, p); }
    forall path ensures RecordFits(Apply(s, step), path) { RecordStaysFit(s, step, path); }
    forall p ensures OwnerWrote(Apply(s, step), p) { OwnerStillWrote(s, step, p); }
    StepKeepsNamesKnown(s, step);
  }

  lemma OwnerStillWrote(s: System, step: Step, p: nat)
    requires Documented(s) && Enabled(s, step)
    ensures OwnerWrote(Apply(s, step), p)
  {
    assert OwnerWrote(s, p);
  }

  lemma StepKeepsNamesKnown(s: System, step: Step)
    requires Documented(s) && Enabled(s, step)
    ensures KnownTokens(Apply(s, step)) && forall token :: token in Apply(s, step).written ==>
            token in Apply(s, step).tokens
  {
    assert Unwritten(s, step.p);
  }

  lemma {:induction false} RunKeepsDocumented(s: System, steps: seq<Step>)
    requires Documented(s) && IsRun(s, steps)
    ensures Documented(After(s, steps))
    decreases |steps|
  {
    hide Documented, Enabled, Apply;
    if steps == [] {
    } else {
      StepKeepsDocumented(s, steps[0]);
      RunKeepsDocumented(Apply(s, steps[0]), steps[1..]);
    }
  }

  lemma StartIsDocumented(initial: System)
    requires Started(initial)
    ensures Documented(initial)
  {}

  /** In every run: the directory a release removes is the one its owner file was written into. */
  lemma ReleaseRemovesWritten(initial: System, steps: seq<Step>, p: nat)
    requires Started(initial) && IsRun(initial, steps)
    requires Enabled(After(initial, steps), Remove(p)) && After(initial, steps).procs[p].Checked?
    ensures var s := After(initial, steps);
            var id, token := s.procs[p].id, s.procs[p].token;
            && Quarantine(id) in s.dirs && HasToken(s.dirs[Quarantine(id)], token) && token in s.written
            && s.dirs[Quarantine(id)].maker == s.written[token]
            && Apply(s, Remove(p)).dirs == s.dirs - {Quarantine(id)}
  {
    hide IsStale, Unwritten, Apart;
    RemovalIsJustified(initial, steps, p);
    StartIsDocumented(initial);
    RunKeepsDocumented(initial, steps);
    var s := After(initial, steps);
    assert RecordFits(s, Quarantine(s.procs[p].id)) && OwnerWrote(s, p);
  }

  /** The step writes the owner file of this token into a directory another call made. */
  predicate WritesForeign(s: System, step: Step, token: string) {
    && step.WriteOwner? && step.p in s.procs && s.procs[step.p].Creating? && s.procs[step.p].owner.token == token
    && Canonical in s.dirs && s.dirs[Canonical].maker != token
  }

  ghost predicate WroteForeign(initial: System, steps: seq<Step>, token: string) {
    exists k :: 0 <= k < |steps| && IsRun(initial, steps[..k])
      && WritesForeign(After(initial, steps[..k]), steps[k], token)
  }

  lemma WrittenOnce(s: System, step: Step, token: string)
    requires Documented(s) && Enabled(s, step) && token in s.written
    ensures token in Apply(s, step).written && Apply(s, step).written[token] == s.written[token]
  {
    assert Unwritten(s, step.p);
  }

  lemma {:induction false} WrittenStays(s: System, steps: seq<Step>, token: string)
    requires Documented(s) && IsRun(s, steps) && token in s.written
    ensures token in After(s, steps).written && After(s, steps).written[token] == s.written[token]
    decreases |steps|
  {
    hide Documented, Enabled, Apply;
    if steps == [] {
    } else {
      WrittenOnce(s, steps[0], token);
      StepKeepsDocumented(s, steps[0]);
      WrittenStays(Apply(s, steps[0]), steps[1..], token);
    }
  }

  lemma WritesNow(s: System, step: Step, token: string)
    requires Enabled(s, step) && token !in s.written && token in Apply(s, step).written
    ensures WritesForeign(s, step, token) <==> Apply(s, step).written[token] != token
  {}

  /** A run wrote a token into a foreign directory exactly if its last entry says so. */
  lemma {:induction false} ForeignEntry(s: System, steps: seq<Step>, token: string)
    requires Documented(s) && IsRun(s, steps) && token !in s.written && token in After(s, steps).written
    ensures WroteForeign(s, steps, token) <==> After(s, steps).written[token] != token
    decreases |steps|
  {
    hide Documented, Enabled, Apply, WritesForeign;
    var next, rest := Apply(s, steps[0]), steps[1..];
    StepKeepsDocumented(s, steps[0]);
    if token in next.written {
      WritesNow(s, steps[0], token);
      WrittenStays(next, rest, token);
      NothingForeignLater(next, rest, token);
    } else {
      ForeignEntry(next, rest, token);
      NotForeignNow(s, steps[0], token);
    }
    WroteForeignCons(s, steps, token);
  }

  lemma NotForeignNow(s: System, step: Step, token: string)
    requires Enabled(s, step) && token !in Apply(s, step).written
    ensures !WritesForeign(s, step, token)
  {}

  lemma NothingForeignLater(s: System, steps: seq<Step>, token: string)
    requires Documented(s) && IsRun(s, steps) && token in s.written
    ensures !WroteForeign(s, steps, token)
  {
    hide Enabled, Apply;
    forall k | 0 <= k < |steps| && IsRun(s, steps[..k]) ensures !WritesForeign(After(s, steps[..k]), steps[k], token) {
      RunKeepsDocumented(s, steps[..k]);
      WrittenStays(s, steps[..k], token);
      assert Unwritten(After(s, steps[..k]), steps[k].p);
    }
  }

  lemma WroteForeignCons(s: System, steps: seq<Step>, token: string)
    requires IsRun(s, steps) && steps != []
    ensures WroteForeign(s, steps, token)
            <==> WritesForeign(s, steps[0], token) || WroteForeign(Apply(s, steps[0]), steps[1..], token)
  {
    hide Enabled, Apply, WritesForeign;
    var next, rest := Apply(s, steps[0]), steps[1..];
    assert steps[..0] == [];
    if k :| 0 <= k < |steps| && IsRun(s, steps[..k]) && WritesForeign(After(s, steps[..k]), steps[k], token) {
      if k > 0 { assert steps[..k][1..] == rest[..k - 1] && steps[k] == rest[k - 1]; }
    }
    if k :| 0 <= k < |rest| && IsRun(next, rest[..k]) && WritesForeign(After(next, rest[..k]), rest[k], token) {
      assert steps[..k + 1][1..] == rest[..k] && steps[k + 1] == rest[k];
      assert IsRun(s, steps[..k + 1]);
    }
  }

  /** The exact condition of a late owner deleting its replacement: in every run a release removes
      a directory that another call made if and only if its own call had written its owner file
      into a directory that another call made. */
  lemma LateReleaseDeletesIff(initial: System, steps: seq<Step>, p: nat)
    requires Started(initial) && IsRun(initial, steps)
    requires Enabled(After(initial, steps), Remove(p)) && After(initial, steps).procs[p].Checked?
    ensures var s := After(initial, steps);
            var path, token := Quarantine(s.procs[p].id), s.procs[p].token;
            && path in s.dirs && Apply(s, Remove(p)).dirs == s.dirs - {path}
            && (s.dirs[path].maker != token <==> WroteForeign(initial, steps, token))
  {
    hide Documented, Apply, WroteForeign;
    ReleaseRemovesWritten(initial, steps, p);
    StartIsDocumented(initial);
    ForeignEntry(initial, steps, After(initial, steps).procs[p].token);
  }

  /** Conversely a call that writes into another's directory deletes that directory when it
      releases, whoever holds it. */
  lemma ForeignWriteDeletes(s: System, p: nat, mtimeMs: int, id: nat) returns (end: System)
    requires Enabled(s, WriteOwner(p, mtimeMs)) && id !in s.used && Quarantine(id) !in s.dirs
    ensures Leads(s, [WriteOwner(p, mtimeMs)] + Letting(p, id), end)
    ensures end.dirs == s.dirs - {Canonical} && end.procs == s.procs - {p}
    ensures end.written == s.written[s.procs[p].owner.token := s.dirs[Canonical].maker]
  {
    var s1 := Apply(s, WriteOwner(p, mtimeMs));
    LeadsOne(s, WriteOwner(p, mtimeMs));
    end := Releases(s1, p, id);
    LeadsOn(s, [WriteOwner(p, mtimeMs)], s1, Letting(p, id), end);
  }

  /** The directory a step takes away, at release, at a reclaim, or when a failed creator cleans up. */
  function Removed(s: System, step: Step): Option<Path> {
    match step
    case Remove(p) => if p in s.procs && Holds(s.procs[p]).Some? then Some(Quarantine(Holds(s.procs[p]).value))
      else None
    case CleanUp(_, removed) => if removed then Some(Canonical) else None
    case _ => None
  }

  /** While no active call's lock is reclaimed, nobody deletes the lock of another active call:
      neither a late owner, nor a reclaimer, nor a creator that failed. */
  lemma NoReplacementDeleted(initial: System, steps: seq<Step>, step: Step, q: nat)
    requires Started(initial) && IsRun(initial, steps) && Undisturbed(initial, steps)
    requires Enabled(After(initial, steps), step) && Active(After(initial, steps), q) && q != step.p
    ensures var s := After(initial, steps);
            Removed(s, step).Some? && Removed(s, step).value in s.dirs ==>
              && Removed(s, step).value != Canonical
              && s.dirs[Removed(s, step).value].maker != ActiveToken(s.procs[q]).value
  {
    hide Started, KnownTokens, TokensDrawn;
    StartIsKept(initial);
    KeptOn(initial, steps);
    var s := After(initial, steps);
    assert step.CleanUp? ==> Active(s, step.p);
  }
}
