/** The asynchronous directory lock (clients/bounded-pid-file-lock.ts:8-173) as a step system:
    a caller that finds the lock taken looks at it, renames a stale one aside, inspects it again
    there, and removes it or puts it back. */
module QuarantineLock {
  import opened JsMap

  /** What `owner.json` holds; `createdAt` is None when it is missing or not a number. */
  datatype Owner = Owner(pid: int, createdAt: Option<int>, token: string)

  /** A lock directory, still without its `owner.json` when `owner` is None. `maker` is the token
      of the call that made it: which directory it is, whatever it records. */
  datatype Dir = Dir(owner: Option<Owner>, mtimeMs: int, maker: string)

  /** Quarantine names contain a token or a random id, so no two renames use the same one. */
  datatype Path = Canonical | Quarantine(id: nat)

  /** Clock, liveness of the recorded pid, and whether `stat` answers, when a lock is judged. */
  datatype Moment = Moment(now: int, alive: bool, statWorks: bool, staleMs: int)

  predicate OwnerIsStale(owner: Owner, m: Moment) {
    (owner.pid > 0 && !m.alive) || (owner.createdAt.Some? && m.now - owner.createdAt.value > m.staleMs)
  }

  predicate IsStale(d: Dir, m: Moment) {
    if d.owner.Some? then OwnerIsStale(d.owner.value, m) else m.statWorks && m.now - d.mtimeMs > m.staleMs
  }

  /** At the first look an unreadable lock is stale if its age is, or if it cannot be read either. */
  predicate LooksStale(d: Dir, m: Moment) {
    if d.owner.Some? then OwnerIsStale(d.owner.value, m) else !m.statWorks || m.now - d.mtimeMs > m.staleMs
  }

  datatype Proc =
    | Contending
    | Suspecting
    | Creating(owner: Owner)
    | Cleaning(token: string)
    | Holding(token: string)
    | Releasing(id: nat, token: string)
    | Checked(id: nat, token: string, own: bool)
    | Reclaiming(id: nat)
    | Judged(id: nat, moment: Moment, stale: bool)

  /** `used` and `tokens` are the random names drawn so far; `written` records for every token the
      maker of the directory its owner file was written into. */
  datatype System = System(
    dirs: map<Path, Dir>, procs: map<nat, Proc>, used: set<nat>, tokens: set<string>, written: map<string, string>)

  const EMPTY := System(map[], map[], {}, {}, map[])

  datatype Step =
    | MakeDir(p: nat, owner: Owner, mtimeMs: int)
    | WriteOwner(p: nat, mtimeMs: int)
    | FailWrite(p: nat)
    | CleanUp(p: nat, removed: bool)
    | Contend(p: nat)
    | Look(p: nat, moment: Moment)
    | ReleaseAside(p: nat, id: nat)
    | GiveUp(p: nat)
    | CheckToken(p: nat)
    | ReclaimAside(p: nat, id: nat)
    | Judge(p: nat, moment: Moment)
    | Remove(p: nat)
    | Restore(p: nat)
    | Crash(p: nat)

  predicate HasToken(d: Dir, token: string) { d.owner.Some? && d.owner.value.token == token }

  /** The quarantined directory a process is dealing with. */
  function Holds(proc: Proc): Option<nat> {
    match proc
    case Releasing(id, _) => Some(id)
    case Checked(id, _, _) => Some(id)
    case Reclaiming(id) => Some(id)
    case Judged(id, _, _) => Some(id)
    case _ => None
  }

  predicate Condemns(proc: Proc) { (proc.Checked? && proc.own) || (proc.Judged? && proc.stale) }

  /** A directory is renamed over an empty one, never over one with an owner. */
  predicate RenameWorks(s: System) { Canonical !in s.dirs || s.dirs[Canonical].owner.None? }

  predicate Enabled(s: System, step: Step) {
    match step
    case MakeDir(p, owner, _) => p !in s.procs && Canonical !in s.dirs && owner.token !in s.tokens
    case WriteOwner(p, _) => p in s.procs && s.procs[p].Creating? && Canonical in s.dirs
    case FailWrite(p) => p in s.procs && s.procs[p].Creating?
    case CleanUp(p, _) => p in s.procs && s.procs[p].Cleaning?
    case Contend(p) => p !in s.procs && Canonical in s.dirs
    case Look(p, _) => p in s.procs && s.procs[p].Contending?
    case ReleaseAside(p, id) => p in s.procs && s.procs[p].Holding? && Canonical in s.dirs && id !in s.used
    case GiveUp(p) => p in s.procs && s.procs[p].Holding?
    case CheckToken(p) => p in s.procs && s.procs[p].Releasing? && Quarantine(s.procs[p].id) in s.dirs
    case ReclaimAside(p, id) => p in s.procs && s.procs[p].Suspecting? && Canonical in s.dirs && id !in s.used
    case Judge(p, _) => p in s.procs && s.procs[p].Reclaiming? && Quarantine(s.procs[p].id) in s.dirs
    case Remove(p) => p in s.procs && Condemns(s.procs[p])
    case Restore(p) =>
      p in s.procs && (s.procs[p].Checked? || s.procs[p].Judged?) && !Condemns(s.procs[p])
        && Quarantine(s.procs[p].id) in s.dirs
    case Crash(p) => p in s.procs
  }

  function MoveDir(dirs: map<Path, Dir>, a: Path, b: Path): map<Path, Dir>
    requires a in dirs
  {
    (dirs - {a})[b := dirs[a]]
  }

  function Apply(s: System, step: Step): System
    requires Enabled(s, step)
  {
    match step
    case MakeDir(p, owner, mtimeMs) =>
      s.(dirs := s.dirs[Canonical := Dir(None, mtimeMs, owner.token)], procs := s.procs[p := Creating(owner)],
         tokens := s.tokens + {owner.token})
    case WriteOwner(p, mtimeMs) =>
      var owner, maker := s.procs[p].owner, s.dirs[Canonical].maker;
      s.(dirs := s.dirs[Canonical := Dir(Some(owner), mtimeMs, maker)], procs := s.procs[p := Holding(owner.token)],
         written := s.written[owner.token := maker])
    case FailWrite(p) => s.(procs := s.procs[p := Cleaning(s.procs[p].owner.token)])
    case CleanUp(p, removed) => s.(dirs := if removed then s.dirs - {Canonical} else s.dirs, procs := s.procs - {p})
    case Contend(p) => s.(procs := s.procs[p := Contending])
    case Look(p, moment) =>
      if Canonical in s.dirs && !LooksStale(s.dirs[Canonical], moment) then s.(procs := s.procs - {p})
      else s.(procs := s.procs[p := Suspecting])
    case ReleaseAside(p, id) =>
      s.(dirs := MoveDir(s.dirs, Canonical, Quarantine(id)), procs := s.procs[p := Releasing(id, s.procs[p].token)],
         used := s.used + {id})
    case GiveUp(p) => s.(procs := s.procs - {p})
    case CheckToken(p) =>
      var proc := s.procs[p];
      s.(procs := s.procs[p := Checked(proc.id, proc.token, HasToken(s.dirs[Quarantine(proc.id)], proc.token))])
    case ReclaimAside(p, id) =>
      s.(dirs := MoveDir(s.dirs, Canonical, Quarantine(id)), procs := s.procs[p := Reclaiming(id)],
        used := s.used + {id})
    case Judge(p, moment) =>
      var proc := s.procs[p];
      s.(procs := s.procs[p := Judged(proc.id, moment, IsStale(s.dirs[Quarantine(proc.id)], moment))])
    case Remove(p) => s.(dirs := s.dirs - {Quarantine(Holds(s.procs[p]).value)}, procs := s.procs - {p})
    case Restore(p) =>
      s.(dirs := if RenameWorks(s) then MoveDir(s.dirs, Quarantine(s.procs[p].id), Canonical)
        else s.dirs, procs := s.procs - {p})
    case Crash(p) => s.(procs := s.procs - {p})
  }

  // ---- what every run keeps ------------------------------------------------------

  /** What a process knows about its quarantined directory is still true of it. */
  predicate ProcFits(s: System, p: nat) {
    p in s.procs ==>
      var proc := s.procs[p];
      Holds(proc).Some? ==>
        && Holds(proc).value in s.used && Quarantine(Holds(proc).value) in s.dirs
        && (proc.Checked? ==> (proc.own <==> HasToken(s.dirs[Quarantine(proc.id)], proc.token)))
        && (proc.Judged? ==> (proc.stale <==> IsStale(s.dirs[Quarantine(proc.id)], proc.moment)))
  }

  predicate Apart(s: System, p: nat, q: nat) {
    p in s.procs && q in s.procs && p != q && Holds(s.procs[p]).Some? ==> Holds(s.procs[p]) != Holds(s.procs[q])
  }

  ghost predicate Valid(s: System) {
    && (forall p :: ProcFits(s, p))
    && (forall p, q :: Apart(s, p, q))
  }

  lemma StaysApart(s: System, step: Step, p: nat, q: nat)
    requires Valid(s) && Enabled(s, step)
    ensures Apart(Apply(s, step), p, q)
  {
    hide IsStale, HasToken;
    assert Apart(s, p, q) && Apart(s, q, p) && ProcFits(s, p) && ProcFits(s, q);
  }

  lemma StaysFit(s: System, step: Step, p: nat)
    requires Valid(s) && Enabled(s, step)
    ensures ProcFits(Apply(s, step), p)
  {
    hide IsStale, HasToken;
    assert ProcFits(s, p);
    assert ProcFits(s, step.p);
    assert Apart(s, p, step.p);
  }

  lemma StepKeepsValid(s: System, step: Step)
    requires Valid(s) && Enabled(s, step)
    ensures Valid(Apply(s, step))
  {
    hide Apply, ProcFits, Apart;
    forall p ensures ProcFits(Apply(s, step), p) { StaysFit(s, step, p); }
    forall p, q ensures Apart(Apply(s, step), p, q) { StaysApart(s, step, p, q); }
  }

  predicate IsRun(s: System, steps: seq<Step>)
    decreases |steps|
  {
    steps == [] || (Enabled(s, steps[0]) && IsRun(Apply(s, steps[0]), steps[1..]))
  }

  function After(s: System, steps: seq<Step>): System
    requires IsRun(s, steps)
    decreases |steps|
  {
    if steps == [] then s else After(Apply(s, steps[0]), steps[1..])
  }

  lemma {:induction false} RunKeepsValid(s: System, steps: seq<Step>)
    requires Valid(s) && IsRun(s, steps)
    ensures Valid(After(s, steps))
    decreases |steps|
  {
    hide Valid, Apply;
    if steps == [] {
    } else {
      StepKeepsValid(s, steps[0]);
      RunKeepsValid(Apply(s, steps[0]), steps[1..]);
    }
  }

  // ---- what a stale lock is ------------------------------------------------------

  /** A lock nobody can be holding any more: its recorded process is dead or its record too old;
      without a record, a directory that can be read and is too old. */
  predicate Abandoned(d: Dir, m: Moment) {
    match d.owner
    case Some(o) => (!m.alive && o.pid >= 1) || (o.createdAt.Some? && o.createdAt.value + m.staleMs < m.now)
    case None => m.statWorks && d.mtimeMs + m.staleMs < m.now
  }

  /** After the second look a caller will remove the lock exactly if it is abandoned; after the first
      one it goes on exactly if the lock is gone, abandoned, or cannot be read at all. */
  lemma LooksAre(s: System, p: nat, m: Moment)
    ensures Enabled(s, Judge(p, m)) ==>
              (Condemns(Apply(s, Judge(p, m)).procs[p]) <==> Abandoned(s.dirs[Quarantine(s.procs[p].id)], m))
    ensures Enabled(s, Look(p, m)) ==>
              var next := Apply(s, Look(p, m));
              && (Canonical !in s.dirs ==> next.procs == s.procs[p := Suspecting])
              && (Canonical in s.dirs ==>
                    var d := s.dirs[Canonical];
                    next.procs == if Abandoned(d, m) || (d.owner.None? && !m.statWorks) then s.procs[p := Suspecting]
                                  else s.procs - {p})
  {}

  // ---- removal -------------------------------------------------------------------

  /** In every run a directory is removed only by a release whose own token it carries, or after
      being renamed aside and judged stale as it still is. */
  lemma RemovalIsJustified(initial: System, steps: seq<Step>, p: nat)
    requires initial.procs == map[] && IsRun(initial, steps) && Enabled(After(initial, steps), Remove(p))
    ensures var s := After(initial, steps);
            var proc := s.procs[p];
            var path := Quarantine(Holds(proc).value);
            && path in s.dirs
            && (proc.Checked? ==> HasToken(s.dirs[path], proc.token))
            && (proc.Judged? ==> IsStale(s.dirs[path], proc.moment))
            && Apply(s, Remove(p)).dirs == s.dirs - {path}
  {
    hide IsStale, HasToken, Apart;
    NothingRunning(initial);
    RunKeepsValid(initial, steps);
    assert ProcFits(After(initial, steps), p);
  }

  /** So in every run no reclaimer removes the lock of a process that is alive and whose record is
      not too old, and no release removes a lock that does not carry its token. */
  lemma RemovalSparesHolders(initial: System, steps: seq<Step>, p: nat)
    requires initial.procs == map[] && IsRun(initial, steps) && Enabled(After(initial, steps), Remove(p))
    ensures var s := After(initial, steps);
            Holds(s.procs[p]).Some? && Quarantine(Holds(s.procs[p]).value) in s.dirs
    ensures var s := After(initial, steps);
            var proc, d := s.procs[p], s.dirs[Quarantine(Holds(s.procs[p]).value)];
            if proc.Judged? then Abandoned(d, proc.moment)
            else proc.Checked? && d.owner.Some? && d.owner.value.token == proc.token
  {
    hide IsRun, After;
    RemovalIsJustified(initial, steps, p);
  }

  lemma NothingRunning(s: System)
    requires s.procs == map[]
    ensures Valid(s)
  {}

  /** Some directory, wherever it is, records this owner. */
  predicate Recorded(s: System, owner: Owner) { exists path :: path in s.dirs && s.dirs[path].owner == Some(owner) }

  /** The directory a step takes away for good. */
  predicate Takes(s: System, step: Step, owner: Owner) {
    match step
    case Remove(p) =>
      p in s.procs && Holds(s.procs[p]).Some?
      && (var path := Quarantine(Holds(s.procs[p]).value);
          path in s.dirs && s.dirs[path].owner == Some(owner)
          && (s.procs[p].Checked? ==> owner.token == s.procs[p].token)
          && (s.procs[p].Judged? ==> OwnerIsStale(owner, s.procs[p].moment)))
    case WriteOwner(_, _) => Canonical in s.dirs && s.dirs[Canonical].owner == Some(owner)
    case CleanUp(_, removed) => removed && Canonical in s.dirs && s.dirs[Canonical].owner == Some(owner)
    case _ => false
  }

  /** The path of a directory after a step that keeps it. */
  function NewPath(s: System, step: Step, path: Path): Path
    requires Enabled(s, step)
  {
    match step
    case ReleaseAside(_, id) => if path == Canonical then Quarantine(id) else path
    case ReclaimAside(_, id) => if path == Canonical then Quarantine(id) else path
    case Restore(p) => if RenameWorks(s) && path == Quarantine(s.procs[p].id) then Canonical else path
    case _ => path
  }

  /** Quarantined names in use are never new ones. */
  ghost predicate UsedNames(s: System) { forall id :: Quarantine(id) in s.dirs ==> id in s.used }

  lemma StepKeepsNames(s: System, step: Step)
    requires UsedNames(s) && Enabled(s, step)
    ensures UsedNames(Apply(s, step))
  {}

  /** An owner's record survives every step but four: its own release, a reclaim that judged it
      stale, a late writer that overwrites it, and a creator that failed to write and cleans up. Renaming aside,
        restoring and crashing lose
      nothing; above all a restore never replaces a directory with an owner. */
  lemma RecordSurvives(s: System, step: Step, owner: Owner)
    requires Valid(s) && UsedNames(s) && Enabled(s, step) && Recorded(s, owner)
    ensures Recorded(Apply(s, step), owner) || Takes(s, step, owner)
  {
    hide OwnerIsStale;
    var path :| path in s.dirs && s.dirs[path].owner == Some(owner);
    var next := Apply(s, step);
    if step.Remove? {
      assert ProcFits(s, step.p);
      if path != Quarantine(Holds(s.procs[step.p]).value) { assert next.dirs[path] == s.dirs[path]; }
    } else if step.WriteOwner? || step.CleanUp? {
      if path != Canonical { assert next.dirs[path] == s.dirs[path]; }
    } else {
      var p := NewPath(s, step, path);
      assert p in next.dirs && next.dirs[p].owner == Some(owner);
    }
  }

  lemma {:induction false} RunSplits(s: System, steps: seq<Step>, n: nat)
    requires IsRun(s, steps) && n <= |steps|
    ensures IsRun(s, steps[..n]) && IsRun(After(s, steps[..n]), steps[n..])
    ensures After(s, steps) == After(After(s, steps[..n]), steps[n..])
    decreases |steps|
  {
    hide Enabled, Apply;
    if n == 0 {
      assert steps[..0] == [] && steps[0..] == steps;
    } else {
      RunSplits(Apply(s, steps[0]), steps[1..], n - 1);
      assert steps[..n][1..] == steps[1..][..n - 1] && steps[n..] == steps[1..][n - 1..];
    }
  }

  lemma {:induction false} LostOnTheWay(s: System, steps: seq<Step>, owner: Owner) returns (k: nat)
    requires Valid(s) && UsedNames(s) && IsRun(s, steps)
    requires Recorded(s, owner) && !Recorded(After(s, steps), owner)
    ensures k < |steps| && IsRun(s, steps[..k]) && Takes(After(s, steps[..k]), steps[k], owner)
    decreases |steps|
  {
    hide Valid, UsedNames, Apply, Enabled, Recorded, Takes;
    RecordSurvives(s, steps[0], owner);
    if Takes(s, steps[0], owner) {
      k := 0;
      assert steps[..0] == [];
    } else {
      StepKeepsValid(s, steps[0]);
      StepKeepsNames(s, steps[0]);
      var later := LostOnTheWay(Apply(s, steps[0]), steps[1..], owner);
      k := later + 1;
      assert steps[..k][1..] == steps[1..][..later];
    }
  }

  /** In every run: an owner's record that was there after `n` steps and is gone at the end was
      taken by one of the steps between, that is by its own release, by a reclaim that judged it
      stale, by a late writer, or by the clean-up of a creator that failed to write. */
  lemma LostRecordWasTaken(initial: System, steps: seq<Step>, n: nat, owner: Owner) returns (k: nat)
    requires initial.procs == map[] && UsedNames(initial) && IsRun(initial, steps) && n <= |steps|
    requires IsRun(initial, steps[..n]) && Recorded(After(initial, steps[..n]), owner)
    requires !Recorded(After(initial, steps), owner)
    ensures n <= k < |steps| && IsRun(initial, steps[..k]) && Takes(After(initial, steps[..k]), steps[k], owner)
  {
    hide Valid, UsedNames, Apply, Enabled, Recorded, Takes;
    NothingRunning(initial);
    RunSplits(initial, steps, n);
    RunKeepsValid(initial, steps[..n]);
    RunKeepsNames(initial, steps[..n]);
    var later := LostOnTheWay(After(initial, steps[..n]), steps[n..], owner);
    k := n + later;
    RunSplits(initial, steps, k);
    RunSplits(initial, steps[..k], n);
    assert steps[..k][..n] == steps[..n] && steps[..k][n..] == steps[n..][..later];
  }

  lemma {:induction false} RunKeepsNames(s: System, steps: seq<Step>)
    requires UsedNames(s) && IsRun(s, steps)
    ensures UsedNames(After(s, steps))
    decreases |steps|
  {
    hide UsedNames, Apply;
    if steps == [] {
    } else {
      StepKeepsNames(s, steps[0]);
      RunKeepsNames(Apply(s, steps[0]), steps[1..]);
    }
  }

  lemma RunCons(s: System, step: Step, rest: seq<Step>, next: System)
    requires Enabled(s, step) && next == Apply(s, step) && IsRun(next, rest)
    ensures IsRun(s, [step] + rest) && After(s, [step] + rest) == After(next, rest)
  {
    hide Enabled, Apply;
    assert ([step] + rest)[1..] == rest;
  }
}
