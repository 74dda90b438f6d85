/** Tear-free publication (clients/atomic-write.ts:166-216): write calls of any number of
    processes and threads, interleaved step by step with crashes and with sweepers that check
    an owner's liveness first and remove its file later. A rename is one step. */
module AtomicWrite {
  import opened JsMap
  import opened Text
  import opened StagingNames

  /** A call is named by its process, its thread and the thread's counter. */
  datatype CallId = CallId(pid: nat, thread: nat, seqNo: nat)

  datatype Phase = Writing | Staged | Failed

  datatype Call = Call(target: string, data: string, phase: Phase)

  /** `condemned` are the files a sweeper found orphaned and has yet to remove; `offered`
      records every call ever begun, as (target, data). */
  datatype System = System(
    files: map<string, string>, live: set<nat>, counters: map<(nat, nat), nat>,
    calls: map<CallId, Call>, condemned: set<string>, offered: set<(string, string)>)

  datatype Step =
    | Spawn(pid: nat)
    | Crash(pid: nat)
    | Begin(pid: nat, thread: nat, target: string, data: string)
    | WritePart(id: CallId, length: nat)
    | FinishWrite(id: CallId)
    | Publish(id: CallId)
    | Fail(id: CallId)
    | Cleanup(id: CallId, removed: bool)
    | Condemn(path: string)
    | Reap(path: string, removed: bool)

  function StageOf(id: CallId, call: Call): string { StagePath(call.target, id.pid, id.thread, id.seqNo) }

  function NextSeq(s: System, pid: nat, thread: nat): nat {
    if (pid, thread) in s.counters then s.counters[(pid, thread)] else 0
  }

  function OwnerOf(path: string): Option<nat> { StageOwnerPid(path) }

  predicate InPhase(s: System, id: CallId, phase: Phase) { id in s.calls && s.calls[id].phase == phase }

  /** A process id is not recycled while a sweeper is about to remove one of its files. */
  predicate Enabled(s: System, step: Step) {
    match step
    case Spawn(pid) => 0 < pid <= MAX_SAFE_INTEGER && pid !in s.live && forall p :: p in s.condemned ==>
      OwnerOf(p) != Some(pid)
    case Crash(pid) => pid in s.live
    case Begin(pid, _, _, _) => pid in s.live
    case WritePart(id, length) => InPhase(s, id, Writing) && length <= |s.calls[id].data|
    case FinishWrite(id) => InPhase(s, id, Writing)
    case Publish(id) => InPhase(s, id, Staged) && StageOf(id, s.calls[id]) in s.files
    case Fail(id) => id in s.calls && s.calls[id].phase != Failed
    case Cleanup(id, _) => InPhase(s, id, Failed)
    case Condemn(path) => path in s.files && OwnerOf(path).Some? && OwnerOf(path).value !in s.live
    case Reap(path, _) => path in s.condemned
  }

  function Apply(s: System, step: Step): System
    requires Enabled(s, step)
  {
    match step
    case Spawn(pid) => s.(live := s.live + {pid}, counters := map k | k in s.counters && k.0 != pid :: s.counters[k])
    case Crash(pid) => s.(live := s.live - {pid}, calls := map id | id in s.calls && id.pid != pid :: s.calls[id])
    case Begin(pid, thread, target, data) =>
      var seqNo := NextSeq(s, pid, thread);
      s.(calls := s.calls[CallId(pid, thread, seqNo) := Call(target, data, Writing)],
         counters := s.counters[(pid, thread) := seqNo + 1], offered := s.offered + {(target, data)})
    case WritePart(id, length) =>
      s.(files := s.files[StageOf(id, s.calls[id]) := s.calls[id].data[..length]])
    case FinishWrite(id) =>
      s.(files := s.files[StageOf(id, s.calls[id]) := s.calls[id].data],
        calls := s.calls[id := s.calls[id].(phase := Staged)])
    case Publish(id) =>
      var call := s.calls[id];
      var stage := StageOf(id, call);
      s.(files := (s.files - {stage})[call.target := s.files[stage]], calls := s.calls - {id})
    case Fail(id) => s.(calls := s.calls[id := s.calls[id].(phase := Failed)])
    case Cleanup(id, removed) =>
      s.(files := if removed then s.files - {StageOf(id, s.calls[id])} else s.files, calls := s.calls - {id})
    case Condemn(path) => s.(condemned := s.condemned + {path})
    case Reap(path, removed) =>
      s.(files := if removed then s.files - {path} else s.files, condemned := s.condemned - {path})
  }

  function FileAt(s: System, path: string): Option<string> {
    if path in s.files then Some(s.files[path]) else None
  }

  /** The call that takes the step, if it is a call's. */
  predicate IsStepOf(step: Step, id: CallId) {
    match step
    case WritePart(i, _) => i == id
    case FinishWrite(i) => i == id
    case Publish(i) => i == id
    case Fail(i) => i == id
    case Cleanup(i, _) => i == id
    case _ => false
  }

  /** The paths a step writes, replaces or removes. */
  function Touched(s: System, step: Step): set<string>
    requires Enabled(s, step)
  {
    match step
    case WritePart(id, _) => {StageOf(id, s.calls[id])}
    case FinishWrite(id) => {StageOf(id, s.calls[id])}
    case Publish(id) => {StageOf(id, s.calls[id]), s.calls[id].target}
    case Cleanup(id, removed) => if removed then {StageOf(id, s.calls[id])} else {}
    case Reap(path, removed) => if removed then {path} else {}
    case _ => {}
  }

  lemma UntouchedIsUnchanged(s: System, step: Step, path: string)
    requires Enabled(s, step) && path !in Touched(s, step)
    ensures FileAt(Apply(s, step), path) == FileAt(s, path)
  {}

  // ---- what every run keeps ------------------------------------------------------

  predicate CallFits(s: System, id: CallId) {
    id in s.calls ==>
      id.pid in s.live && id.seqNo < NextSeq(s, id.pid, id.thread)
        && (s.calls[id].target, s.calls[id].data) in s.offered
  }

  predicate CondemnedFits(s: System, path: string) {
    path in s.condemned ==> OwnerOf(path).Some? && OwnerOf(path).value !in s.live
  }

  ghost predicate Valid(s: System) {
    && (forall pid :: pid in s.live ==> 0 < pid <= MAX_SAFE_INTEGER)
    && (forall id :: CallFits(s, id))
    && (forall path :: CondemnedFits(s, path))
  }

  /** No process is running and no sweep is under way. */
  predicate Quiet(s: System) { s.live == {} && s.calls == map[] && s.condemned == {} }

  lemma CallStaysFit(s: System, step: Step, id: CallId)
    requires Enabled(s, step) && Valid(s)
    ensures CallFits(Apply(s, step), id)
  {
    assert CallFits(s, id);
  }

  lemma CondemnedStaysFit(s: System, step: Step, path: string)
    requires Enabled(s, step) && Valid(s)
    ensures CondemnedFits(Apply(s, step), path)
  {
    assert CondemnedFits(s, path);
  }

  lemma StepKeepsValid(s: System, step: Step)
    requires Enabled(s, step) && Valid(s)
    ensures Valid(Apply(s, step))
  {
    var t := Apply(s, step);
    forall id ensures CallFits(t, id) { CallStaysFit(s, step, id); }
    forall path ensures CondemnedFits(t, path) { CondemnedStaysFit(s, step, path); }
    assert forall pid :: pid in t.live ==> pid in s.live || step == Spawn(pid);
  }

  // ---- who can touch a staging file ----------------------------------------------

  lemma StageOwner(s: System, id: CallId)
    requires Valid(s) && id in s.calls
    ensures OwnerOf(StageOf(id, s.calls[id])) == Some(id.pid) && id.pid in s.live
  {
    assert CallFits(s, id);
    OwnerReadsBack(s.calls[id].target, id.pid, id.thread, id.seqNo);
  }

  lemma StagesDiffer(s: System, a: CallId, b: CallId)
    requires a in s.calls && b in s.calls && a != b
    ensures StageOf(a, s.calls[a]) != StageOf(b, s.calls[b])
  {
    if StageOf(a, s.calls[a]) == StageOf(b, s.calls[b]) {
      StagePathInjective(s.calls[a].target, a.pid, a.thread, a.seqNo, s.calls[b].target, b.pid, b.thread, b.seqNo);
    }
  }

  /** A step that is not the call's own touches its staging file exactly when it publishes
      another call whose target has that very name. */
  lemma ForeignTouchIff(s: System, step: Step, id: CallId)
    requires Valid(s) && Enabled(s, step) && id in s.calls && !IsStepOf(step, id)
    ensures StageOf(id, s.calls[id]) in Touched(s, step)
            <==> step.Publish? && s.calls[step.id].target == StageOf(id, s.calls[id])
  {
    StageOwner(s, id);
    match step {
      case WritePart(other, _) => StagesDiffer(s, id, other);
      case FinishWrite(other) => StagesDiffer(s, id, other);
      case Publish(other) => StagesDiffer(s, id, other);
      case Cleanup(other, _) => StagesDiffer(s, id, other);
      case Reap(path, _) => assert CondemnedFits(s, path);
      case _ =>
    }
  }

  // ---- tear-free publication -----------------------------------------------------

  /** No target looks like a staging file. */
  predicate PlainTarget(target: string) { OwnerOf(target) == None }

  predicate StagedIsComplete(s: System, id: CallId) {
    id in s.calls ==>
      PlainTarget(s.calls[id].target)
      && (s.calls[id].phase == Staged ==> FileAt(s, StageOf(id, s.calls[id])) == Some(s.calls[id].data))
  }

  ghost predicate AllComplete(s: System) { forall id :: StagedIsComplete(s, id) }

  predicate PlainStep(step: Step) { step.Begin? ==> PlainTarget(step.target) }

  lemma CompleteKept(s: System, step: Step, id: CallId)
    requires Valid(s) && AllComplete(s) && Enabled(s, step) && PlainStep(step)
    ensures StagedIsComplete(Apply(s, step), id)
  {
    var t := Apply(s, step);
    if id in t.calls && id in s.calls && !IsStepOf(step, id)
      && !(step.Begin? && CallId(step.pid, step.thread, NextSeq(s, step.pid, step.thread)) == id) {
      assert StagedIsComplete(s, id);
      assert t.calls[id] == s.calls[id];
      StageOwner(s, id);
      ForeignTouchIff(s, step, id);
      if step.Publish? { assert StagedIsComplete(s, step.id); }
      UntouchedIsUnchanged(s, step, StageOf(id, s.calls[id]));
    } else if id in s.calls {
      assert StagedIsComplete(s, id);
    }
  }

  lemma StepKeepsComplete(s: System, step: Step)
    requires Valid(s) && AllComplete(s) && Enabled(s, step) && PlainStep(step)
    ensures AllComplete(Apply(s, step))
  {
    forall id ensures StagedIsComplete(Apply(s, step), id) { CompleteKept(s, step, id); }
  }

  /** The only step that changes a plainly named file is a publication to it, which installs
      the complete data of that call. */
  lemma ChangeIsPublication(s: System, step: Step, path: string)
    requires Valid(s) && AllComplete(s) && Enabled(s, step) && PlainTarget(path)
    ensures FileAt(Apply(s, step), path)
            == if step.Publish? && s.calls[step.id].target == path then Some(s.calls[step.id].data) else FileAt(s, path)
  {
    match step {
      case WritePart(id, _) => StageOwner(s, id);
      case FinishWrite(id) => StageOwner(s, id);
      case Publish(id) => StageOwner(s, id); assert StagedIsComplete(s, id);
      case Cleanup(id, _) => StageOwner(s, id);
      case Reap(doomed, _) => assert CondemnedFits(s, doomed);
      case _ =>
    }
    if !(step.Publish? && s.calls[step.id].target == path) { UntouchedIsUnchanged(s, step, path); }
  }

  /** A run: each step is enabled where it is taken. */
  predicate IsRun(s: System, steps: seq<Step>)
    decreases |steps|
  {
    steps == [] || (Enabled(s, steps[0]) && IsRun(Apply(s, steps[0]), steps[1..]))
  }

  function After(s: System, steps: seq<Step>): System
    requires IsRun(s, steps)
    decreases |steps|
  {
    if steps == [] then s else After(Apply(s, steps[0]), steps[1..])
  }

  predicate PlainRun(steps: seq<Step>) { forall i :: 0 <= i < |steps| ==> PlainStep(steps[i]) }

  /** The initial content, or all of what one write call to this very target offered. */
  predicate Intact(before: System, s: System, path: string) {
    FileAt(s, path) == FileAt(before, path) || (path in s.files && (path, s.files[path]) in s.offered)
  }

  lemma OfferedGrows(s: System, step: Step)
    requires Enabled(s, step)
    ensures s.offered <= Apply(s, step).offered
  {}

  lemma {:induction false} TearFreeFrom(before: System, s: System, steps: seq<Step>, path: string)
    requires Valid(s) && AllComplete(s) && IsRun(s, steps) && PlainRun(steps) && PlainTarget(path)
             && Intact(before, s, path)
    ensures Intact(before, After(s, steps), path)
    decreases |steps|
  {
    hide Valid, AllComplete, Apply, Enabled;
    if steps == [] {
    } else {
      var next := Apply(s, steps[0]);
      StepKeepsValid(s, steps[0]);
      StepKeepsComplete(s, steps[0]);
      TearFreeStep(before, s, steps[0], path);
      assert forall i :: 0 <= i < |steps[1..]| ==> PlainStep(steps[1..][i]);
      TearFreeFrom(before, next, steps[1..], path);
    }
  }

  lemma TearFreeStep(before: System, s: System, step: Step, path: string)
    requires Valid(s) && AllComplete(s) && Enabled(s, step) && PlainTarget(path) && Intact(before, s, path)
    ensures Intact(before, Apply(s, step), path)
  {
    OfferedGrows(s, step);
    ChangeIsPublication(s, step, path);
    if step.Publish? { assert CallFits(s, step.id); }
  }

  /** Whatever interleaving of write calls, partial writes, failures, crashes and sweeps: a
      file that is not named like a staging file holds its initial content or the complete
      data of one call to it. */
  lemma TearFree(before: System, steps: seq<Step>, path: string)
    requires Quiet(before) && IsRun(before, steps) && PlainRun(steps) && PlainTarget(path)
    ensures Intact(before, After(before, steps), path)
  {
    TearFreeFrom(before, before, steps, path);
  }

  // ---- without the condition on names --------------------------------------------

  /** The condition is exact: every file whose name decodes to an owner can be swept away
      without any write call at all. */
  lemma StagingNameCanBeLost(path: string, content: string) returns (before: System, steps: seq<Step>)
    requires !PlainTarget(path)
    ensures Quiet(before) && IsRun(before, steps) && PlainRun(steps)
    ensures FileAt(before, path) == Some(content) && FileAt(After(before, steps), path) == None
    ensures !Intact(before, After(before, steps), path)
  {
    before := System(map[path := content], {}, map[], map[], {}, {});
    steps := [Condemn(path), Reap(path, true)];
    var middle := Apply(before, steps[0]);
    assert steps[1..] == [steps[1]] && steps[1..][1..] == [];
    assert IsRun(middle, steps[1..]);
    assert After(before, steps) == After(middle, steps[1..]) == Apply(middle, steps[1]);
  }

  /** Two calls of one thread, numbered `n` and `n + 1`; the second publishes to the staging file
      of the first just before the first publishes that. */
  function Collision(pid: nat, thread: nat, n: nat, path: string, stage: string, mine: string,
                     other: string): seq<Step> {
    var a, b := CallId(pid, thread, n), CallId(pid, thread, n + 1);
    [Begin(pid, thread, path, mine), Begin(pid, thread, stage, other), FinishWrite(a), FinishWrite(b), Publish(b),
      Publish(a)]
  }

  /** One process that has made `n` calls from a thread. */
  function OneProcess(pid: nat, thread: nat, n: nat): System {
    System(map[], {pid}, map[(pid, thread) := n], map[], {}, {})
  }

  /** Neither may any call's target be named like a staging file: for every such target, a write
      to it can make another call install foreign data under the name the marker is appended to. */
  lemma StagingTargetLeaks(stage: string, mine: string, other: string)
    returns (path: string, before: System, steps: seq<Step>)
    requires !PlainTarget(stage) && mine != other
    ensures ParseMarker(stage).Some? && path == ParseMarker(stage).value.prefix
    ensures Valid(before) && AllComplete(before) && IsRun(before, steps)
    ensures forall i :: 0 <= i < |steps| && steps[i].Begin? ==> steps[i].target == path || steps[i].target == stage
    ensures FileAt(After(before, steps), path) == Some(other) && (path, other) !in After(before, steps).offered
  {
    hide Enabled, Apply, Valid, AllComplete, StagePath, ParseMarker, Numeral, Collision, OneProcess, IsRun;
    var m := ParseMarker(stage).value;
    path := m.prefix;
    ParsedMatches(stage);
    var pid, thread, n := Numeral(m.pid), Numeral(m.thread), Numeral(m.seqNo);
    MatchIsMinted(stage, m);
    before, steps := OneProcess(pid, thread, n), Collision(pid, thread, n, path, stage, mine, other);
    OneProcessFits(pid, thread, n);
    CollisionTargets(pid, thread, n, path, stage, mine, other);
    CollisionLeaks(pid, thread, n, path, stage, mine, other);
  }

  lemma CollisionTargets(pid: nat, thread: nat, n: nat, path: string, stage: string, mine: string, other: string)
    ensures var steps := Collision(pid, thread, n, path, stage, mine, other);
            forall i :: 0 <= i < |steps| && steps[i].Begin? ==> steps[i].target == path || steps[i].target == stage
  {}

  lemma OneProcessFits(pid: nat, thread: nat, n: nat)
    requires 0 < pid <= MAX_SAFE_INTEGER
    ensures Valid(OneProcess(pid, thread, n)) && AllComplete(OneProcess(pid, thread, n))
  {}

  lemma CollisionLeaks(pid: nat, thread: nat, n: nat, path: string, stage: string, mine: string, other: string)
    requires stage == StagePath(path, pid, thread, n) && mine != other
    ensures var before, steps := OneProcess(pid, thread, n), Collision(pid, thread, n, path, stage, mine, other);
            && IsRun(before, steps)
            && FileAt(After(before, steps), path) == Some(other) && (path, other) !in After(before, steps).offered
  {
    hide StagePath, Enabled, Apply;
    var a, b := CallId(pid, thread, n), CallId(pid, thread, n + 1);
    var inner := StagePath(stage, pid, thread, n + 1);
    StageIsLonger(path, pid, thread, n);
    StageIsLonger(stage, pid, thread, n + 1);
    var s0, steps := OneProcess(pid, thread, n), Collision(pid, thread, n, path, stage, mine, other);
    var s1, s2 := BothBegin(a, b, path, stage, mine, other, s0);
    var s3, s4 := BothFinish(a, b, path, stage, inner, mine, other, s2);
    var s5, s6 := BothPublish(a, b, path, stage, inner, mine, other, s4);
    RunOfSix(s0, steps, s1, s2, s3, s4, s5, s6);
  }

  lemma StageIsLonger(target: string, pid: nat, thread: nat, seqNo: nat)
    ensures |StagePath(target, pid, thread, seqNo)| > |target|
  {}

  predicate Consecutive(a: CallId, b: CallId) { b == a.(seqNo := a.seqNo + 1) }

  lemma BothBegin(a: CallId, b: CallId, path: string, stage: string, mine: string, other: string, s0: System)
    returns (s1: System, s2: System)
    requires Consecutive(a, b) && s0 == OneProcess(a.pid, a.thread, a.seqNo)
    ensures Enabled(s0, Begin(a.pid, a.thread, path, mine)) && s1 == Apply(s0, Begin(a.pid, a.thread, path, mine))
    ensures Enabled(s1, Begin(a.pid, a.thread, stage, other)) && s2 == Apply(s1, Begin(a.pid, a.thread, stage, other))
    ensures s2.files == map[] && s2.offered == {(path, mine), (stage, other)}
    ensures s2.calls == map[a := Call(path, mine, Writing), b := Call(stage, other, Writing)]
  {
    s1 := Apply(s0, Begin(a.pid, a.thread, path, mine));
    assert s1.counters[(a.pid, a.thread)] == a.seqNo + 1;
    s2 := Apply(s1, Begin(a.pid, a.thread, stage, other));
  }

  lemma BothFinish(a: CallId, b: CallId, path: string, stage: string, inner: string, mine: string, other: string,
                   s2: System)
    returns (s3: System, s4: System)
    requires Consecutive(a, b) && s2.files == map[] && inner != stage
    requires stage == StagePath(path, a.pid, a.thread, a.seqNo) && inner == StagePath(stage, b.pid, b.thread, b.seqNo)
    requires s2.calls == map[a := Call(path, mine, Writing), b := Call(stage, other, Writing)]
    ensures Enabled(s2, FinishWrite(a)) && s3 == Apply(s2, FinishWrite(a))
    ensures Enabled(s3, FinishWrite(b)) && s4 == Apply(s3, FinishWrite(b))
    ensures s4.files == map[stage := mine, inner := other] && s4.offered == s2.offered
    ensures s4.calls == map[a := Call(path, mine, Staged), b := Call(stage, other, Staged)]
  {
    hide StagePath;
    s3 := Apply(s2, FinishWrite(a));
    s4 := Apply(s3, FinishWrite(b));
  }

  lemma BothPublish(a: CallId, b: CallId, path: string, stage: string, inner: string, mine: string, other: string,
                    s4: System)
    returns (s5: System, s6: System)
    requires Consecutive(a, b) && inner != stage && stage != path && s4.files == map[stage := mine, inner := other]
    requires stage == StagePath(path, a.pid, a.thread, a.seqNo) && inner == StagePath(stage, b.pid, b.thread, b.seqNo)
    requires s4.calls == map[a := Call(path, mine, Staged), b := Call(stage, other, Staged)]
    ensures Enabled(s4, Publish(b)) && s5 == Apply(s4, Publish(b))
    ensures Enabled(s5, Publish(a)) && s6 == Apply(s5, Publish(a))
    ensures s6.files == map[path := other] && s6.offered == s4.offered
  {
    hide StagePath;
    s5 := Apply(s4, Publish(b));
    assert s5.files == map[stage := other];
    s6 := Apply(s5, Publish(a));
  }

  lemma RunOfSix(s0: System, steps: seq<Step>, s1: System, s2: System, s3: System, s4: System, s5: System, s6: System)
    requires |steps| == 6
    requires Enabled(s0, steps[0]) && s1 == Apply(s0, steps[0])
    requires Enabled(s1, steps[1]) && s2 == Apply(s1, steps[1])
    requires Enabled(s2, steps[2]) && s3 == Apply(s2, steps[2])
    requires Enabled(s3, steps[3]) && s4 == Apply(s3, steps[3])
    requires Enabled(s4, steps[4]) && s5 == Apply(s4, steps[4])
    requires Enabled(s5, steps[5]) && s6 == Apply(s5, steps[5])
    ensures IsRun(s0, steps) && After(s0, steps) == s6
  {
    hide Enabled, Apply;
    RunCons(s5, steps[5], [], s6);
    RunCons(s4, steps[4], [steps[5]], s5);
    RunCons(s3, steps[3], [steps[4], steps[5]], s4);
    RunCons(s2, steps[2], [steps[3], steps[4], steps[5]], s3);
    RunCons(s1, steps[1], [steps[2], steps[3], steps[4], steps[5]], s2);
    RunCons(s0, steps[0], [steps[1], steps[2], steps[3], steps[4], steps[5]], s1);
    assert steps == [steps[0], steps[1], steps[2], steps[3], steps[4], steps[5]];
  }

  lemma RunCons(s: System, step: Step, rest: seq<Step>, next: System)
    requires Enabled(s, step) && next == Apply(s, step) && IsRun(next, rest)
    ensures IsRun(s, [step] + rest) && After(s, [step] + rest) == After(next, rest)
  {
    hide Enabled, Apply;
    assert ([step] + rest)[1..] == rest;
  }

  // ---- one call, start to finish -------------------------------------------------

  /** How the filesystem treats one call: the write may stop short, the rename may fail, and
      so may the clean-up. */
  datatype Weather = Weather(stopsAfter: Option<nat>, renameFails: bool, cleanupFails: bool)

  /** One thread's view: the files, and its module counter. */
  class Writer {
    const pid: nat
    const thread: nat
    var stageSeq: nat
    var files: map<string, string>

    constructor (pid: nat, thread: nat, files: map<string, string>)
      ensures this.pid == pid && this.thread == thread && stageSeq == 0 && this.files == files
    {
      this.pid, this.thread, stageSeq, this.files := pid, thread, 0, files;
    }

    method StagePathFor(target: string) returns (path: string)
      modifies this`stageSeq
      ensures path == StagePath(target, pid, thread, old(stageSeq)) && stageSeq == old(stageSeq) + 1
    {
      path := StagePath(target, pid, thread, stageSeq);
      stageSeq := stageSeq + 1;
    }

    /** `thrown` says that the failure reaches the caller. */
    method WriteFileAtomic(target: string, data: string, bestEffort: bool, w: Weather) returns (thrown: bool)
      requires w.stopsAfter.Some? ==> w.stopsAfter.value <= |data|
      modifies this
      ensures stageSeq == old(stageSeq) + 1
      ensures var stage := StagePath(target, pid, thread, old(stageSeq));
              var fails := w.stopsAfter.Some? || w.renameFails;
              && thrown == (fails && !bestEffort)
              && files == (if !fails then (old(files) - {stage})[target := data]
                           else if !w.cleanupFails then old(files) - {stage}
                           else old(files)[stage := if w.stopsAfter.Some? then data[..w.stopsAfter.value] else data])
    {
      var tmpPath := StagePathFor(target);
      if w.stopsAfter.Some? {
        files := files[tmpPath := data[..w.stopsAfter.value]];
      } else {
        files := files[tmpPath := data];
        if !w.renameFails {
          files := (files - {tmpPath})[target := files[tmpPath]];
          return false;
        }
      }
      if !w.cleanupFails { files := files - {tmpPath}; }
      thrown := !bestEffort;
    }
  }

  /** The steps of one call that nothing interrupts. */
  function CallSteps(id: CallId, target: string, data: string, w: Weather): seq<Step> {
    [Begin(id.pid, id.thread, target, data)]
    + (if w.stopsAfter.Some? then [WritePart(id, w.stopsAfter.value)] else [FinishWrite(id)])
    + (if w.stopsAfter.Some? || w.renameFails then [Fail(id), Cleanup(id, !w.cleanupFails)] else [Publish(id)])
  }

  /** The call has begun and its staging file is written, or stopped short. */
  lemma CallWrites(s: System, id: CallId, target: string, data: string, w: Weather, steps: seq<Step>, stage: string)
    returns (s1: System, s2: System)
    requires id.pid in s.live && id.seqNo == NextSeq(s, id.pid, id.thread) && id !in s.calls
    requires w.stopsAfter.Some? ==> w.stopsAfter.value <= |data|
    requires steps == CallSteps(id, target, data, w) && stage == StagePath(target, id.pid, id.thread, id.seqNo)
    ensures Enabled(s, steps[0]) && s1 == Apply(s, steps[0]) && Enabled(s1, steps[1]) && s2 == Apply(s1, steps[1])
    ensures s2.files == s.files[stage := if w.stopsAfter.Some? then data[..w.stopsAfter.value] else data]
    ensures s2.calls == s.calls[id := Call(target, data, if w.stopsAfter.Some? then Writing else Staged)]
  {
    hide StagePath;
    s1 := Apply(s, steps[0]);
    s2 := Apply(s1, steps[1]);
  }

  lemma PublishEnds(s: System, s2: System, id: CallId, target: string, data: string, stage: string)
    requires id !in s.calls && stage == StagePath(target, id.pid, id.thread, id.seqNo)
    requires s2.files == s.files[stage := data] && s2.calls == s.calls[id := Call(target, data, Staged)]
    ensures Enabled(s2, Publish(id))
    ensures Apply(s2, Publish(id)).calls == s.calls && Apply(s2, Publish(id)).files
            == (s.files - {stage})[target := data]
  {
    hide StagePath;
    assert s2.files - {stage} == s.files - {stage};
  }

  lemma FailureEnds(s: System, s2: System, id: CallId, call: Call, stage: string, content: string, removed: bool)
    requires id !in s.calls && stage == StageOf(id, call) && call.phase != Failed
    requires s2.files == s.files[stage := content] && s2.calls == s.calls[id := call]
    ensures Enabled(s2, Fail(id)) && Enabled(Apply(s2, Fail(id)), Cleanup(id, removed))
    ensures var end := Apply(Apply(s2, Fail(id)), Cleanup(id, removed));
            end.calls == s.calls && end.files == if removed then s.files - {stage} else s.files[stage := content]
  {
    hide StagePath;
    assert s2.files - {stage} == s.files - {stage};
  }

  /** An uninterrupted call is a run of the step system with the effect the method has. */
  lemma CallIsRun(s: System, id: CallId, target: string, data: string, w: Weather)
    requires id.pid in s.live && id.seqNo == NextSeq(s, id.pid, id.thread) && id !in s.calls
    requires w.stopsAfter.Some? ==> w.stopsAfter.value <= |data|
    ensures var stage, steps := StagePath(target, id.pid, id.thread, id.seqNo), CallSteps(id, target, data, w);
            && IsRun(s, steps) && After(s, steps).calls == s.calls
            && After(s, steps).files
               == (if w.stopsAfter.None? && !w.renameFails then (s.files - {stage})[target := data]
                   else if !w.cleanupFails then s.files - {stage}
                   else s.files[stage := if w.stopsAfter.Some? then data[..w.stopsAfter.value] else data])
  {
    hide StagePath, Enabled, Apply, NextSeq;
    var steps := CallSteps(id, target, data, w);
    var stage := StagePath(target, id.pid, id.thread, id.seqNo);
    var s1, s2 := CallWrites(s, id, target, data, w, steps, stage);
    if w.stopsAfter.None? && !w.renameFails {
      PublishEnds(s, s2, id, target, data, stage);
      RunCons(s2, steps[2], [], Apply(s2, steps[2]));
      RunCons(s1, steps[1], [steps[2]], s2);
      RunCons(s, steps[0], [steps[1], steps[2]], s1);
      assert steps == [steps[0]] + ([steps[1], steps[2]]);
    } else {
      FailureEnds(s, s2, id, s2.calls[id], stage, s2.files[stage], !w.cleanupFails);
      var s3 := Apply(s2, steps[2]);
      RunCons(s3, steps[3], [], Apply(s3, steps[3]));
      RunCons(s2, steps[2], [steps[3]], s3);
      RunCons(s1, steps[1], [steps[2], steps[3]], s2);
      RunCons(s, steps[0], [steps[1], steps[2], steps[3]], s1);
      assert steps == [steps[0]] + ([steps[1], steps[2], steps[3]]);
    }
  }
}
