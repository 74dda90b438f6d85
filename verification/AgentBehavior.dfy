/** Thrash and blind-write detection (clients/agent-behavior-client.ts:72-207): the counters a
    client keeps, and what they mean for the log of calls since the last reset. */
module AgentBehavior {
  import opened JsMap

  /** `path` is as given; None is an absent one. */
  datatype Call = Call(tool: string, path: Option<string>, at: int)

  datatype Warning =
    | Thrashing(tool: string, path: Option<string>, count: nat)
    | BlindWrite(path: Option<string>, windowSize: nat)

  /** Path normalisation and the table of mutating tools, which live elsewhere. */
  datatype Host = Host(normalize: string -> string, isMutating: string -> bool)

  const BLIND_WRITE_WINDOW := 5
  const THRASH_THRESHOLD := 3
  const THRASH_TIMEOUT_MS := 30000
  const HISTORY_LIMIT := 50
  const FILE_EDIT_IDLE_MS := 1800000
  const READ_OPS := {"read", "bash", "grep", "glob", "find", "rg"}

  /** No key for an absent or an empty path. */
  function KeyOf(h: Host, path: Option<string>): Option<string> {
    if path.Some? && path.value != "" then Some(h.normalize(path.value)) else None
  }

  // ---- what the log says ---------------------------------------------------------

  /** The second call repeats the first, soon enough after it. */
  predicate Repeats(h: Host, a: Call, b: Call) {
    a.tool == b.tool && KeyOf(h, a.path) == KeyOf(h, b.path) && b.at - a.at < THRASH_TIMEOUT_MS
  }

  /** Calls `from`, `from + 1`, ..., `to` each repeat the one before. */
  predicate Chain(h: Host, log: seq<Call>, from: nat, to: nat) {
    from <= to < |log| && forall i :: from < i <= to ==> Repeats(h, log[i - 1], log[i])
  }

  /** A maximal run starts here. */
  predicate StartsRun(h: Host, log: seq<Call>, i: nat) {
    i < |log| && (i == 0 || !Repeats(h, log[i - 1], log[i]))
  }

  function CountAfter(h: Host, log: seq<Call>): nat {
    if log == [] then 0
    else if |log| > 1 && Repeats(h, log[|log| - 2], log[|log| - 1]) then CountAfter(h, log[..|log| - 1]) + 1
    else 1
  }

  /** The last `n` elements. */
  function LastN<T>(s: seq<T>, n: nat): seq<T> { if |s| <= n then s else s[|s| - n..] }

  predicate KnowsFile(h: Host, window: seq<Call>, path: Option<string>) {
    exists i :: 0 <= i < |window| && Informs(h, window[i], path)
  }

  /** A read, or a mutation of this very path. */
  predicate Informs(h: Host, c: Call, path: Option<string>) {
    || c.tool in READ_OPS
    || (h.isMutating(c.tool) && c.path.Some? && KeyOf(h, path).Some?
      && h.normalize(c.path.value) == KeyOf(h, path).value)
  }

  function Mutations(h: Host, window: seq<Call>): nat {
    if window == [] then 0
    else Mutations(h, window[..|window| - 1])
         + (if h.isMutating(window[|window| - 1].tool) then 1 else 0)
  }

  /** Whether a call is a blind write, judged by the calls before it. */
  predicate IsBlind(h: Host, before: seq<Call>, c: Call) {
    var window := LastN(before, BLIND_WRITE_WINDOW);
    h.isMutating(c.tool) && !KnowsFile(h, window, c.path) && Mutations(h, window) >= 2
  }

  lemma OnlyMutationsAreBlind(h: Host, before: seq<Call>, c: Call)
    requires !h.isMutating(c.tool)
    ensures !IsBlind(h, before, c)
  {}

  function WarningsFor(h: Host, before: seq<Call>, c: Call): seq<Warning> {
    (if CountAfter(h, before + [c]) == THRASH_THRESHOLD then [Thrashing(c.tool, c.path, THRASH_THRESHOLD)] else [])
    + (if IsBlind(h, before, c) then [BlindWrite(c.path, |LastN(before, BLIND_WRITE_WINDOW)|)] else [])
  }

  lemma LastNSnoc<T>(s: seq<T>, n: nat, x: T)
    requires n > 0
    ensures LastN(LastN(s, n) + [x], n) == LastN(s + [x], n)
  {}

  // ---- the client ----------------------------------------------------------------

  datatype Edits = Edits(count: nat, lastUsedAt: int)

  function Purged(m: map<string, Edits>, now: int): map<string, Edits> {
    map k | k in m && now - m[k].lastUsedAt <= FILE_EDIT_IDLE_MS :: m[k]
  }

  /** Counted first, purged afterwards: an edit never loses its own file's count. */
  function CountEdit(h: Host, m: map<string, Edits>, c: Call): map<string, Edits> {
    var key := KeyOf(h, c.path);
    if !h.isMutating(c.tool) || key.None? then m
    else Purged(m[key.value := Edits((if key.value in m then m[key.value].count else 0) + 1, c.at)], c.at)
  }

  function EditsAfter(h: Host, log: seq<Call>): map<string, Edits> {
    if log == [] then map[] else CountEdit(h, EditsAfter(h, log[..|log| - 1]), log[|log| - 1])
  }

  class AgentBehaviorClient {
    const host: Host
    var toolHistory: seq<Call>
    var consecutiveCount: nat
    var lastToolName: Option<string>
    var lastToolFilePath: Option<string>
    var lastToolTimestamp: int
    var fileEditCount: map<string, Edits>
    /** Every call since the last reset. */
    ghost var log: seq<Call>

    ghost predicate Valid()
      reads this
    {
      && toolHistory == LastN(log, HISTORY_LIMIT)
      && consecutiveCount == CountAfter(host, log)
      && fileEditCount == EditsAfter(host, log)
      && (log == [] <==> lastToolName == None)
      && (log != [] ==>
            var c := log[|log| - 1];
            lastToolName == Some(c.tool) && lastToolFilePath == KeyOf(host, c.path) && lastToolTimestamp == c.at)
    }

    constructor (host: Host)
      ensures Valid() && log == [] && this.host == host
    {
      this.host := host;
      toolHistory, consecutiveCount, lastToolName, lastToolFilePath, lastToolTimestamp := [], 0, None, None, 0;
      fileEditCount := map[];
      log := [];
    }

    method TrackRun(c: Call) returns (path: Option<string>)
      requires Valid()
      modifies this`consecutiveCount, this`lastToolName, this`lastToolFilePath, this`lastToolTimestamp
      ensures consecutiveCount == CountAfter(host, log + [c]) && path == KeyOf(host, c.path)
      ensures lastToolName == Some(c.tool) && lastToolFilePath == path && lastToolTimestamp == c.at
    {
      assert (log + [c])[..|log|] == log;
      path := KeyOf(host, c.path);
      if lastToolName == Some(c.tool) && path == lastToolFilePath && c.at - lastToolTimestamp < THRASH_TIMEOUT_MS {
        consecutiveCount := consecutiveCount + 1;
      } else {
        consecutiveCount := 1;
      }
      lastToolName, lastToolFilePath, lastToolTimestamp := Some(c.tool), path, c.at;
    }

    /** The scan of the recent window. */
    method CheckBlindWrite(c: Call) returns (blind: bool, windowSize: nat)
      requires toolHistory == LastN(log, HISTORY_LIMIT) && host.isMutating(c.tool)
      ensures blind == IsBlind(host, log, c) && windowSize == |LastN(log, BLIND_WRITE_WINDOW)|
    {
      var window := LastN(toolHistory, BLIND_WRITE_WINDOW);
      assert window == LastN(log, BLIND_WRITE_WINDOW);
      windowSize := |window|;
      var hasRecentRead, writes := false, 0;
      for i := 0 to |window|
        invariant hasRecentRead == exists j :: 0 <= j < i && Informs(host, window[j], c.path)
        invariant writes == Mutations(host, window[..i])
      {
        TakeSnoc(window, i);
        if Informs(host, window[i], c.path) { hasRecentRead := true; }
        if host.isMutating(window[i].tool) { writes := writes + 1; }
      }
      assert window[..|window|] == window;
      blind := !hasRecentRead && |window| > 0 && writes >= 2;
    }

    method TrackEdit(c: Call, path: Option<string>)
      requires path == KeyOf(host, c.path)
      modifies this`fileEditCount
      ensures fileEditCount == CountEdit(host, old(fileEditCount), c)
    {
      if host.isMutating(c.tool) && path.Some? {
        var key := path.value;
        fileEditCount := fileEditCount[key := Edits((if key in fileEditCount then fileEditCount[key].count else 0)
          + 1, c.at)];
        fileEditCount := Purged(fileEditCount, c.at);
      }
    }

    method PushHistory(c: Call)
      requires toolHistory == LastN(log, HISTORY_LIMIT)
      modifies this`toolHistory
      ensures toolHistory == LastN(log + [c], HISTORY_LIMIT)
    {
      LastNSnoc(log, HISTORY_LIMIT, c);
      toolHistory := toolHistory + [c];
      if |toolHistory| > HISTORY_LIMIT { toolHistory := toolHistory[|toolHistory| - HISTORY_LIMIT..]; }
    }

    method RecordToolCall(c: Call) returns (warnings: seq<Warning>)
      requires Valid()
      modifies this
      ensures Valid() && log == old(log) + [c]
      ensures warnings == WarningsFor(host, old(log), c)
    {
      hide LastN, IsBlind, CountAfter, CountEdit, KeyOf;
      warnings := [];
      assert (log + [c])[..|log|] == log;
      var path := TrackRun(c);
      if consecutiveCount == THRASH_THRESHOLD {
        warnings := warnings + [Thrashing(c.tool, c.path, consecutiveCount)];
      }
      if host.isMutating(c.tool) {
        var blind, size := CheckBlindWrite(c);
        if blind { warnings := warnings + [BlindWrite(c.path, size)]; }
      } else {
        OnlyMutationsAreBlind(host, log, c);
      }
      TrackEdit(c, path);
      PushHistory(c);
      log := log + [c];
    }

    method GetEditCount(path: string) returns (n: nat)
      requires Valid()
      ensures n == if host.normalize(path) in EditsAfter(host, log)
              then EditsAfter(host, log)[host.normalize(path)].count else 0
    {
      var key := host.normalize(path);
      n := if key in fileEditCount then fileEditCount[key].count else 0;
    }

    /** The last path is kept, harmlessly: without a last tool name nothing repeats. */
    method Reset()
      requires Valid()
      modifies this
      ensures Valid() && log == []
    {
      toolHistory, consecutiveCount, lastToolName, lastToolTimestamp := [], 0, None, 0;
      fileEditCount := map[];
      log := [];
    }
  }

  // ---- the counter is the length of the longest repeating suffix -----------------

  /** The counter reaches back exactly to the start of the maximal run that ends the log. */
  lemma {:induction false} CountIsRunLength(h: Host, log: seq<Call>)
    requires log != []
    ensures 0 < CountAfter(h, log) <= |log|
    ensures Chain(h, log, |log| - CountAfter(h, log), |log| - 1) && StartsRun(h, log, |log| - CountAfter(h, log))
  {
    if |log| == 1 || !Repeats(h, log[|log| - 2], log[|log| - 1]) {
    } else {
      var front := log[..|log| - 1];
      CountIsRunLength(h, front);
      var from := |front| - CountAfter(h, front);
      forall i | from < i <= |log| - 1 ensures Repeats(h, log[i - 1], log[i]) {
        if i < |front| { assert Repeats(h, front[i - 1], front[i]); }
      }
    }
  }

  /** There is no longer one. */
  lemma CountIsLongest(h: Host, log: seq<Call>, from: nat)
    requires log != [] && Chain(h, log, from, |log| - 1)
    ensures |log| - from <= CountAfter(h, log)
  {
    CountIsRunLength(h, log);
    var start := |log| - CountAfter(h, log);
  }

  lemma CountIs(h: Host, log: seq<Call>, from: nat)
    requires log != [] && StartsRun(h, log, from) && Chain(h, log, from, |log| - 1)
    ensures CountAfter(h, log) == |log| - from
  {
    CountIsLongest(h, log, from);
    CountIsRunLength(h, log);
    var start := |log| - CountAfter(h, log);
  }

  predicate ThrashAt(h: Host, log: seq<Call>, i: nat) {
    i < |log| && CountAfter(h, log[..i + 1]) == THRASH_THRESHOLD
  }

  lemma PrefixChain(h: Host, log: seq<Call>, from: nat, i: nat)
    requires from <= i < |log|
    ensures Chain(h, log[..i + 1], from, i) <==> Chain(h, log, from, i)
    ensures StartsRun(h, log[..i + 1], from) <==> StartsRun(h, log, from)
  {
    var p := log[..i + 1];
    if Chain(h, p, from, i) {
      forall j | from < j <= i ensures Repeats(h, log[j - 1], log[j]) { assert Repeats(h, p[j - 1], p[j]); }
    }
  }

  /** A maximal run gets a thrash warning at its third call and nowhere else: one warning if it
      has three calls, none if it is shorter. */
  lemma OneWarningPerRun(h: Host, log: seq<Call>, from: nat, i: nat)
    requires StartsRun(h, log, from) && Chain(h, log, from, i)
    ensures ThrashAt(h, log, i) <==> i == from + THRASH_THRESHOLD - 1
  {
    PrefixChain(h, log, from, i);
    CountIs(h, log[..i + 1], from);
  }

  /** Every call belongs to a run, so every warning is one of those. */
  lemma EveryCallInARun(h: Host, log: seq<Call>, i: nat) returns (from: nat)
    requires i < |log|
    ensures StartsRun(h, log, from) && Chain(h, log, from, i)
  {
    var p := log[..i + 1];
    CountIsRunLength(h, p);
    from := |p| - CountAfter(h, p);
    PrefixChain(h, log, from, i);
  }

  // ---- what the warnings say, call by call ----------------------------------------

  /** The same file, or no file both times; an empty path is no file. */
  predicate SamePath(h: Host, a: Option<string>, b: Option<string>) {
    if a.None? || a.value == "" then b.None? || b.value == ""
    else b.Some? && b.value != "" && h.normalize(a.value) == h.normalize(b.value)
  }

  /** The second call is the first one again, less than half a minute later. */
  predicate Again(h: Host, a: Call, b: Call) { a.tool == b.tool && SamePath(h, a.path, b.path) && b.at - a.at < 30000 }

  lemma RepeatsIsAgain(h: Host, a: Call, b: Call)
    ensures Repeats(h, a, b) <==> Again(h, a, b)
  {}

  ghost predicate Warns(warnings: seq<Warning>, w: Warning) { w in warnings }

  /** A call gets a thrash warning exactly when it is the third of a run: the two calls before it
      are the same again, and the one before those is not. */
  lemma ThrashingIff(h: Host, before: seq<Call>, c: Call)
    ensures Warns(WarningsFor(h, before, c), Thrashing(c.tool, c.path, 3))
            <==> && |before| >= 2 && Again(h, before[|before| - 1], c)
                 && Again(h, before[|before| - 2], before[|before| - 1])
                 && (|before| == 2 || !Again(h, before[|before| - 3], before[|before| - 2]))
  {
    hide IsBlind, Repeats, Again, LastN;
    var log := before + [c];
    assert log[..|before|] == before;
    if |before| >= 1 { RepeatsIsAgain(h, before[|before| - 1], c); }
    if |before| >= 2 {
      RepeatsIsAgain(h, before[|before| - 2], before[|before| - 1]);
      ShortCount(h, before[..|before| - 1]);
    }
    if |before| >= 3 { RepeatsIsAgain(h, before[|before| - 3], before[|before| - 2]); }
    CountAtMost(h, before);
  }

  lemma ShortCount(h: Host, log: seq<Call>)
    requires log != []
    ensures CountAfter(h, log) == 1 <==> |log| == 1 || !Repeats(h, log[|log| - 2], log[|log| - 1])
  {
    if |log| > 1 { CountIsRunLength(h, log[..|log| - 1]); }
  }

  lemma CountAtMost(h: Host, log: seq<Call>)
    ensures CountAfter(h, log) <= |log|
  {
    if log != [] { CountIsRunLength(h, log); }
  }

  /** A call among the last five before this one. */
  predicate Recent(before: seq<Call>, i: int) { 0 <= i < |before| && i >= |before| - 5 }

  /** Looks at files, or wrote the very file that is written now. */
  predicate Acquaints(h: Host, a: Call, c: Call) {
    || a.tool == "read" || a.tool == "bash" || a.tool == "grep" || a.tool == "glob" || a.tool == "find"
    || a.tool == "rg"
    || (h.isMutating(a.tool) && a.path.Some? && c.path.Some? && c.path.value != ""
        && h.normalize(a.path.value) == h.normalize(c.path.value))
  }

  lemma {:induction false} TwoMutations(h: Host, window: seq<Call>)
    ensures Mutations(h, window) >= 1 <==> exists i :: 0 <= i < |window| && h.isMutating(window[i].tool)
    ensures Mutations(h, window) >= 2 <==>
            exists i, j :: 0 <= i < j < |window| && h.isMutating(window[i].tool) && h.isMutating(window[j].tool)
  {
    if window == [] {
    } else {
      var front, last := window[..|window| - 1], window[|window| - 1];
      TwoMutations(h, front);
      assert window == front + [last];
      assert forall i :: 0 <= i < |front| ==> window[i] == front[i];
    }
  }

  lemma InformsIsAcquaints(h: Host, a: Call, c: Call)
    ensures Informs(h, a, c.path) <==> Acquaints(h, a, c)
  {}

  lemma WindowIsRecent(h: Host, before: seq<Call>, c: Call, window: seq<Call>)
    requires window == LastN(before, 5)
    ensures |window| == if |before| < 5 then |before| else 5
    ensures KnowsFile(h, window, c.path) <==> exists i :: Recent(before, i) && Acquaints(h, before[i], c)
    ensures (exists i, j :: 0 <= i < j < |window| && h.isMutating(window[i].tool) && h.isMutating(window[j].tool))
            <==> exists i, j :: Recent(before, i) && Recent(before, j) && i < j
                                && h.isMutating(before[i].tool) && h.isMutating(before[j].tool)
  {
    hide Informs, Acquaints;
    var from := |before| - |window|;
    forall i | 0 <= i < |window| ensures window[i] == before[from + i] && Recent(before, from + i) {}
    forall i | Recent(before, i) ensures 0 <= i - from < |window| && before[i] == window[i - from] {}
    forall i | Recent(before, i) ensures Informs(h, before[i], c.path) <==> Acquaints(h, before[i], c) {
      InformsIsAcquaints(h, before[i], c);
    }
  }

  /** A call is warned of as a blind write exactly when it mutates, at least two of the last five
      calls before it mutated too, and none of the five acquaints the agent with the file. The
      warning says how many calls were looked at; there are no other warnings. */
  lemma BlindWriteIff(h: Host, before: seq<Call>, c: Call)
    ensures Warns(WarningsFor(h, before, c), BlindWrite(c.path, if |before| < 5 then |before| else 5))
            <==> && h.isMutating(c.tool)
                 && (exists i, j :: Recent(before, i) && Recent(before, j) && i < j
                                    && h.isMutating(before[i].tool) && h.isMutating(before[j].tool))
                 && (forall i :: Recent(before, i) ==> !Acquaints(h, before[i], c))
    ensures forall w :: Warns(WarningsFor(h, before, c), w) ==>
              w == Thrashing(c.tool, c.path, 3) || w == BlindWrite(c.path, if |before| < 5 then |before| else 5)
  {
    hide CountAfter, LastN, KnowsFile, Acquaints, Recent, Mutations;
    var window := LastN(before, 5);
    TwoMutations(h, window);
    WindowIsRecent(h, before, c, window);
  }

  // ---- edit counts ---------------------------------------------------------------

  /** What the edit counts count: a mutation of this file, or of some file. */
  predicate EditsFile(h: Host, c: Call, key: string) { h.isMutating(c.tool) && KeyOf(h, c.path) == Some(key) }

  predicate EditsSome(h: Host, c: Call) { h.isMutating(c.tool) && KeyOf(h, c.path).Some? }

  function EditsOf(h: Host, log: seq<Call>, key: string): nat {
    if log == [] then 0
    else EditsOf(h, log[..|log| - 1], key) + (if EditsFile(h, log[|log| - 1], key) then 1 else 0)
  }

  /** When the file was last edited. */
  function LastEditAt(h: Host, log: seq<Call>, key: string): Option<int> {
    if log == [] then None
    else if EditsFile(h, log[|log| - 1], key) then Some(log[|log| - 1].at)
    else LastEditAt(h, log[..|log| - 1], key)
  }

  /** Call `i` edits another file when this one has been idle for too long. */
  predicate Purges(h: Host, log: seq<Call>, i: nat, key: string) {
    && i < |log| && EditsSome(h, log[i]) && !EditsFile(h, log[i], key)
    && LastEditAt(h, log[..i], key).Some?
    && log[i].at - LastEditAt(h, log[..i], key).value > 1800000
  }

  /** The place behind the last idle purge of a file. */
  function PurgedUpTo(h: Host, log: seq<Call>, key: string): (n: nat)
    ensures n <= |log| && (n > 0 ==> Purges(h, log, n - 1, key))
    ensures forall i :: n <= i < |log| ==> !Purges(h, log, i, key)
  {
    if log == [] then 0
    else if Purges(h, log, |log| - 1, key) then |log|
    else
      var front := log[..|log| - 1];
      assert forall i :: 0 <= i < |front| ==> front[..i] == log[..i];
      assert forall i :: 0 <= i < |front| ==> Purges(h, log, i, key) == Purges(h, front, i, key);
      PurgedUpTo(h, front, key)
  }

  /** The stored entry of a file holds the count `n` and the time of its last edit. */
  predicate Holds(m: map<string, Edits>, key: string, n: nat, last: Option<int>) {
    if n == 0 then key !in m else key in m && m[key].count == n && last == Some(m[key].lastUsedAt)
  }

  lemma CountEditHolds(h: Host, m: map<string, Edits>, front: seq<Call>, c: Call, key: string, n: nat)
    requires Holds(m, key, n, LastEditAt(h, front, key))
    ensures Holds(CountEdit(h, m, c), key,
                  if Purges(h, front + [c], |front|, key) then 0 else n + (if EditsFile(h, c, key) then 1 else 0),
                  LastEditAt(h, front + [c], key))
  {
    var log := front + [c];
    assert log[..|front|] == front && log[|front|] == c;
  }

  lemma EditsOfSnoc(h: Host, front: seq<Call>, c: Call, key: string)
    ensures EditsOf(h, front + [c], key) == EditsOf(h, front, key) + (if EditsFile(h, c, key) then 1 else 0)
  {
    assert (front + [c])[..|front|] == front;
  }

  /** After every log the edit count of a file is the number of its edits since it was last
      purged, and it is absent if there were none. */
  lemma {:induction false} EditCountIsExact(h: Host, log: seq<Call>, key: string)
    ensures Holds(EditsAfter(h, log), key, EditsOf(h, log[PurgedUpTo(h, log, key)..], key), LastEditAt(h, log, key))
  {
    hide CountEdit, Purges, EditsFile, EditsOf, Holds;
    if log == [] {
      NothingHeld(h, key);
    } else {
      var front, c := log[..|log| - 1], log[|log| - 1];
      var n := PurgedUpTo(h, front, key);
      EditCountIsExact(h, front, key);
      assert log == front + [c];
      CountEditHolds(h, EditsAfter(h, front), front, c, key, EditsOf(h, front[n..], key));
      if Purges(h, log, |front|, key) {
        assert log[|log|..] == [];
        NothingHeld(h, key);
      } else {
        assert log[n..] == front[n..] + [c];
        EditsOfSnoc(h, front[n..], c, key);
      }
    }
  }

  lemma NothingHeld(h: Host, key: string)
    ensures EditsOf(h, [], key) == 0 && Holds(EditsAfter(h, []), key, 0, None)
  {}

  /** No two calls are further apart than the idle limit. */
  predicate Brisk(log: seq<Call>) {
    forall i, j :: 0 <= i < j < |log| ==> log[j].at - log[i].at <= 1800000
  }

  lemma {:induction false} LastEditIsCall(h: Host, log: seq<Call>, key: string)
    requires LastEditAt(h, log, key).Some?
    ensures exists i :: 0 <= i < |log| && log[i].at == LastEditAt(h, log, key).value
  {
    if EditsFile(h, log[|log| - 1], key) {
      assert log[|log| - 1].at == LastEditAt(h, log, key).value;
    } else {
      LastEditIsCall(h, log[..|log| - 1], key);
      var i :| 0 <= i < |log| - 1 && log[..|log| - 1][i].at == LastEditAt(h, log, key).value;
      assert log[i].at == LastEditAt(h, log, key).value;
    }
  }

  lemma NeverPurged(h: Host, log: seq<Call>, i: nat, key: string)
    requires Brisk(log) && i < |log|
    ensures !Purges(h, log, i, key)
  {
    var before := log[..i];
    if LastEditAt(h, before, key).Some? {
      LastEditIsCall(h, before, key);
      var j :| 0 <= j < |before| && before[j].at == LastEditAt(h, before, key).value;
      assert log[j] == before[j];
    }
  }

  /** Within the idle limit it is the number of edits since the reset. */
  lemma BriskEditCount(h: Host, log: seq<Call>, key: string)
    requires Brisk(log)
    ensures Holds(EditsAfter(h, log), key, EditsOf(h, log, key), LastEditAt(h, log, key))
  {
    EditCountIsExact(h, log, key);
    var n := PurgedUpTo(h, log, key);
    if n > 0 { NeverPurged(h, log, n - 1, key); }
    assert log[0..] == log;
  }
}
