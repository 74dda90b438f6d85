/** What miss verdicts and summaries mean over whole event traces
    (clients/cache-observability.ts): each is a statement about the events of that session
    since its previous usage row, or since its state was created. */
module MissAttributionTraces {
  import opened JsMap
  import opened BoundedCache
  import opened Numbers
  import opened MissAttribution

  // ---- one session's log ---------------------------------------------------------

  /** What happened to one session's state, in order. */
  datatype Entry =
    | SawContext(seen: Seen)
    | SawPrefix(answer: PrefixObservation)
    | SawUsage(row: Row, stable: bool, ttlMs: Ttl)
    | Refreshed

  function After(s: Session, e: Entry): Session {
    match e
    case SawContext(seen) => AfterContext(s, seen)
    case SawPrefix(answer) => AfterPrefix(s, answer)
    case SawUsage(row, stable, ttlMs) => AfterUsage(s, row, stable, ttlMs)
    case Refreshed => s
  }

  function Replay(log: seq<Entry>): Session {
    if log == [] then NEW_SESSION else After(Replay(log[..|log| - 1]), log[|log| - 1])
  }

  /** The entries since the last usage row, and that row. */
  function Since(log: seq<Entry>): seq<Entry> {
    if log == [] || log[|log| - 1].SawUsage? then [] else Since(log[..|log| - 1]) + [log[|log| - 1]]
  }

  function LastUsage(log: seq<Entry>): Option<Row> {
    if log == [] then None
    else if log[|log| - 1].SawUsage? then Some(log[|log| - 1].row)
    else LastUsage(log[..|log| - 1])
  }

  /** Time of the last `context` call. */
  function LastContextAt(es: seq<Entry>): Option<int> {
    if es == [] then None
    else if es[|es| - 1].SawContext? then Some(es[|es| - 1].seen.at)
    else LastContextAt(es[..|es| - 1])
  }

  predicate AnyChange(es: seq<Entry>) { exists i :: 0 <= i < |es| && es[i] == SawPrefix(Changed) }

  predicate IncompleteAt(e: Entry) { e.SawContext? && (e.seen.fails || e.seen.incomplete) }
  predicate TruncatedAt(e: Entry) { e.SawContext? && !e.seen.fails && e.seen.truncated }

  predicate AnyIncomplete(es: seq<Entry>) { exists i :: 0 <= i < |es| && IncompleteAt(es[i]) }
  predicate AnyTruncated(es: seq<Entry>) { exists i :: 0 <= i < |es| && TruncatedAt(es[i]) }

  lemma AnySnoc(es: seq<Entry>, e: Entry)
    ensures AnyChange(es + [e]) <==> AnyChange(es) || e == SawPrefix(Changed)
    ensures AnyIncomplete(es + [e]) <==> AnyIncomplete(es) || IncompleteAt(e)
    ensures AnyTruncated(es + [e]) <==> AnyTruncated(es) || TruncatedAt(e)
    ensures LastContextAt(es + [e]) == if e.SawContext? then Some(e.seen.at) else LastContextAt(es)
  {
    var all := es + [e];
    assert all[|es|] == e && all[..|es|] == es;
    if i :| 0 <= i < |es| && es[i] == SawPrefix(Changed) { assert all[i] == SawPrefix(Changed); }
    if i :| 0 <= i < |es| && IncompleteAt(es[i]) { assert IncompleteAt(all[i]); }
    if i :| 0 <= i < |es| && TruncatedAt(es[i]) { assert TruncatedAt(all[i]); }
  }

  lemma NothingYet()
    ensures !AnyChange([]) && !AnyIncomplete([]) && !AnyTruncated([]) && LastContextAt([]) == None
  {}

  /** The flags and clocks of a session, in terms of its log. */
  ghost predicate Describes(s: Session, since: seq<Entry>, u: Option<Row>) {
    && s.lastUsageAt == (if u.Some? then Some(u.value.at) else None)
    && s.lastContextAt == LastContextAt(since)
    && s.lastCacheRead == (if u.Some? then ValueOf(u.value.cacheRead) else None)
    && s.lastProvider == (if u.Some? then u.value.provider else None)
    && s.lastModel == (if u.Some? then ModelOf(u.value) else None)
    && (s.prefixBroke <==> AnyChange(since))
    && (s.incomplete <==> AnyIncomplete(since))
    && (s.truncated <==> AnyTruncated(since))
  }

  lemma UsageDescribes(s: Session, row: Row, stable: bool, ttlMs: Ttl)
    ensures Describes(AfterUsage(s, row, stable, ttlMs), [], Some(row))
  {
    hide VerdictOn, Record, ReasonOf;
    NothingYet();
  }

  lemma ContextDescribes(s: Session, since: seq<Entry>, u: Option<Row>, seen: Seen)
    requires Describes(s, since, u)
    ensures Describes(AfterContext(s, seen), since + [SawContext(seen)], u)
  {
    hide AnyChange, AnyIncomplete, AnyTruncated, LastContextAt, ModelOf, ValueOf, GrowthOf, Saturate;
    AnySnoc(since, SawContext(seen));
  }

  lemma PrefixDescribes(s: Session, since: seq<Entry>, u: Option<Row>, answer: PrefixObservation)
    requires Describes(s, since, u)
    ensures Describes(AfterPrefix(s, answer), since + [SawPrefix(answer)], u)
  {
    hide AnyChange, AnyIncomplete, AnyTruncated, LastContextAt, ModelOf, ValueOf;
    AnySnoc(since, SawPrefix(answer));
  }

  lemma StepDescribes(s: Session, since: seq<Entry>, u: Option<Row>, e: Entry)
    requires Describes(s, since, u) && !e.SawUsage?
    ensures Describes(After(s, e), since + [e], u)
  {
    hide AnyChange, AnyIncomplete, AnyTruncated, LastContextAt, ModelOf, ValueOf, AfterContext, AfterPrefix, AfterUsage;
    AnySnoc(since, e);
    if e.SawContext? { ContextDescribes(s, since, u, e.seen); }
    if e.SawPrefix? { PrefixDescribes(s, since, u, e.answer); }
  }

  lemma {:induction false} LogDescribes(log: seq<Entry>)
    ensures Describes(Replay(log), Since(log), LastUsage(log))
  {
    hide Describes, After;
    if log == [] {
      NewDescribes();
    } else {
      var front, last := log[..|log| - 1], log[|log| - 1];
      LogDescribes(front);
      if last.SawUsage? {
        AfterIsUsage(Replay(front), last);
        UsageDescribes(Replay(front), last.row, last.stable, last.ttlMs);
      } else {
        StepDescribes(Replay(front), Since(front), LastUsage(front), last);
      }
    }
  }

  lemma AfterIsUsage(s: Session, e: Entry)
    requires e.SawUsage?
    ensures After(s, e) == AfterUsage(s, e.row, e.stable, e.ttlMs)
  {}

  lemma NewDescribes()
    ensures Describes(NEW_SESSION, [], None)
  {
    NothingYet();
  }

  // ---- accumulators --------------------------------------------------------------

  /** Characters injected and grown, as measured along the log. */
  function InjectedIn(es: seq<Entry>): nat {
    if es == [] then 0
    else InjectedIn(es[..|es| - 1]) + (if es[|es| - 1].SawContext? && !es[|es| - 1].seen.fails
      then es[|es| - 1].seen.injected.chars else 0)
  }

  /** Growth is measured against the message count of the session when it was seen. */
  function GrownBy(s: Session, e: Entry): Measured {
    if e.SawContext? && !e.seen.fails then GrowthOf(s, e.seen) else Measured(0, false)
  }

  function GrownSince(log: seq<Entry>): nat {
    if log == [] || log[|log| - 1].SawUsage? then 0
    else GrownSince(log[..|log| - 1]) + GrownBy(Replay(log[..|log| - 1]), log[|log| - 1]).chars
  }

  /** Some single measurement hit its own bound. */
  predicate CappedOnce(log: seq<Entry>) {
    log != [] && !log[|log| - 1].SawUsage?
    && (var e := log[|log| - 1];
        CappedOnce(log[..|log| - 1]) || GrownBy(Replay(log[..|log| - 1]), e).capped
        || (e.SawContext? && !e.seen.fails && e.seen.injected.capped))
  }

  ghost predicate Accumulates(s: Session, injected: nat, grown: nat, cappedOnce: bool) {
    && s.injected == Saturate(injected) && s.grown == Saturate(grown)
    && (s.capped <==> cappedOnce || injected >= MAX_ATTRIBUTION_CHARS || grown >= MAX_ATTRIBUTION_CHARS)
  }

  lemma ContextAccumulates(s: Session, c: Seen, injected: nat, grown: nat, cappedOnce: bool)
    requires Accumulates(s, injected, grown, cappedOnce)
    ensures c.fails ==> Accumulates(AfterContext(s, c), injected, grown, cappedOnce)
    ensures !c.fails ==> Accumulates(AfterContext(s, c), injected + c.injected.chars, grown + GrowthOf(s, c).chars,
                                     cappedOnce || GrowthOf(s, c).capped || c.injected.capped)
  {
    hide GrowthOf;
  }

  lemma {:induction false} LogAccumulates(log: seq<Entry>)
    ensures Accumulates(Replay(log), InjectedIn(Since(log)), GrownSince(log), CappedOnce(log))
  {
    hide AfterContext, AfterPrefix, AfterUsage, GrowthOf, Accumulates;
    if log == [] || log[|log| - 1].SawUsage? {
      StartsEmpty(log);
    } else {
      var front, last := log[..|log| - 1], log[|log| - 1];
      LogAccumulates(front);
      assert (Since(front) + [last])[..|Since(front)|] == Since(front);
      if last.SawContext? {
        ContextAccumulates(Replay(front), last.seen, InjectedIn(Since(front)), GrownSince(front), CappedOnce(front));
      } else {
        PrefixAccumulates(Replay(front), last, InjectedIn(Since(front)), GrownSince(front), CappedOnce(front));
      }
    }
  }

  lemma PrefixAccumulates(s: Session, e: Entry, injected: nat, grown: nat, cappedOnce: bool)
    requires Accumulates(s, injected, grown, cappedOnce) && (e.SawPrefix? || e.Refreshed?)
    ensures Accumulates(After(s, e), injected, grown, cappedOnce)
  {}

  lemma StartsEmpty(log: seq<Entry>)
    requires log == [] || log[|log| - 1].SawUsage?
    ensures Accumulates(Replay(log), 0, 0, false)
  {
    hide VerdictOn, Record, ReasonOf;
  }

  // ---- when a row reads ttl-expired ----------------------------------------------

  /** Everything that must have been seen for a heuristic cause: a shortfall in a stable session,
      a `context` call since the previous row, all of them complete and untruncated, no prefix
      change, the same known provider and model, and no malformed usage. */
  ghost predicate Conclusive(since: seq<Entry>, u: Option<Row>, row: Row, stable: bool) {
    && u.Some? && Shortfall(ValueOf(row.cacheRead), ValueOf(u.value.cacheRead)).Some? && stable
    && LastContextAt(since).Some? && !AnyIncomplete(since) && !AnyTruncated(since) && !AnyChange(since)
    && row.provider.Some? && ModelOf(row).Some? && row.provider == u.value.provider && ModelOf(row) == ModelOf(u.value)
    && !UsageMalformed(row)
  }

  lemma ConclusiveIsEvidence(s: Session, since: seq<Entry>, u: Option<Row>, row: Row, stable: bool, ttlMs: Ttl)
    requires Describes(s, since, u)
    ensures var e := EvidenceOf(s, row, stable, ttlMs);
            Conclusive(since, u, row, stable)
            <==> && Shortfall(e.cacheRead, e.prior).Some? && e.stableSession && !e.prefixBroke && !e.identityChanged
                 && e.gap.basis == RequestTime && !e.incomplete && !e.truncated && !e.malformed && e.identityAvailable
  {
    hide AnyChange, AnyIncomplete, AnyTruncated, LastContextAt, ModelOf, ValueOf, UsageMalformed, EstimateTokens,
      Shortfall;
    assert Shortfall(ValueOf(row.cacheRead), None).None? by { NoPriorNoShortfall(ValueOf(row.cacheRead)); }
  }

  lemma NoPriorNoShortfall(cacheRead: Option<real>)
    ensures Shortfall(cacheRead, None) == None
  {}

  lemma ClassifyTtlIff(e: Evidences)
    ensures (Classify(e).Some? && Classify(e).value.cause == TtlExpired)
            <==> && Shortfall(e.cacheRead, e.prior).Some? && e.stableSession && !e.prefixBroke && !e.identityChanged
                 && e.gap.basis == RequestTime && !e.incomplete && !e.truncated && !e.malformed && e.identityAvailable
                 && e.gap.ms.Some? && e.gap.ms.value as real >= e.ttlMs
  {
    hide Shortfall, FarAboveNewContent;
  }

  /** A usage row reads ttl-expired exactly when the evidence is conclusive and the last
      `context` call of the session came at least the TTL after its previous usage row. */
  lemma TtlExpiredIff(log: seq<Entry>, row: Row, stable: bool, ttlMs: Ttl)
    ensures var v, since, u := VerdictOn(Replay(log), row, stable, ttlMs), Since(log), LastUsage(log);
            (v.Some? && v.value.cause == TtlExpired)
            <==> && Conclusive(since, u, row, stable)
                 && AtLeastZero(LastContextAt(since).value - u.value.at) as real >= ttlMs
  {
    hide Conclusive, Classify, AnyChange, AnyIncomplete, AnyTruncated, LastContextAt, Shortfall, Since, LastUsage,
      Replay, ModelOf, ValueOf, UsageMalformed;
    var s, since, u := Replay(log), Since(log), LastUsage(log);
    LogDescribes(log);
    ConclusiveIsEvidence(s, since, u, row, stable, ttlMs);
    ClassifyTtlIff(EvidenceOf(s, row, stable, ttlMs));
    ConclusiveHas(since, u, row, stable);
  }

  lemma ConclusiveHas(since: seq<Entry>, u: Option<Row>, row: Row, stable: bool)
    ensures Conclusive(since, u, row, stable) ==> u.Some? && LastContextAt(since).Some?
  {}

  /** That is real elapsed time, whatever the clock did: the TTL is positive. */
  lemma TtlExpiredMeansElapsed(log: seq<Entry>, row: Row, stable: bool, ttlMs: Ttl)
    requires VerdictOn(Replay(log), row, stable, ttlMs).Some?
    requires VerdictOn(Replay(log), row, stable, ttlMs).value.cause == TtlExpired
    ensures Conclusive(Since(log), LastUsage(log), row, stable)
    ensures (LastContextAt(Since(log)).value - LastUsage(log).value.at) as real >= ttlMs
  {
    hide Conclusive, VerdictOn;
    TtlExpiredIff(log, row, stable, ttlMs);
    ConclusiveHas(Since(log), LastUsage(log), row, stable);
  }

  lemma ClassifyEvictionIff(e: Evidences)
    ensures (Classify(e).Some? && Classify(e).value.cause == PartialEviction)
            <==> && Shortfall(e.cacheRead, e.prior) == Some(LowRead) && e.stableSession
                 && !e.prefixBroke && !e.identityChanged
                 && e.gap.basis == RequestTime && !e.incomplete && !e.truncated && !e.malformed && e.identityAvailable
                 && !(e.gap.ms.Some? && e.gap.ms.value as real >= e.ttlMs)
                 && !e.capped && FarAboveNewContent(e.input, e.estimatedNewTokens)
  {
    hide Shortfall, FarAboveNewContent;
  }

  /** A row reads partial-eviction exactly when the evidence is conclusive, the gap is under the
      TTL, the read is low but not zero, no measurement since the previous row was capped, and the
      fresh input is far above the exact sum of what was injected and what the transcript grew. */
  lemma PartialEvictionIff(log: seq<Entry>, row: Row, stable: bool, ttlMs: Ttl)
    ensures var v, since, u := VerdictOn(Replay(log), row, stable, ttlMs), Since(log), LastUsage(log);
            var injected, grown := InjectedIn(since), GrownSince(log);
            (v.Some? && v.value.cause == PartialEviction)
            <==> && Conclusive(since, u, row, stable)
                 && AtLeastZero(LastContextAt(since).value - u.value.at) as real < ttlMs
                 && Shortfall(ValueOf(row.cacheRead), ValueOf(u.value.cacheRead)) == Some(LowRead)
                 && !CappedOnce(log) && injected < MAX_ATTRIBUTION_CHARS && grown < MAX_ATTRIBUTION_CHARS
                 && FarAboveNewContent(InputOf(row), EstimateTokens(injected + grown))
  {
    hide Conclusive, Classify, AnyChange, AnyIncomplete, AnyTruncated, LastContextAt, Shortfall, Since, LastUsage,
      Replay,
         ModelOf, ValueOf, UsageMalformed, FarAboveNewContent, EstimateTokens, InjectedIn, GrownSince, CappedOnce;
    var s, since, u := Replay(log), Since(log), LastUsage(log);
    LogDescribes(log);
    LogAccumulates(log);
    ConclusiveIsEvidence(s, since, u, row, stable, ttlMs);
    ClassifyEvictionIff(EvidenceOf(s, row, stable, ttlMs));
    ConclusiveHas(since, u, row, stable);
  }

  function InputOf(row: Row): real { if ValueOf(row.input).Some? then ValueOf(row.input).value else 0.0 }

  // ---- the summary counters ------------------------------------------------------

  /** Rows whose cache read could not be read. */
  function Unreadable(log: seq<Entry>): nat {
    if log == [] then 0
    else Unreadable(log[..|log| - 1]) + (if log[|log| - 1].SawUsage? && ValueOf(log[|log| - 1].row.cacheRead).None?
      then 1 else 0)
  }

  /** Zero reads with no readable row before them. */
  function FirstZeroReads(log: seq<Entry>): nat {
    if log == [] then 0
    else
      var front, last := log[..|log| - 1], log[|log| - 1];
      FirstZeroReads(front)
      + (if last.SawUsage? && ValueOf(last.row.cacheRead) == Some(0.0) && Replay(front).lastCacheRead.None? then 1
        else 0)
  }

  function UsageRows(log: seq<Entry>): nat {
    if log == [] then 0 else UsageRows(log[..|log| - 1]) + (if log[|log| - 1].SawUsage? then 1 else 0)
  }

  lemma SummaryStep(s: Session, row: Row, stable: bool, ttlMs: Ttl)
    ensures var b, a := s.summary, AfterUsage(s, row, stable, ttlMs).summary;
            var cr := ValueOf(row.cacheRead);
            && a.usageRecords == b.usageRecords + 1
            && a.cacheHits + a.misses == b.cacheHits + b.misses + (if cr.None? then 0 else 1)
            && |a.causes| - a.misses == |b.causes| - b.misses - (if cr == Some(0.0) && s.lastCacheRead.None? then 1
              else 0)
  {
    hide Classify, EvidenceOf;
  }

  /** The counters of a session since its state was created: every usage row is a hit, a miss or
      unreadable, and every miss has a cause except zero reads that had no prior sample. */
  lemma {:induction false} CountersAddUp(log: seq<Entry>)
    ensures var m := Replay(log).summary;
            && m.usageRecords == UsageRows(log) == m.cacheHits + m.misses + Unreadable(log)
            && |m.causes| + FirstZeroReads(log) == m.misses
  {
    hide AfterUsage, AfterContext, AfterPrefix, ValueOf;
    if log == [] {
    } else {
      var front, last := log[..|log| - 1], log[|log| - 1];
      CountersAddUp(front);
      match last {
        case SawUsage(row, stable, ttlMs) => SummaryStep(Replay(front), row, stable, ttlMs);
        case _ => OthersKeepSummary(Replay(front), last);
      }
    }
  }

  lemma OthersKeepSummary(s: Session, e: Entry)
    requires !e.SawUsage?
    ensures After(s, e).summary == s.summary && After(s, e).lastCacheRead == s.lastCacheRead
  {}

  // ---- every trace of the module -------------------------------------------------

  function Run(trace: seq<Event>): Tracked {
    if trace == [] then Tracked([], []) else Next(Run(trace[..|trace| - 1]), trace[|trace| - 1])
  }

  predicate Concerns(e: Event, key: string) { !e.Reset? && AttributionKey(e.id) == key }

  /** The log entry an event leaves on the session it concerns. */
  function EntryOf(t: Tracked, e: Event): Entry
    requires !e.Reset?
  {
    match e
    case Context(_, seen) => SawContext(seen)
    case Prefix(id, hash) => SawPrefix(Observe(t, AttributionKey(id), hash))
    case Usage(id, row, ttlMs) => SawUsage(row, IsStable(id), ttlMs)
    case _ => Refreshed
  }

  /** The log of one session since its state was last created; an eviction, a clear or the end
      of the session empties it. */
  function LogOf(trace: seq<Event>, key: string): seq<Entry> {
    if trace == [] then []
    else
      var front, e := trace[..|trace| - 1], trace[|trace| - 1];
      if Lookup(Run(trace).sessions, key).None? then []
      else if Concerns(e, key) then LogOf(front, key) + [EntryOf(Run(front), e)]
      else LogOf(front, key)
  }

  ghost predicate WellFormed(t: Tracked) {
    Unique(t.sessions) && forall i :: 0 <= i < |t.sessions| ==> t.sessions[i].1.Some?
  }

  lemma {:induction false} GetSuffix<V>(m: Stored<string, V>, n: nat, key: string)
    requires Unique(m) && n <= |m|
    ensures Get(m[n..], key).Some? ==> Get(m[n..], key) == Get(m, key)
  {
    if n == 0 {
    } else {
      assert m[1..][n - 1..] == m[n..];
      GetSuffix(m[1..], n - 1, key);
      HasIsGet(m[1..], key);
    }
  }

  /** Fetching one session makes it the newest; any other one is untouched or evicted. */
  lemma UpdatedLookup(t: Tracked, key: string, s: Session, other: string)
    requires WellFormed(t)
    ensures WellFormed(Updated(t, key, s))
    ensures Lookup(Updated(t, key, s).sessions, key) == Some(s)
    ensures other != key && Lookup(Updated(t, key, s).sessions, other).Some? ==>
              Lookup(Updated(t, key, s).sessions, other) == Lookup(t.sessions, other)
  {
    var m := Touch(t.sessions, key, Some(s));
    var n := Overflow(m, MAX_TRACKED_SESSIONS);
    TouchUnique(t.sessions, key, Some(s));
    RemoveShape(t.sessions, key);
    RemoveKeepsSome(t.sessions, key);
    assert m == Remove(t.sessions, key) + [(key, Some(s))];
    GetAt(m[n..], |m[n..]| - 1);
    GetSuffix(m, n, other);
    GetAppend(Remove(t.sessions, key), [(key, Some(s))], other);
  }

  lemma {:induction false} RemoveKeepsSome(m: Stored<string, Session>, key: string)
    requires forall i :: 0 <= i < |m| ==> m[i].1.Some?
    ensures forall i :: 0 <= i < |Remove(m, key)| ==> Remove(m, key)[i].1.Some?
  {
    if m == [] {
    } else {
      RemoveKeepsSome(m[1..], key);
    }
  }

  lemma PromoteLookup(t: Tracked, key: string, other: string)
    requires WellFormed(t)
    ensures WellFormed(t.(sessions := Promote(t.sessions, key)))
    ensures Lookup(Promote(t.sessions, key), other) == Lookup(t.sessions, other)
  {
    var found: Option<Option<Session>> := Get(t.sessions, key);
    if found.Some? && found.value.Some? {
      TouchUnique(t.sessions, key, found.value);
      RemoveShape(t.sessions, key);
      RemoveKeepsSome(t.sessions, key);
      HasIsGet(Remove(t.sessions, key), key);
      GetAppend(Remove(t.sessions, key), [(key, found.value)], other);
    }
  }

  lemma RemoveLookup(t: Tracked, key: string, other: string)
    requires WellFormed(t)
    ensures WellFormed(t.(sessions := Remove(t.sessions, key)))
    ensures Lookup(Remove(t.sessions, key), other) == if other == key then None else Lookup(t.sessions, other)
  {
    RemoveShape(t.sessions, key);
    RemoveKeepsSome(t.sessions, key);
    HasIsGet(Remove(t.sessions, key), key);
  }

  /** What an event leaves of a session that is still tracked afterwards. */
  lemma NextLookup(t: Tracked, e: Event, key: string)
    requires WellFormed(t)
    ensures WellFormed(Next(t, e))
    ensures var after := Lookup(Next(t, e).sessions, key);
            after.Some? ==> after.value == if Concerns(e, key) then After(SessionOf(t, key), EntryOf(t, e))
              else SessionOf(t, key)
    ensures Concerns(e, key) && (e.Context? || e.Usage? || e.Note? || (e.Prefix? && e.hash.Some?)) ==>
            Lookup(Next(t, e).sessions, key).Some?
    ensures !Concerns(e, key) && Lookup(Next(t, e).sessions, key).Some? ==> Lookup(t.sessions, key).Some?
    ensures Concerns(e, key) && (e.Peek? || e.EndSession? || (e.Prefix? && e.hash.None?))
            && Lookup(Next(t, e).sessions, key).Some? ==>
              Lookup(t.sessions, key).Some?
  {
    hide AfterContext, AfterUsage, AfterPrefix, Updated, Promote;
    match e {
      case Context(id, seen) => UpdatedLookup(t, AttributionKey(id),
        AfterContext(SessionOf(t, AttributionKey(id)), seen), key);
      case Prefix(id, hash) =>
        var k := AttributionKey(id);
        var s := AfterPrefix(SessionOf(t, k), Observe(t, k, hash));
        UpdatedLookup(t, k, s, key);
        EmptyIsNothing(SessionOf(t, k));
      case Usage(id, row, ttlMs) =>
        UpdatedLookup(t, AttributionKey(id), AfterUsage(SessionOf(t, AttributionKey(id)), row, IsStable(id), ttlMs),
          key);
      case Note(id) => UpdatedLookup(t, AttributionKey(id), SessionOf(t, AttributionKey(id)), key);
      case Peek(id) => PromoteLookup(t, AttributionKey(id), key);
      case EndSession(id) =>
        PromoteLookup(t, AttributionKey(id), key);
        RemoveLookup(t, AttributionKey(id), key);
      case Forget(id) => RemoveLookup(t, AttributionKey(id), key);
      case Reset =>
    }
  }

  lemma EmptyIsNothing(s: Session)
    ensures AfterPrefix(s, Empty) == s
  {}

  lemma {:induction false} RunWellFormed(trace: seq<Event>)
    ensures WellFormed(Run(trace))
  {
    hide Next;
    if trace == [] {
    } else {
      RunWellFormed(trace[..|trace| - 1]);
      NextLookup(Run(trace[..|trace| - 1]), trace[|trace| - 1], "");
    }
  }

  /** The state the module keeps for a session is a replay of that session's log. */
  lemma {:induction false} SessionIsReplay(trace: seq<Event>, key: string)
    ensures SessionOf(Run(trace), key) == Replay(LogOf(trace, key))
  {
    hide Next, After, EntryOf;
    if trace == [] {
    } else {
      var front, e := trace[..|trace| - 1], trace[|trace| - 1];
      SessionIsReplay(front, key);
      RunWellFormed(front);
      NextLookup(Run(front), e, key);
      if Lookup(Run(trace).sessions, key).Some? && Concerns(e, key) {
        ReplaySnoc(LogOf(front, key), Run(front), e);
      }
    }
  }

  lemma ReplaySnoc(log: seq<Entry>, t: Tracked, e: Event)
    requires !e.Reset?
    ensures Replay(log + [EntryOf(t, e)]) == After(Replay(log), EntryOf(t, e))
  {
    hide After, EntryOf;
    assert (log + [EntryOf(t, e)])[..|log|] == log;
  }

  /** Soundness over traces: if the row logged after a trace reads ttl-expired, then since that
      session's previous usage row, with its state kept throughout, a `context` call came at least
      the TTL later, every one in between was complete and untruncated, no prefix change was
      reported, and provider and model are those of that row. */
  lemma TtlVerdictIsSound(trace: seq<Event>, id: Identity, row: Row, ttlMs: Ttl)
    requires var v := VerdictOn(SessionOf(Run(trace), AttributionKey(id)), row, IsStable(id), ttlMs);
             v.Some? && v.value.cause == TtlExpired
    ensures var log := LogOf(trace, AttributionKey(id));
            && Conclusive(Since(log), LastUsage(log), row, IsStable(id))
            && (LastContextAt(Since(log)).value - LastUsage(log).value.at) as real >= ttlMs
  {
    hide VerdictOn, Conclusive;
    SessionIsReplay(trace, AttributionKey(id));
    TtlExpiredMeansElapsed(LogOf(trace, AttributionKey(id)), row, IsStable(id), ttlMs);
  }

  /** At every moment of every trace the counters of every session add up. */
  lemma SummariesAddUp(trace: seq<Event>, key: string)
    ensures var m, log := SessionOf(Run(trace), key).summary, LogOf(trace, key);
            && m.usageRecords == UsageRows(log) == m.cacheHits + m.misses + Unreadable(log)
            && |m.causes| + FirstZeroReads(log) == m.misses
  {
    SessionIsReplay(trace, key);
    CountersAddUp(LogOf(trace, key));
  }
}
