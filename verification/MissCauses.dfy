/** The five causes of a cache miss, their reasons and their counters, read off the log of the
    session (clients/cache-observability.ts:580-745, 1180-1222). */
module MissCauses {
  import opened JsMap
  import opened BoundedCache
  import opened Numbers
  import opened MissAttribution
  import opened MissAttributionTraces

  // ---- what a row and its predecessor say ----------------------------------------

  /** The usage row reports this many cached tokens. */
  predicate Reads(row: Row, tokens: real) { row.cacheRead == Available(tokens) && tokens >= 0.0 }

  predicate Readable(row: Row) { row.cacheRead.Available? && row.cacheRead.value >= 0.0 }

  /** There is a readable previous row to compare with. */
  predicate Comparable(u: Option<Row>) { u.Some? && Readable(u.value) }

  /** Nothing was read from the cache, or less than half of what the previous row read. */
  function FellShort(u: Option<Row>, row: Row): Option<Kind> {
    if !Comparable(u) || !Readable(row) then None
    else if Reads(row, 0.0) then Some(ZeroRead)
    else if row.cacheRead.value + row.cacheRead.value < u.value.cacheRead.value then Some(LowRead)
    else None
  }

  predicate Known(row: Row) { row.provider.Some? && (row.responseModel.Some? || row.model.Some?) }

  /** The model that answered, where the host names it, or the one that was asked. */
  predicate SameModel(a: Row, b: Row) {
    (if a.responseModel.Some? then a.responseModel else a.model)
    == (if b.responseModel.Some? then b.responseModel else b.model)
  }

  /** Both rows name their provider and model. */
  predicate BothKnown(u: Option<Row>, row: Row) { u.Some? && Known(u.value) && Known(row) }

  predicate OtherModelOrProvider(u: Option<Row>, row: Row) {
    BothKnown(u, row) && (u.value.provider != row.provider || !SameModel(u.value, row))
  }

  /** A first message that was seen before, or for the first time. */
  predicate Steady(e: Entry) { e == SawPrefix(Baseline) || e == SawPrefix(Unchanged) }

  predicate AnySteady(es: seq<Entry>) { exists i :: 0 <= i < |es| && Steady(es[i]) }

  /** A shortfall in a session with an id of its own. */
  ghost predicate Attributable(u: Option<Row>, row: Row, stable: bool) { FellShort(u, row).Some? && stable }

  lemma ShortfallIs(u: Option<Row>, row: Row)
    ensures FellShort(u, row) == Shortfall(ValueOf(row.cacheRead), if u.Some? then ValueOf(u.value.cacheRead) else None)
  {}

  /** What the verdict is given, in terms of the log. */
  lemma EvidenceIs(s: Session, since: seq<Entry>, u: Option<Row>, row: Row, stable: bool, ttlMs: Ttl)
    requires Describes(s, since, u)
    ensures var e := EvidenceOf(s, row, stable, ttlMs);
            && Shortfall(e.cacheRead, e.prior) == FellShort(u, row) && e.stableSession == stable
            && (e.prefixBroke <==> AnyChange(since)) && (e.incomplete <==> AnyIncomplete(since))
            && (e.truncated <==> AnyTruncated(since)) && (e.malformed <==> UsageMalformed(row))
            && (e.identityAvailable <==> BothKnown(u, row)) && (e.identityChanged <==> OtherModelOrProvider(u, row))
            && (u.Some? ==> (e.gap.basis == RequestTime <==> LastContextAt(since).Some?))
  {
    hide AnyChange, AnyIncomplete, AnyTruncated, LastContextAt, UsageMalformed, EstimateTokens, Shortfall, FellShort;
    ShortfallIs(u, row);
  }

  // ---- the two direct causes -----------------------------------------------------

  lemma ClassifyDirect(e: Evidences)
    ensures Classify(e).Some? <==> Shortfall(e.cacheRead, e.prior).Some?
    ensures Classify(e).Some? ==> Classify(e).value.kind == Shortfall(e.cacheRead, e.prior).value
    ensures (Classify(e).Some? && Classify(e).value.cause == PrefixBroke)
            <==> Shortfall(e.cacheRead, e.prior).Some? && e.stableSession && e.prefixBroke
    ensures (Classify(e).Some? && Classify(e).value.cause == ModelProviderChanged)
            <==> Shortfall(e.cacheRead, e.prior).Some? && e.stableSession && !e.prefixBroke && e.identityChanged
    ensures Classify(e).Some? ==> (Classify(e).value.reason.Some? <==> Classify(e).value.cause == UnknownCause)
  {
    hide Shortfall, FarAboveNewContent;
  }

  /** Whatever the verdict on a row. */
  ghost predicate HasCause(v: Option<Verdict>, cause: Cause) { v.Some? && v.value.cause == cause }
  ghost predicate HasReason(v: Option<Verdict>, reason: Reason) { v.Some? && v.value.reason == Some(reason) }

  /** There is a verdict exactly on a shortfall, and it says of which kind. */
  lemma VerdictIffShort(log: seq<Entry>, row: Row, stable: bool, ttlMs: Ttl)
    ensures var v, short := VerdictOn(Replay(log), row, stable, ttlMs), FellShort(LastUsage(log), row);
            (v.Some? <==> short.Some?) && (v.Some? ==> v.value.kind == short.value)
  {
    hide Classify, Describes, FellShort, Shortfall, Replay, Since, LastUsage, BothKnown, OtherModelOrProvider;
    LogDescribes(log);
    EvidenceIs(Replay(log), Since(log), LastUsage(log), row, stable, ttlMs);
    ClassifyDirect(EvidenceOf(Replay(log), row, stable, ttlMs));
  }

  /** A row reads prefix-broke exactly when it fell short in a stable session and a change of the
      first message was reported since the previous row. */
  lemma PrefixBrokeIff(log: seq<Entry>, row: Row, stable: bool, ttlMs: Ttl)
    ensures HasCause(VerdictOn(Replay(log), row, stable, ttlMs), PrefixBroke)
            <==> Attributable(LastUsage(log), row, stable) && AnyChange(Since(log))
  {
    hide Classify, Describes, FellShort, Shortfall, Replay, Since, LastUsage, BothKnown, OtherModelOrProvider;
    LogDescribes(log);
    EvidenceIs(Replay(log), Since(log), LastUsage(log), row, stable, ttlMs);
    ClassifyDirect(EvidenceOf(Replay(log), row, stable, ttlMs));
  }

  /** A row reads model-provider-changed exactly when it fell short in a stable session, no change
      of the first message was reported, and it names another provider or model than the
      previous row, both rows naming theirs. */
  lemma ModelProviderChangedIff(log: seq<Entry>, row: Row, stable: bool, ttlMs: Ttl)
    ensures HasCause(VerdictOn(Replay(log), row, stable, ttlMs), ModelProviderChanged)
            <==> && Attributable(LastUsage(log), row, stable) && !AnyChange(Since(log))
                 && OtherModelOrProvider(LastUsage(log), row)
  {
    hide Classify, Describes, FellShort, Shortfall, Replay, Since, LastUsage, BothKnown, OtherModelOrProvider;
    LogDescribes(log);
    EvidenceIs(Replay(log), Since(log), LastUsage(log), row, stable, ttlMs);
    ClassifyDirect(EvidenceOf(Replay(log), row, stable, ttlMs));
  }

  // ---- unknown, and why ----------------------------------------------------------

  lemma SteadySnoc(es: seq<Entry>, e: Entry)
    ensures AnySteady(es + [e]) <==> AnySteady(es) || Steady(e)
  {
    var all := es + [e];
    assert all[|es|] == e;
    if i :| 0 <= i < |es| && Steady(es[i]) { assert Steady(all[i]); }
  }

  lemma StepSteady(s: Session, since: seq<Entry>, e: Entry)
    requires !e.SawUsage? && (!AnyChange(since) ==> (s.prefixStable <==> AnySteady(since)))
    ensures !AnyChange(since + [e]) ==> (After(s, e).prefixStable <==> AnySteady(since + [e]))
  {
    hide AnyChange, AnySteady, AnyIncomplete, AnyTruncated, LastContextAt;
    AnySnoc(since, e);
    SteadySnoc(since, e);
  }

  /** As long as no change is reported, the session remembers whether the first message was seen. */
  lemma {:induction false} LogSteady(log: seq<Entry>)
    ensures !AnyChange(Since(log)) ==> (Replay(log).prefixStable <==> AnySteady(Since(log)))
  {
    hide After, AnyChange;
    if log == [] {
    } else {
      var front, last := log[..|log| - 1], log[|log| - 1];
      if last.SawUsage? {
        AfterIsUsage(Replay(front), last);
      } else {
        LogSteady(front);
        StepSteady(Replay(front), Since(front), last);
      }
    }
  }

  /** The idle time before the request reached the TTL. */
  predicate Idle(since: seq<Entry>, u: Option<Row>, ttlMs: Ttl) {
    u.Some? && LastContextAt(since).Some? && (LastContextAt(since).value - u.value.at) as real >= ttlMs
  }

  /** The least number of tokens for so many characters, at four characters each. */
  predicate TokensFor(tokens: nat, chars: nat) { 4 * tokens >= chars && 4 * tokens < chars + 4 }

  /** More than 512 fresh tokens of input, and more than four times what these characters amount to. */
  ghost predicate FarAbove(row: Row, chars: nat) {
    && row.input.Available? && row.input.value > 512.0
    && exists tokens: nat :: TokensFor(tokens, chars) && row.input.value > (4 * tokens) as real
  }

  /** The fresh input is far above everything measured since the previous row, and all of that could
      be measured: 262144 characters are the bound. */
  ghost predicate Overfull(log: seq<Entry>, row: Row) {
    var injected, grown := InjectedIn(Since(log)), GrownSince(log);
    && FellShort(LastUsage(log), row) == Some(LowRead)
    && !CappedOnce(log) && injected < 262144 && grown < 262144 && FarAbove(row, injected + grown)
  }

  lemma FarAboveIs(row: Row, chars: nat)
    ensures FarAbove(row, chars) <==> FarAboveNewContent(InputOf(row), EstimateTokens(chars))
  {
    var n := EstimateTokens(chars);
    assert TokensFor(n, chars);
    forall tokens: nat | TokensFor(tokens, chars) ensures tokens == n {}
  }

  lemma IdleIsGap(since: seq<Entry>, u: Option<Row>, ttlMs: Ttl)
    requires u.Some? && LastContextAt(since).Some?
    ensures Idle(since, u, ttlMs) <==> AtLeastZero(LastContextAt(since).value - u.value.at) as real >= ttlMs
  {}

  lemma ClassifyUnknown(e: Evidences)
    ensures HasCause(Classify(e), UnknownCause)
            <==> && Classify(e).Some? && !HasCause(Classify(e), PrefixBroke)
                 && !HasCause(Classify(e), ModelProviderChanged)
                 && !HasCause(Classify(e), TtlExpired) && !HasCause(Classify(e), PartialEviction)
  {
    hide Classify;
  }

  lemma TtlOrEviction(log: seq<Entry>, row: Row, stable: bool, ttlMs: Ttl)
    ensures var v, since, u := VerdictOn(Replay(log), row, stable, ttlMs), Since(log), LastUsage(log);
            && (HasCause(v, TtlExpired) <==> Conclusive(since, u, row, stable) && Idle(since, u, ttlMs))
            && (HasCause(v, PartialEviction) <==>
                  Conclusive(since, u, row, stable) && !Idle(since, u, ttlMs) && Overfull(log, row))
  {
    hide Conclusive, VerdictOn, Replay, Since, LastUsage, LastContextAt, CappedOnce, GrownSince, InjectedIn,
      FarAboveNewContent, EstimateTokens, FellShort, Shortfall, InputOf, FarAbove;
    var since, u := Since(log), LastUsage(log);
    TtlExpiredIff(log, row, stable, ttlMs);
    PartialEvictionIff(log, row, stable, ttlMs);
    ConclusiveHas(since, u, row, stable);
    ShortfallIs(u, row);
    FarAboveIs(row, InjectedIn(since) + GrownSince(log));
    if Conclusive(since, u, row, stable) { IdleIsGap(since, u, ttlMs); }
  }

  /** A row reads unknown exactly when it fell short and none of the four causes applies: no change
      of the first message and no other model in a stable session, and no conclusive evidence of
      an idle time over the TTL or of an eviction. */
  lemma UnknownIff(log: seq<Entry>, row: Row, stable: bool, ttlMs: Ttl)
    ensures var since, u := Since(log), LastUsage(log);
            HasCause(VerdictOn(Replay(log), row, stable, ttlMs), UnknownCause)
            <==> && FellShort(u, row).Some?
                 && (stable ==> !AnyChange(since) && !OtherModelOrProvider(u, row))
                 && (Conclusive(since, u, row, stable) ==> !Idle(since, u, ttlMs) && !Overfull(log, row))
  {
    hide Conclusive, Classify, Replay, Since, LastUsage, FellShort, Overfull, Idle, EvidenceOf, AnyChange,
      OtherModelOrProvider, HasCause;
    ClassifyUnknown(EvidenceOf(Replay(log), row, stable, ttlMs));
    VerdictIffShort(log, row, stable, ttlMs);
    PrefixBrokeIff(log, row, stable, ttlMs);
    ModelProviderChangedIff(log, row, stable, ttlMs);
    TtlOrEviction(log, row, stable, ttlMs);
  }

  /** A shortfall in a stable session, without a direct cause, whose request was observed. */
  ghost predicate Observed(since: seq<Entry>, u: Option<Row>, row: Row, stable: bool) {
    && Attributable(u, row, stable) && !AnyChange(since) && !OtherModelOrProvider(u, row)
    && LastContextAt(since).Some?
  }

  lemma ClassifyReasons(e: Evidences, heard: bool)
    requires heard <==> && Shortfall(e.cacheRead, e.prior).Some? && e.stableSession && !e.prefixBroke
                        && !e.identityChanged && e.gap.basis == RequestTime
    ensures HasReason(Classify(e), RequestCorrelationUnavailable)
            <==> && Shortfall(e.cacheRead, e.prior).Some?
                 && (e.stableSession ==> !e.prefixBroke && !e.identityChanged && e.gap.basis != RequestTime)
    ensures HasReason(Classify(e), RequestEvidenceIncomplete) <==> heard && e.incomplete
    ensures HasReason(Classify(e), SequenceHashTruncated) <==> heard && !e.incomplete && e.truncated
    ensures HasReason(Classify(e), MalformedProviderUsage) <==> heard && !e.incomplete && !e.truncated && e.malformed
    ensures HasReason(Classify(e), ModelProviderUnavailable)
            <==> heard && !e.incomplete && !e.truncated && !e.malformed && !e.identityAvailable
    ensures HasReason(Classify(e), ZeroReadStablePrefix) || HasReason(Classify(e), LowReadStablePrefix)
            || HasReason(Classify(e), NoLocalExplanation)
            <==> heard && !e.incomplete && !e.truncated && !e.malformed && e.identityAvailable
                 && HasCause(Classify(e), UnknownCause)
    ensures HasReason(Classify(e), NoLocalExplanation) ==> !e.prefixStable
    ensures HasReason(Classify(e), ZeroReadStablePrefix) ==> e.prefixStable && Classify(e).value.kind == ZeroRead
    ensures HasReason(Classify(e), LowReadStablePrefix) ==> e.prefixStable && Classify(e).value.kind == LowRead
    ensures !HasReason(Classify(e), NoPriorSample) && !HasReason(Classify(e), CacheReadUnavailable)
  {
    hide Shortfall, FarAboveNewContent;
  }

  /** The reason of an unknown cause names the first evidence that is missing, in this order: a
      session id, a request that was seen, all of it, none of it truncated, well-formed usage,
      and both models and providers. With all of that it says whether the first message was seen. */
  lemma ReasonIff(log: seq<Entry>, row: Row, stable: bool, ttlMs: Ttl)
    ensures var v, since, u := VerdictOn(Replay(log), row, stable, ttlMs), Since(log), LastUsage(log);
            var observed, unexplained := Observed(since, u, row, stable),
                                         HasCause(v, UnknownCause) && Conclusive(since, u, row, stable);
            && (HasReason(v, RequestCorrelationUnavailable) <==>
                  && FellShort(u, row).Some?
                  && (stable ==>
                        !AnyChange(since) && !OtherModelOrProvider(u, row) && LastContextAt(since).None?))
            && (HasReason(v, RequestEvidenceIncomplete) <==> observed && AnyIncomplete(since))
            && (HasReason(v, SequenceHashTruncated) <==> observed && !AnyIncomplete(since) && AnyTruncated(since))
            && (HasReason(v, MalformedProviderUsage) <==>
                  observed && !AnyIncomplete(since) && !AnyTruncated(since) && UsageMalformed(row))
            && (HasReason(v, ModelProviderUnavailable) <==>
                  && observed && !AnyIncomplete(since) && !AnyTruncated(since) && !UsageMalformed(row)
                  && !BothKnown(u, row))
            && (HasReason(v, ZeroReadStablePrefix) <==>
                  unexplained && FellShort(u, row) == Some(ZeroRead) && AnySteady(since))
            && (HasReason(v, LowReadStablePrefix) <==>
                  unexplained && FellShort(u, row) == Some(LowRead) && AnySteady(since))
            && (HasReason(v, NoLocalExplanation) <==> unexplained && !AnySteady(since))
  {
    hide Conclusive, Classify, Replay, Since, LastUsage, FellShort, Shortfall, AnyChange, AnyIncomplete, AnyTruncated,
      AnySteady, OtherModelOrProvider, BothKnown, UsageMalformed, LastContextAt, Describes, EvidenceOf;
    var s, since, u := Replay(log), Since(log), LastUsage(log);
    var e := EvidenceOf(s, row, stable, ttlMs);
    LogDescribes(log);
    LogSteady(log);
    EvidenceIs(s, since, u, row, stable, ttlMs);
    ConclusiveIsEvidence(s, since, u, row, stable, ttlMs);
    ConclusiveHas(since, u, row, stable);
    NoRowNoShortfall(u, row);
    PrefixStableIs(s, row, stable, ttlMs);
    ClassifyReasons(e, Observed(since, u, row, stable));
    VerdictIffShort(log, row, stable, ttlMs);
    ReasonsExclude(Classify(e));
  }

  lemma NoRowNoShortfall(u: Option<Row>, row: Row)
    ensures FellShort(u, row).Some? ==> u.Some?
  {}

  lemma PrefixStableIs(s: Session, row: Row, stable: bool, ttlMs: Ttl)
    ensures EvidenceOf(s, row, stable, ttlMs).prefixStable == s.prefixStable
  {}

  /** A verdict has at most one reason. */
  lemma ReasonsExclude(v: Option<Verdict>)
    ensures forall a, b :: HasReason(v, a) && HasReason(v, b) ==> a == b
  {}

  /** The reason logged with a row: malformed usage before anything else, a read that is not there,
      a first read of nothing, or the reason of its verdict. */
  lemma LoggedReasonIs(log: seq<Entry>, row: Row, stable: bool, ttlMs: Ttl)
    ensures var v, u := VerdictOn(Replay(log), row, stable, ttlMs), LastUsage(log);
            ReasonOf(Replay(log), row, v)
            == if UsageMalformed(row) then Some(MalformedProviderUsage)
               else if !Readable(row) then Some(CacheReadUnavailable)
               else if !Comparable(u) && Reads(row, 0.0) then Some(NoPriorSample)
               else if v.Some? then v.value.reason else None
  {
    hide VerdictOn, Replay, Since, LastUsage, UsageMalformed;
    PriorIs(log);
  }

  // ---- the counters, cause by cause ----------------------------------------------

  /** Rows of the log that read this cause, this reason, a hit or a miss. */
  ghost function RowsWith(log: seq<Entry>, cause: Cause): nat {
    if log == [] then 0
    else
      var front, e := log[..|log| - 1], log[|log| - 1];
      RowsWith(front, cause)
      + if e.SawUsage? && HasCause(VerdictOn(Replay(front), e.row, e.stable, e.ttlMs), cause) then 1 else 0
  }

  /** The reason counted with a row: malformed usage before anything else, a read that is not
      there, a first read of nothing, or the reason of an unknown cause. */
  ghost predicate CountsAs(front: seq<Entry>, e: Entry, reason: Reason)
    requires e.SawUsage?
  {
    var u, row := LastUsage(front), e.row;
    if UsageMalformed(row) then reason == MalformedProviderUsage
    else if !Readable(row) then reason == CacheReadUnavailable
    else if !Comparable(u) then Reads(row, 0.0) && reason == NoPriorSample
    else HasReason(VerdictOn(Replay(front), row, e.stable, e.ttlMs), reason)
  }

  ghost function RowsFor(log: seq<Entry>, reason: Reason): nat {
    if log == [] then 0
    else
      var front, e := log[..|log| - 1], log[|log| - 1];
      RowsFor(front, reason) + if e.SawUsage? && CountsAs(front, e, reason) then 1 else 0
  }

  /** A readable row that is no miss: it did not fall short, or is the first and read something. */
  predicate IsHit(u: Option<Row>, row: Row) {
    Readable(row) && if Comparable(u) then FellShort(u, row).None? else !Reads(row, 0.0)
  }

  predicate IsMiss(u: Option<Row>, row: Row) {
    Readable(row) && if Comparable(u) then FellShort(u, row).Some? else Reads(row, 0.0)
  }

  function Hits(log: seq<Entry>): nat {
    if log == [] then 0
    else
      var front, e := log[..|log| - 1], log[|log| - 1];
      Hits(front) + if e.SawUsage? && IsHit(LastUsage(front), e.row) then 1 else 0
  }

  function Misses(log: seq<Entry>): nat {
    if log == [] then 0
    else
      var front, e := log[..|log| - 1], log[|log| - 1];
      Misses(front) + if e.SawUsage? && IsMiss(LastUsage(front), e.row) then 1 else 0
  }

  /** One row moves exactly the counters that apply to it. */
  lemma RowCounts(front: seq<Entry>, e: Entry)
    requires e.SawUsage?
    ensures var s, u := Replay(front), LastUsage(front);
            var v := VerdictOn(s, e.row, e.stable, e.ttlMs);
            var b, a := s.summary, AfterUsage(s, e.row, e.stable, e.ttlMs).summary;
            && a.usageRecords == b.usageRecords + 1
            && a.cacheHits == b.cacheHits + (if IsHit(u, e.row) then 1 else 0)
            && a.misses == b.misses + (if IsMiss(u, e.row) then 1 else 0)
            && (forall c :: a.causes[c] == b.causes[c] + if HasCause(v, c) then 1 else 0)
            && (forall r :: a.reasons[r] == b.reasons[r] + if CountsAs(front, e, r) then 1 else 0)
  {
    hide VerdictOn, Replay, Since, LastUsage, UsageMalformed, FellShort;
    var s, u := Replay(front), LastUsage(front);
    VerdictIffShort(front, e.row, e.stable, e.ttlMs);
    VerdictReasons(s, e.row, e.stable, e.ttlMs);
    PriorIs(front);
    NoRowNoShortfall(u, e.row);
    ShortNeedsBoth(u, e.row);
  }

  lemma VerdictReasons(s: Session, row: Row, stable: bool, ttlMs: Ttl)
    ensures var v := VerdictOn(s, row, stable, ttlMs);
            v.Some? ==> (v.value.reason.Some? <==> v.value.cause == UnknownCause)
  {
    hide Classify;
    ClassifyDirect(EvidenceOf(s, row, stable, ttlMs));
  }

  lemma PriorIs(log: seq<Entry>)
    ensures var u := LastUsage(log);
            Replay(log).lastCacheRead == if Comparable(u) then Some(u.value.cacheRead.value) else None
  {
    hide Replay, Since, LastUsage;
    LogDescribes(log);
  }

  lemma ShortNeedsBoth(u: Option<Row>, row: Row)
    ensures FellShort(u, row).Some? ==> Comparable(u) && Readable(row)
  {}

  /** The counters of a session count its rows: each cause by the rows that read it, each reason
      by the rows counted under it, hits and misses by the reads alone. */
  lemma {:induction false} CountersCountRows(log: seq<Entry>)
    ensures var m := Replay(log).summary;
            && m.cacheHits == Hits(log) && m.misses == Misses(log)
            && (forall c :: m.causes[c] == RowsWith(log, c)) && (forall r :: m.reasons[r] == RowsFor(log, r))
  {
    hide AfterUsage, AfterContext, AfterPrefix, VerdictOn, CountsAs, IsHit, IsMiss;
    if log == [] {
    } else {
      var front, last := log[..|log| - 1], log[|log| - 1];
      CountersCountRows(front);
      if last.SawUsage? { RowCounts(front, last); } else { OthersKeepSummary(Replay(front), last); }
    }
  }

  /** At every moment of every trace. */
  lemma SummariesCountRows(trace: seq<Event>, key: string)
    ensures var m, log := SessionOf(Run(trace), key).summary, LogOf(trace, key);
            && m.cacheHits == Hits(log) && m.misses == Misses(log)
            && (forall c :: m.causes[c] == RowsWith(log, c)) && (forall r :: m.reasons[r] == RowsFor(log, r))
  {
    hide Replay, Hits, Misses, RowsWith, RowsFor, LogOf;
    SessionIsReplay(trace, key);
    CountersCountRows(LogOf(trace, key));
  }
}
