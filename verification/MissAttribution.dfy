/** Attribution of prompt-cache misses (clients/cache-observability.ts): the verdict on one
    usage row, the per-session state it is read from, and the module that keeps that state. */
module MissAttribution {
  import opened JsMap
  import opened BoundedCache
  import opened Numbers

  // ---- the configured TTL --------------------------------------------------------

  type Ttl = t: real | t > 0.0 witness 60000.0

  const DEFAULT_PROVIDER_CACHE_TTL_MS: Ttl := 60000.0

  /** `Number(value)` where that is a finite number, or none. */
  type EnvNumber = Option<real>

  /** `toPositiveFinite`: zero stands for every value that is not a positive finite number. */
  function ToPositiveFinite(env: EnvNumber): (n: real)
    ensures n >= 0.0
  {
    match env case Some(value) => if value > 0.0 then value else 0.0 case None => 0.0
  }

  /** The override where it is positive; what `Get` settles on. */
  function OverrideOr(env: EnvNumber, fallback: Ttl): Ttl {
    if env.Some? && env.value > 0.0 then env.value else fallback
  }

  /** The getter behind the TTL: read from the environment once, then remembered. Whatever the
      environment holds, the TTL is positive. */
  class LazyEnvNumber {
    var memo: Option<Ttl>
    const fallback: Ttl

    constructor (fallback: Ttl)
      ensures memo.None? && this.fallback == fallback
    {
      memo, this.fallback := None, fallback;
    }

    method Get(env: EnvNumber) returns (n: Ttl)
      modifies this`memo
      ensures memo == Some(n)
      ensures n == (match old(memo) case Some(t) => t case None => OverrideOr(env, fallback))
    {
      if memo.Some? { return memo.value; }
      var envValue := ToPositiveFinite(env);
      memo := Some(if envValue > 0.0 then envValue else fallback);
      n := memo.value;
    }
  }

  // ---- the verdict ---------------------------------------------------------------

  datatype Cause = TtlExpired | PrefixBroke | PartialEviction | ModelProviderChanged | UnknownCause

  datatype Reason =
    | NoPriorSample | CacheReadUnavailable | MalformedProviderUsage | RequestCorrelationUnavailable
    | RequestEvidenceIncomplete | SequenceHashTruncated | ModelProviderUnavailable
    | ZeroReadStablePrefix | LowReadStablePrefix | NoLocalExplanation

  datatype Kind = ZeroRead | LowRead

  datatype Verdict = Verdict(kind: Kind, cause: Cause, reason: Option<Reason>)

  datatype GapBasis = RequestTime | MessageEndFallback | NoPriorTurn

  datatype Gap = Gap(ms: Option<int>, basis: GapBasis)

  const LOW_CACHE_READ_RATIO := 0.5
  const PARTIAL_EVICTION_INPUT_FACTOR := 4
  const PARTIAL_EVICTION_MIN_FRESH_TOKENS := 512
  const CHARS_PER_ESTIMATED_TOKEN := 4
  const MAX_ATTRIBUTION_CHARS: nat := 262144

  datatype Evidence = Available(value: real) | Absent | Malformed

  /** A usage row. Hashes are injective, so an identity stands for its own hash; `responseModel`
      wins over `model`. */
  datatype Row = Row(
    at: int, input: Evidence, cacheRead: Evidence, otherMalformed: bool,
    provider: Option<string>, responseModel: Option<string>, model: Option<string>)

  function ValueOf(e: Evidence): Option<real> { if e.Available? && e.value >= 0.0 then Some(e.value) else None }

  /** A negative count is not readable: the reader reports it as malformed. */
  predicate IsMalformed(e: Evidence) { e.Malformed? || (e.Available? && e.value < 0.0) }

  predicate UsageMalformed(row: Row) { IsMalformed(row.input) || IsMalformed(row.cacheRead) || row.otherMalformed }

  function ModelOf(row: Row): Option<string> { if row.responseModel.Some? then row.responseModel else row.model }

  /** A shortfall against the previous readable row. */
  function Shortfall(cacheRead: Option<real>, prior: Option<real>): Option<Kind> {
    if cacheRead.None? || prior.None? then None
    else if cacheRead.value == 0.0 then Some(ZeroRead)
    else if prior.value > 0.0 && cacheRead.value < prior.value * LOW_CACHE_READ_RATIO then Some(LowRead)
    else None
  }

  datatype Evidences = Evidences(
    cacheRead: Option<real>, input: real, prior: Option<real>, gap: Gap, ttlMs: Ttl,
    prefixBroke: bool, prefixStable: bool, truncated: bool, incomplete: bool, stableSession: bool,
    identityChanged: bool, identityAvailable: bool, malformed: bool, estimatedNewTokens: int, capped: bool)

  predicate FarAboveNewContent(input: real, estimatedNewTokens: int) {
    var expected := estimatedNewTokens * PARTIAL_EVICTION_INPUT_FACTOR;
    input > (if PARTIAL_EVICTION_MIN_FRESH_TOKENS >= expected then PARTIAL_EVICTION_MIN_FRESH_TOKENS
      else expected) as real
  }

  function Classify(e: Evidences): Option<Verdict> {
    var kind := Shortfall(e.cacheRead, e.prior);
    if kind.None? then None
    else
      var k := kind.value;
      if !e.stableSession then Some(Verdict(k, UnknownCause, Some(RequestCorrelationUnavailable)))
      else if e.prefixBroke then Some(Verdict(k, PrefixBroke, None))
      else if e.identityChanged then Some(Verdict(k, ModelProviderChanged, None))
      else if e.gap.basis != RequestTime then Some(Verdict(k, UnknownCause, Some(RequestCorrelationUnavailable)))
      else if e.incomplete then Some(Verdict(k, UnknownCause, Some(RequestEvidenceIncomplete)))
      else if e.truncated then Some(Verdict(k, UnknownCause, Some(SequenceHashTruncated)))
      else if e.malformed then Some(Verdict(k, UnknownCause, Some(MalformedProviderUsage)))
      else if !e.identityAvailable then Some(Verdict(k, UnknownCause, Some(ModelProviderUnavailable)))
      else if e.gap.ms.Some? && e.gap.ms.value as real >= e.ttlMs then Some(Verdict(k, TtlExpired, None))
      else if k == LowRead && !e.capped && FarAboveNewContent(e.input, e.estimatedNewTokens) then
        Some(Verdict(k, PartialEviction, None))
      else if e.prefixStable then
        Some(Verdict(k, UnknownCause, Some(if k == ZeroRead then ZeroReadStablePrefix else LowReadStablePrefix)))
      else Some(Verdict(k, UnknownCause, Some(NoLocalExplanation)))
  }

  // ---- one session ---------------------------------------------------------------

  /** The counters; the two records of counters are multisets of what was counted. */
  datatype Summary = Summary(usageRecords: nat, cacheHits: nat, misses: nat, causes: multiset<Cause>,
    reasons: multiset<Reason>)

  const NO_ROWS := Summary(0, 0, 0, multiset{}, multiset{})

  datatype Session = Session(
    lastUsageAt: Option<int>, lastContextAt: Option<int>, lastCacheRead: Option<real>,
    prefixBroke: bool, prefixStable: bool, truncated: bool, incomplete: bool,
    injected: nat, grown: nat, capped: bool, messageCount: Option<nat>,
    lastProvider: Option<string>, lastModel: Option<string>, summary: Summary)

  const NEW_SESSION :=
    Session(None, None, None, false, false, false, false, 0, 0, false, None, None, None, NO_ROWS)

  function ResolveGap(s: Session, now: int): Gap {
    if s.lastUsageAt.None? then Gap(None, NoPriorTurn)
    else if s.lastContextAt.Some? then Gap(Some(AtLeastZero(s.lastContextAt.value - s.lastUsageAt.value)), RequestTime)
    else Gap(Some(AtLeastZero(now - s.lastUsageAt.value)), MessageEndFallback)
  }

  function EstimateTokens(chars: nat): nat { (chars + CHARS_PER_ESTIMATED_TOKEN - 1) / CHARS_PER_ESTIMATED_TOKEN }

  /** Both adjacent identities are known. */
  predicate IdentityAvailable(s: Session, row: Row) {
    row.provider.Some? && ModelOf(row).Some? && s.lastProvider.Some? && s.lastModel.Some?
  }

  function EvidenceOf(s: Session, row: Row, stable: bool, ttlMs: Ttl): Evidences {
    var input := ValueOf(row.input);
    Evidences(
      ValueOf(row.cacheRead), if input.Some? then input.value else 0.0, s.lastCacheRead, ResolveGap(s, row.at), ttlMs,
      s.prefixBroke, s.prefixStable, s.truncated, s.incomplete, stable,
      IdentityAvailable(s, row) && (row.provider != s.lastProvider || ModelOf(row) != s.lastModel),
      IdentityAvailable(s, row), UsageMalformed(row), EstimateTokens(s.injected + s.grown), s.capped)
  }

  function VerdictOn(s: Session, row: Row, stable: bool, ttlMs: Ttl): Option<Verdict> {
    Classify(EvidenceOf(s, row, stable, ttlMs))
  }

  /** The reason reported with a row. */
  function ReasonOf(s: Session, row: Row, verdict: Option<Verdict>): Option<Reason> {
    if UsageMalformed(row) then Some(MalformedProviderUsage)
    else if ValueOf(row.cacheRead).None? then Some(CacheReadUnavailable)
    else if s.lastCacheRead.None? && ValueOf(row.cacheRead).value == 0.0 then Some(NoPriorSample)
    else if verdict.Some? then verdict.value.reason else None
  }

  /** The counters of a row: unreadable, hit or miss. */
  function Counted(s: Summary, cacheRead: Option<real>, prior: Option<real>, verdict: Option<Verdict>): Summary {
    var t := s.(usageRecords := s.usageRecords + 1);
    if cacheRead.None? then t
    else if prior.None? then
      if cacheRead.value == 0.0 then t.(misses := t.misses + 1) else t.(cacheHits := t.cacheHits + 1)
    else if verdict.None? then t.(cacheHits := t.cacheHits + 1)
    else t.(misses := t.misses + 1, causes := t.causes + multiset{verdict.value.cause})
  }

  /** At most one reason per row, and a malformed row is never counted as anything else. */
  function CountedReason(cacheRead: Option<real>, prior: Option<real>, verdict: Option<Verdict>,
                         reason: Option<Reason>): Option<Reason> {
    if reason == Some(MalformedProviderUsage) then reason
    else if cacheRead.None? then Some(CacheReadUnavailable)
    else if prior.None? then (if cacheRead.value == 0.0 then Some(NoPriorSample) else None)
    else if verdict.Some? && verdict.value.cause == UnknownCause then reason
    else None
  }

  function AddReason(reasons: multiset<Reason>, r: Option<Reason>): multiset<Reason> {
    if r.Some? then reasons + multiset{r.value} else reasons
  }

  function Record(s: Summary, cacheRead: Option<real>, prior: Option<real>, verdict: Option<Verdict>,
                  reason: Option<Reason>): Summary {
    Counted(s, cacheRead, prior, verdict).(reasons := AddReason(s.reasons,
      CountedReason(cacheRead, prior, verdict, reason)))
  }

  /** A usage row is the turn boundary: everything counted since the previous one is reset. */
  function AfterUsage(s: Session, row: Row, stable: bool, ttlMs: Ttl): Session {
    var verdict := VerdictOn(s, row, stable, ttlMs);
    Session(Some(row.at), None, ValueOf(row.cacheRead), false, false, false, false, 0, 0, false, s.messageCount,
            row.provider, ModelOf(row),
            Record(s.summary, ValueOf(row.cacheRead), s.lastCacheRead, verdict, ReasonOf(s, row, verdict)))
  }

  datatype Measured = Measured(chars: nat, capped: bool)

  /** What one `context` call saw. `measure` sizes the messages past a baseline. `fails` is an
      exception inside the observation. */
  datatype Seen = Seen(
    at: int, messages: nat, injected: Measured, measure: nat -> Measured, truncated: bool, incomplete: bool,
      fails: bool)

  function Saturate(n: nat): nat { if n <= MAX_ATTRIBUTION_CHARS then n else MAX_ATTRIBUTION_CHARS }

  /** Transcript growth is measured from the previous observation, or from here. */
  function GrowthOf(s: Session, c: Seen): Measured {
    c.measure(if s.messageCount.Some? && s.messageCount.value <= c.messages then s.messageCount.value else c.messages)
  }

  function AfterContext(s: Session, c: Seen): Session {
    if c.fails then s.(lastContextAt := Some(c.at), incomplete := true)
    else
      var grown := GrowthOf(s, c);
      var i, g := Saturate(s.injected + c.injected.chars), Saturate(s.grown + grown.chars);
      s.(injected := i, grown := g,
         capped := s.capped || c.injected.capped || grown.capped || i >= MAX_ATTRIBUTION_CHARS
           || g >= MAX_ATTRIBUTION_CHARS,
         messageCount := Some(c.messages), lastContextAt := Some(c.at),
         truncated := s.truncated || c.truncated, incomplete := s.incomplete || c.incomplete)
  }

  datatype PrefixObservation = Baseline | Unchanged | Changed | Empty

  function AfterPrefix(s: Session, o: PrefixObservation): Session {
    match o
    case Baseline => s.(prefixStable := true)
    case Unchanged => s.(prefixStable := true)
    case Changed => s.(prefixBroke := true, prefixStable := false)
    case Empty => s
  }

  // ---- the module state ----------------------------------------------------------

  const MAX_TRACKED_SESSIONS := 32

  datatype Role = Primary | ConcurrentSecondary

  /** The session id as given, trimmed; empty where the host supplies none. */
  datatype Identity = Identity(sessionId: string, role: Option<Role>)

  const NO_SESSION_KEY := "<no-session>"

  predicate IsStable(id: Identity) { id.sessionId != "" && id.sessionId != NO_SESSION_KEY }

  function AttributionKey(id: Identity): string {
    if IsStable(id) then id.sessionId
    else
      (match id.role
       case Some(Primary) => "primary"
       case Some(ConcurrentSecondary) => "concurrent-secondary"
       case None => "unknown") + ":" + NO_SESSION_KEY
  }

  datatype Tracked = Tracked(sessions: Stored<string, Session>, prefixes: Stored<string, string>)

  /** The session's state, created on demand. */
  function SessionOf(t: Tracked, key: string): Session {
    var found := Lookup(t.sessions, key);
    if found.Some? then found.value else NEW_SESSION
  }

  /** Fetch (creating if absent), update in place: the session becomes the newest one. */
  function Updated(t: Tracked, key: string, s: Session): Tracked {
    t.(sessions := Kept(Touch(t.sessions, key, Some(s)), MAX_TRACKED_SESSIONS))
  }

  datatype Event =
    | Context(id: Identity, seen: Seen)
    | Prefix(id: Identity, hash: Option<string>)
    | Usage(id: Identity, row: Row, ttlMs: Ttl)
    | Note(id: Identity)
    | Peek(id: Identity)
    | EndSession(id: Identity)
    | Forget(id: Identity)
    | Reset

  /** What `observeCachePrefix` answers; no first message, or one that cannot be hashed, is empty. */
  function Observe(t: Tracked, key: string, hash: Option<string>): PrefixObservation {
    if hash.None? then Empty
    else
      var previous := Lookup(t.prefixes, key);
      if previous.None? then Baseline else if previous == hash then Unchanged else Changed
  }

  function Next(t: Tracked, e: Event): Tracked {
    match e
    case Context(id, seen) =>
      var key := AttributionKey(id);
      Updated(t, key, AfterContext(SessionOf(t, key), seen))
    case Prefix(id, hash) =>
      var key := AttributionKey(id);
      if hash.None? then t
      else
        Updated(t, key, AfterPrefix(SessionOf(t, key), Observe(t, key, hash)))
        .(prefixes := Kept(Touch(t.prefixes, key, hash), MAX_TRACKED_SESSIONS))
    case Usage(id, row, ttlMs) =>
      var key := AttributionKey(id);
      Updated(t, key, AfterUsage(SessionOf(t, key), row, IsStable(id), ttlMs))
    case Note(id) =>
      var key := AttributionKey(id);
      Updated(t, key, SessionOf(t, key))
    case Peek(id) => t.(sessions := Promote(t.sessions, AttributionKey(id)))
    case EndSession(id) =>
      var key := AttributionKey(id);
      if Lookup(t.sessions, key).Some? && Lookup(t.sessions, key).value.summary.usageRecords > 0
      then t.(sessions := Remove(t.sessions, key))
      else t.(sessions := Promote(t.sessions, key))
    case Forget(id) =>
      var key := AttributionKey(id);
      Tracked(Remove(t.sessions, key), Remove(t.prefixes, key))
    case Reset => Tracked([], [])
  }

  // ---- the program ---------------------------------------------------------------

  method ClassifyCacheMiss(e: Evidences) returns (v: Option<Verdict>)
    ensures v == Classify(e)
  {
    if e.cacheRead.None? || e.prior.None? { return None; }
    var kind;
    if e.cacheRead.value == 0.0 {
      kind := ZeroRead;
    } else if e.prior.value > 0.0 && e.cacheRead.value < e.prior.value * LOW_CACHE_READ_RATIO {
      kind := LowRead;
    } else {
      return None;
    }
    if !e.stableSession { return Some(Verdict(kind, UnknownCause, Some(RequestCorrelationUnavailable))); }
    if e.prefixBroke { return Some(Verdict(kind, PrefixBroke, None)); }
    if e.identityChanged { return Some(Verdict(kind, ModelProviderChanged, None)); }
    if e.gap.basis != RequestTime { return Some(Verdict(kind, UnknownCause, Some(RequestCorrelationUnavailable))); }
    if e.incomplete { return Some(Verdict(kind, UnknownCause, Some(RequestEvidenceIncomplete))); }
    if e.truncated { return Some(Verdict(kind, UnknownCause, Some(SequenceHashTruncated))); }
    if e.malformed { return Some(Verdict(kind, UnknownCause, Some(MalformedProviderUsage))); }
    if !e.identityAvailable { return Some(Verdict(kind, UnknownCause, Some(ModelProviderUnavailable))); }
    if e.gap.ms.Some? && e.gap.ms.value as real >= e.ttlMs { return Some(Verdict(kind, TtlExpired, None)); }
    if kind == LowRead && !e.capped && FarAboveNewContent(e.input, e.estimatedNewTokens) {
      return Some(Verdict(kind, PartialEviction, None));
    }
    if e.prefixStable {
      return Some(Verdict(kind, UnknownCause, Some(if kind == ZeroRead then ZeroReadStablePrefix
        else LowReadStablePrefix)));
    }
    v := Some(Verdict(kind, UnknownCause, Some(NoLocalExplanation)));
  }

  method RecordCacheUsageSummary(s: Summary, cacheRead: Option<real>, prior: Option<real>, verdict: Option<Verdict>,
                                 reason: Option<Reason>)
    returns (r: Summary)
    ensures r == Record(s, cacheRead, prior, verdict, reason)
  {
    hide AddReason;
    ghost var counted := CountedReason(cacheRead, prior, verdict, reason);
    var recorded: Option<Reason> := None;
    r := s.(usageRecords := s.usageRecords + 1);
    if reason == Some(MalformedProviderUsage) {
      recorded := reason;
    }
    if cacheRead.None? {
      if recorded.None? { recorded := Some(CacheReadUnavailable); }
    } else if prior.None? {
      if cacheRead.value == 0.0 {
        r := r.(misses := r.misses + 1);
        if recorded.None? { recorded := Some(NoPriorSample); }
      } else {
        r := r.(cacheHits := r.cacheHits + 1);
      }
    } else if verdict.None? {
      r := r.(cacheHits := r.cacheHits + 1);
    } else {
      r := r.(misses := r.misses + 1, causes := r.causes + multiset{verdict.value.cause});
      if verdict.value.cause == UnknownCause && recorded.None? { recorded := reason; }
    }
    assert recorded == counted;
    r := r.(reasons := AddReason(r.reasons, recorded));
  }

  method RecordContextAttribution(state: Session, seen: Seen) returns (s: Session)
    ensures s == AfterContext(state, seen)
  {
    if seen.fails { return state.(lastContextAt := Some(seen.at), incomplete := true); }
    var count := if state.messageCount.Some? then state.messageCount.value else seen.messages;
    var baseline := if count <= seen.messages then count else seen.messages;
    var grown := seen.measure(baseline);
    s := state.(injected := Saturate(state.injected + seen.injected.chars),
      grown := Saturate(state.grown + grown.chars));
    if seen.injected.capped || grown.capped || s.injected >= MAX_ATTRIBUTION_CHARS || s.grown >= MAX_ATTRIBUTION_CHARS {
      s := s.(capped := true);
    }
    s := s.(messageCount := Some(seen.messages), lastContextAt := Some(seen.at));
    s := s.(truncated := s.truncated || seen.truncated, incomplete := s.incomplete || seen.incomplete);
  }

  /** Writing a session back right after fetching it. */
  lemma TouchTwice(m: Stored<string, Session>, key: string, s: Session, s': Session)
    requires Unique(m)
    ensures Kept(Touch(Kept(Touch(m, key, Some(s)), MAX_TRACKED_SESSIONS), key, Some(s')), MAX_TRACKED_SESSIONS)
            == Kept(Touch(m, key, Some(s')), MAX_TRACKED_SESSIONS)
  {
    hide Touch;
    TouchUnique(m, key, Some(s));
    TouchEnds(m, key, Some(s));
    TouchEnds(m, key, Some(s'));
    var rest := Remove(m, key);
    var all, n := rest + [(key, Some(s))], Overflow(rest + [(key, Some(s))], MAX_TRACKED_SESSIONS);
    assert Overflow(rest + [(key, Some(s'))], MAX_TRACKED_SESSIONS) == n && n <= |rest|;
    var kept := all[n..];
    assert kept == rest[n..] + [(key, Some(s))];
    RemoveShape(m, key);
    SuffixLacks(rest, n, key);
    RemoveAppend(rest[n..], [(key, Some(s))], key);
    TouchEnds(kept, key, Some(s'));
    assert Remove(kept, key) == rest[n..];
    assert (rest + [(key, Some(s'))])[n..] == rest[n..] + [(key, Some(s'))];
    assert Overflow(rest[n..] + [(key, Some(s'))], MAX_TRACKED_SESSIONS) == 0;
  }

  lemma TouchEnds<V>(m: Stored<string, V>, key: string, v: Option<V>)
    ensures Touch(m, key, v) == Remove(m, key) + [(key, v)]
  {}

  lemma SuffixLacks<V>(m: Stored<string, V>, n: nat, key: string)
    requires n <= |m| && !Has(m, key)
    ensures !Has(m[n..], key)
  {
    HasIsGet(m, key);
    HasIsGet(m[n..], key);
    assert m == m[..n] + m[n..];
    HasAppend(m[..n], m[n..], key);
  }

  class Observer {
    const sessions: BoundedLruCache<string, Session>
    const prefixes: BoundedFifoMap<string, string>
    const providerCacheTtl: LazyEnvNumber

    ghost predicate Valid()
      reads this, sessions, sessions.base, prefixes
    {
      sessions.Valid() && prefixes.Valid() && sessions.base != prefixes as object
      && sessions.base.maxEntries == MAX_TRACKED_SESSIONS == prefixes.maxEntries
    }

    ghost function State(): Tracked
      reads this, sessions, sessions.base, prefixes
    {
      Tracked(sessions.base.entries, prefixes.entries)
    }

    constructor ()
      ensures Valid() && State() == Tracked([], [])
      ensures providerCacheTtl.memo.None? && providerCacheTtl.fallback == 60000.0
    {
      sessions := new BoundedLruCache<string, Session>(MAX_TRACKED_SESSIONS);
      prefixes := new BoundedFifoMap<string, string>(MAX_TRACKED_SESSIONS);
      providerCacheTtl := new LazyEnvNumber(DEFAULT_PROVIDER_CACHE_TTL_MS);
    }

    /** Fetch (creating if absent) one session's state, refreshing recency. */
    method AttributionFor(key: string) returns (s: Session)
      requires Valid()
      modifies sessions.base`entries
      ensures Valid() && s == SessionOf(old(State()), key) && State() == Updated(old(State()), key, s)
    {
      ghost var before := sessions.base.entries;
      var existing := sessions.Get(key);
      s := if existing.Some? then existing.value else NEW_SESSION;
      ghost var promoted := sessions.base.entries;
      PromoteThenTouch(before, key, s);
      var _ := sessions.Set(key, Some(s));
    }

    /** The state objects are values here: an update in place is a write-back. */
    method WriteBack(ghost t: Tracked, key: string, ghost fetched: Session, s: Session)
      requires Valid() && Unique(t.sessions) && State() == Updated(t, key, fetched)
      modifies sessions.base`entries
      ensures Valid() && State() == Updated(t, key, s)
    {
      TouchTwice(t.sessions, key, fetched, s);
      var _ := sessions.Set(key, Some(s));
    }

    /** A failed observation keeps its clock and fails its evidence closed. */
    method ObserveCacheContext(id: Identity, seen: Seen)
      requires Valid()
      modifies sessions.base`entries
      ensures Valid() && State() == Next(old(State()), Context(id, seen))
    {
      ghost var before := State();
      var key := AttributionKey(id);
      var fetched := AttributionFor(key);
      var s := RecordContextAttribution(fetched, seen);
      WriteBack(before, key, fetched, s);
    }

    method ObserveCachePrefix(id: Identity, hash: Option<string>) returns (o: PrefixObservation)
      requires Valid()
      modifies sessions.base`entries, prefixes`entries
      ensures Valid() && State() == Next(old(State()), Prefix(id, hash))
              && o == Observe(old(State()), AttributionKey(id), hash)
    {
      if hash.None? { return Empty; }
      ghost var before := State();
      var key := AttributionKey(id);
      var previous := prefixes.Get(key);
      var s := AttributionFor(key);
      ghost var fetched := s;
      if previous.None? {
        s := s.(prefixStable := true);
        o := Baseline;
      } else if previous.value != hash.value {
        s := s.(prefixBroke := true, prefixStable := false);
        o := Changed;
      } else {
        s := s.(prefixStable := true);
        o := Unchanged;
      }
      WriteBack(before, key, fetched, s);
      RecordSessionHash(key, hash.value);
    }

    method RecordSessionHash(key: string, hash: string)
      requires Valid()
      modifies prefixes`entries
      ensures Valid() && prefixes.entries == Kept(Touch(old(prefixes.entries), key, Some(hash)), MAX_TRACKED_SESSIONS)
    {
      TouchUnique(prefixes.entries, key, Some(hash));
      var _ := prefixes.Delete(key);
      var _ := prefixes.Set(key, Some(hash));
    }

    /** The row is logged with its verdict, the TTL it was judged by, and its reason. */
    method LogCacheUsage(id: Identity, row: Row, env: EnvNumber)
      returns (verdict: Option<Verdict>, ttlMs: Ttl, reason: Option<Reason>)
      requires Valid()
      modifies sessions.base`entries, providerCacheTtl`memo
      ensures providerCacheTtl.memo == Some(ttlMs)
      ensures ttlMs == (match old(providerCacheTtl.memo)
                        case Some(t) => t case None => OverrideOr(env, providerCacheTtl.fallback))
      ensures Valid() && State() == Next(old(State()), Usage(id, row, ttlMs))
      ensures verdict == VerdictOn(SessionOf(old(State()), AttributionKey(id)), row, IsStable(id), ttlMs)
      ensures reason == ReasonOf(SessionOf(old(State()), AttributionKey(id)), row, verdict)
    {
      ghost var before := State();
      ttlMs := providerCacheTtl.Get(env);
      var key := AttributionKey(id);
      var s := AttributionFor(key);
      verdict := ClassifyCacheMiss(EvidenceOf(s, row, IsStable(id), ttlMs));
      reason := ReasonOf(s, row, verdict);
      var summary := RecordCacheUsageSummary(s.summary, ValueOf(row.cacheRead), s.lastCacheRead, verdict, reason);
      var next := s.(lastUsageAt := Some(row.at), lastCacheRead := ValueOf(row.cacheRead),
                     lastProvider := row.provider, lastModel := ModelOf(row),
                     prefixBroke := false, prefixStable := false, truncated := false, incomplete := false,
                     injected := 0, grown := 0, capped := false, lastContextAt := None, summary := summary);
      WriteBack(before, key, s, next);
    }

    method ClearCachePrefixSession(id: Identity)
      requires Valid()
      modifies sessions.base`entries, prefixes`entries
      ensures Valid() && State() == Next(old(State()), Forget(id))
    {
      var key := AttributionKey(id);
      var _ := prefixes.Delete(key);
      var _ := sessions.base.Delete(key);
    }

    method EmitCacheUsageSummaryAtSessionEnd(id: Identity) returns (emitted: Option<Summary>)
      requires Valid()
      modifies sessions.base`entries
      ensures Valid() && State() == Next(old(State()), EndSession(id))
      ensures var found := Lookup(old(State()).sessions, AttributionKey(id));
              emitted == if found.Some? && found.value.summary.usageRecords > 0 then Some(found.value.summary) else None
    {
      var key := AttributionKey(id);
      ghost var before := sessions.base.entries;
      var found := sessions.Get(key);
      if found.None? || found.value.summary.usageRecords == 0 { return None; }
      PromoteThenRemove(before, key);
      var _ := sessions.base.Delete(key);
      emitted := Some(found.value.summary);
    }
  }

  lemma RemoveTouch(m: Stored<string, Session>, key: string, v: Option<Session>)
    requires Unique(m)
    ensures Remove(Touch(m, key, v), key) == Remove(m, key)
  {
    RemoveShape(m, key);
    RemoveAppend(Remove(m, key), [(key, v)], key);
    RemoveAbsent(Remove(m, key), key);
  }

  lemma PromoteThenTouch(m: Stored<string, Session>, key: string, s: Session)
    requires Unique(m)
    ensures Touch(Promote(m, key), key, Some(s)) == Touch(m, key, Some(s))
  {
    var found: Option<Option<Session>> := Get(m, key);
    if found.Some? && found.value.Some? { RemoveTouch(m, key, found.value); }
  }

  lemma PromoteThenRemove(m: Stored<string, Session>, key: string)
    requires Unique(m)
    ensures Remove(Promote(m, key), key) == Remove(m, key)
  {
    var found: Option<Option<Session>> := Get(m, key);
    if found.Some? && found.value.Some? { RemoveTouch(m, key, found.value); }
  }
}
