/** What the module remembers of each session, in terms of the events of all sessions: the hash a
    prefix observation is compared with, whether the session's state is still kept, and what
    transcript growth is measured from (clients/cache-observability.ts:381-430, 1492-1610). */
module MissMemory {
  import opened JsMap
  import opened BoundedCache
  import opened MissAttribution
  import opened MissAttributionTraces

  // ---- the hash a session is compared with ---------------------------------------

  /** An observation of the first message of this session that could be hashed. */
  predicate Hashes(e: Event, key: string) { e.Prefix? && e.hash.Some? && Concerns(e, key) }

  predicate Forgets(e: Event, key: string) { e.Reset? || (e.Forget? && Concerns(e, key)) }

  /** The last hash observed for the session since it was last forgotten. */
  function LastHash(trace: seq<Event>, key: string): Option<string> {
    if trace == [] then None
    else
      var front, e := trace[..|trace| - 1], trace[|trace| - 1];
      if Hashes(e, key) then e.hash else if Forgets(e, key) then None else LastHash(front, key)
  }

  /** The other sessions for which a hash was observed after that. */
  function OthersSince(trace: seq<Event>, key: string): set<string> {
    if trace == [] then {}
    else
      var front, e := trace[..|trace| - 1], trace[|trace| - 1];
      if Hashes(e, key) || Forgets(e, key) then {}
      else OthersSince(front, key) + if e.Prefix? && e.hash.Some? then {AttributionKey(e.id)} else {}
  }

  // ---- what is recent stays ------------------------------------------------------

  /** Nothing but what was touched later stands behind the key. */
  ghost predicate StandsAt<V>(m: Stored<string, V>, key: string, v: Option<V>, others: set<string>, i: nat) {
    i < |m| && m[i] == (key, v) && forall j :: i < j < |m| ==> m[j].0 in others
  }

  lemma {:induction false} FewKeys<V>(m: Stored<string, V>, others: set<string>)
    requires Unique(m) && forall j :: 0 <= j < |m| ==> m[j].0 in others
    ensures |m| <= |others|
  {
    if m == [] {
    } else {
      var front, k := m[..|m| - 1], m[|m| - 1].0;
      forall j | 0 <= j < |front| ensures front[j].0 in others - {k} { assert m[j].0 != k; }
      FewKeys(front, others - {k});
    }
  }

  /** Deleting a key closes the gap it leaves. */
  lemma {:induction false} RemoveClosesGap<V>(m: Stored<string, V>, k: string) returns (j: nat)
    requires Unique(m)
    ensures j <= |m|
    ensures j == |m| ==> !Has(m, k) && Remove(m, k) == m
    ensures j < |m| ==> m[j].0 == k && Remove(m, k) == m[..j] + m[j + 1..]
  {
    if m == [] { j := 0; }
    else if m[0].0 == k { j := 0; }
    else {
      var i := RemoveClosesGap(m[1..], k);
      j := i + 1;
      if i < |m[1..]| { assert m[..j] == [m[0]] + m[1..][..i] && m[j + 1..] == m[1..][i + 1..]; }
    }
  }

  /** A session that is forgotten takes its entry with it; the others keep theirs. */
  lemma OtherForgotten<V>(m: Stored<string, V>, key: string, v: Option<V>, others: set<string>, k: string, i: nat)
    requires Unique(m) && k != key && StandsAt(m, key, v, others, i)
    ensures exists i': nat :: StandsAt(Remove(m, k), key, v, others, i')
  {
    var j := RemoveClosesGap(m, k);
    assert StandsAt(Remove(m, k), key, v, others, if j < i then i - 1 else i);
  }

  /** Another session is touched: it stands behind this one. */
  lemma OtherTouched<V>(m: Stored<string, V>, key: string, v: Option<V>, others: set<string>, k: string, w: Option<V>,
                        i: nat)
    requires Unique(m) && k != key && StandsAt(m, key, v, others, i)
    ensures exists i': nat :: StandsAt(Touch(m, k, w), key, v, others + {k}, i')
  {
    OtherForgotten(m, key, v, others, k, i);
    var at: nat :| StandsAt(Remove(m, k), key, v, others, at);
    assert StandsAt(Touch(m, k, w), key, v, others + {k}, at);
  }

  /** Dropping the oldest entries spares one with few behind it. */
  lemma TrimSpares<V>(all: Stored<string, V>, key: string, v: Option<V>, others: set<string>, i: nat)
    requires Unique(all) && StandsAt(all, key, v, others, i) && |others| < MAX_TRACKED_SESSIONS
    ensures exists i': nat :: StandsAt(Kept(all, MAX_TRACKED_SESSIONS), key, v, others, i')
  {
    var n := Overflow(all, MAX_TRACKED_SESSIONS);
    FewKeys(all[i + 1..], others);
    assert Kept(all, MAX_TRACKED_SESSIONS) == all[n..] && n <= i;
    assert StandsAt(Kept(all, MAX_TRACKED_SESSIONS), key, v, others, i - n);
  }

  function Renewed<V>(m: Stored<string, V>, k: string, w: V): Stored<string, V> {
    Kept(Touch(m, k, Some(w)), MAX_TRACKED_SESSIONS)
  }

  /** Another session is written: this one keeps its entry as long as few stand behind it. */
  lemma OtherRenewed<V>(m: Stored<string, V>, key: string, v: Option<V>, others: set<string>, k: string, w: V, i: nat)
    requires Unique(m) && k != key
    requires StandsAt(m, key, v, others, i) && |others + {k}| < MAX_TRACKED_SESSIONS
    ensures exists i': nat :: StandsAt(Renewed(m, k, w), key, v, others + {k}, i')
  {
    OtherTouched(m, key, v, others, k, Some(w), i);
    TouchUnique(m, k, Some(w));
    var all := Touch(m, k, Some(w));
    var at: nat :| StandsAt(all, key, v, others + {k}, at);
    assert Renewed(m, k, w) == Kept(all, MAX_TRACKED_SESSIONS);
    hide StandsAt, Renewed, Kept, Touch;
    TrimSpares(all, key, v, others + {k}, at);
  }

  lemma OwnRenewed<V>(m: Stored<string, V>, key: string, w: V)
    requires Unique(m)
    ensures |Renewed(m, key, w)| > 0
    ensures StandsAt(Renewed(m, key, w), key, Some(w), {}, |Renewed(m, key, w)| - 1)
  {
    TouchUnique(m, key, Some(w));
  }

  lemma {:induction false} Subsets<T>(a: set<T>, b: set<T>)
    requires a <= b
    ensures |a| <= |b|
  {
    if a == {} {
    } else {
      var x :| x in a;
      Subsets(a - {x}, b - {x});
    }
  }

  // ---- the hash that is remembered -----------------------------------------------

  type Hashed = Stored<string, string>

  ghost predicate Remembers(m: Hashed, key: string, last: Option<string>, others: set<string>) {
    && Unique(m) && |m| <= MAX_TRACKED_SESSIONS
    && (Get(m, key).Some? ==> last.Some? && Get(m, key) == Some(last))
    && (last.Some? && |others| < MAX_TRACKED_SESSIONS ==> exists i: nat :: StandsAt(m, key, last, others, i))
  }

  lemma RenewedLookup(m: Hashed, key: string, k: string, h: string)
    requires Unique(m) && |m| <= MAX_TRACKED_SESSIONS
    ensures Unique(Renewed(m, k, h)) && |Renewed(m, k, h)| <= MAX_TRACKED_SESSIONS
    ensures Get(Renewed(m, k, h), key).Some? ==>
              Get(Renewed(m, k, h), key) == if k == key then Some(Some(h)) else Get(m, key)
  {
    var all := Touch(m, k, Some(h));
    TouchUnique(m, k, Some(h));
    GetSuffix(all, Overflow(all, MAX_TRACKED_SESSIONS), key);
    RemoveShape(m, k);
    HasIsGet(Remove(m, k), k);
    GetAppend(Remove(m, k), [(k, Some(h))], key);
  }

  /** One event on the remembered hashes. */
  function Rehashed(m: Hashed, e: Event): Hashed {
    if e.Prefix? && e.hash.Some? then Renewed(m, AttributionKey(e.id), e.hash.value)
    else if e.Forget? then Remove(m, AttributionKey(e.id))
    else if e.Reset? then []
    else m
  }

  lemma NextRehashes(t: Tracked, e: Event)
    ensures Next(t, e).prefixes == Rehashed(t.prefixes, e)
  {}

  lemma HashRemembers(m: Hashed, k: string, h: string, key: string, last: Option<string>, others: set<string>)
    requires Remembers(m, key, last, others)
    ensures k == key ==> Remembers(Renewed(m, k, h), key, Some(h), {})
    ensures k != key ==> Remembers(Renewed(m, k, h), key, last, others + {k})
  {
    hide StandsAt, Renewed;
    RenewedLookup(m, key, k, h);
    if k == key {
      OwnRenewed(m, key, h);
    } else if last.Some? && |others + {k}| < MAX_TRACKED_SESSIONS {
      assert |others| <= |others + {k}| by { Subsets(others, others + {k}); }
      var i: nat :| StandsAt(m, key, last, others, i);
      OtherRenewed(m, key, last, others, k, h, i);
    }
  }

  lemma ForgetRemembers(m: Hashed, k: string, key: string, last: Option<string>, others: set<string>)
    requires Remembers(m, key, last, others)
    ensures k == key ==> Remembers(Remove(m, k), key, None, {})
    ensures k != key ==> Remembers(Remove(m, k), key, last, others)
  {
    hide StandsAt;
    RemoveShape(m, k);
    HasIsGet(Remove(m, k), k);
    if k != key && last.Some? && |others| < MAX_TRACKED_SESSIONS {
      var i: nat :| StandsAt(m, key, last, others, i);
      OtherForgotten(m, key, last, others, k, i);
    }
  }

  lemma {:induction false} RunRemembers(trace: seq<Event>, key: string)
    ensures Remembers(Run(trace).prefixes, key, LastHash(trace, key), OthersSince(trace, key))
  {
    hide Next, Remembers, Renewed;
    if trace == [] {
      NothingRemembered(key);
    } else {
      var front, e := trace[..|trace| - 1], trace[|trace| - 1];
      var m, last, others := Run(front).prefixes, LastHash(front, key), OthersSince(front, key);
      assert others + {} == others;
      RunRemembers(front, key);
      NextRehashes(Run(front), e);
      if e.Prefix? && e.hash.Some? { HashRemembers(m, AttributionKey(e.id), e.hash.value, key, last, others); }
      else if e.Forget? { ForgetRemembers(m, AttributionKey(e.id), key, last, others); }
      else if e.Reset? { NothingRemembered(key); }
    }
  }

  lemma NothingRemembered(key: string)
    ensures Remembers([], key, None, {})
  {}

  /** What a prefix observation answers. A change means that the session's last observed first
      message was another one, and "unchanged" that it was this one; a baseline is answered when
      none is remembered. As long as fewer than 32 other sessions were observed since the last
      one, it is remembered, so the answer is then decided by the two hashes alone. */
  lemma AnswerIs(trace: seq<Event>, key: string, hash: string)
    ensures var answer, last := Observe(Run(trace), key, Some(hash)), LastHash(trace, key);
            && (answer == Changed ==> last.Some? && last.value != hash)
            && (answer == Unchanged ==> last == Some(hash))
            && (last.None? ==> answer == Baseline)
            && (last.Some? && |OthersSince(trace, key)| < 32 ==>
                  answer == if last.value == hash then Unchanged else Changed)
    ensures Observe(Run(trace), key, None) == Empty
  {
    hide Run, LastHash, OthersSince;
    RunRemembers(trace, key);
    var m, last := Run(trace).prefixes, LastHash(trace, key);
    if last.Some? && |OthersSince(trace, key)| < MAX_TRACKED_SESSIONS {
      var i: nat :| StandsAt(m, key, last, OthersSince(trace, key), i);
      GetAt(m, i);
    }
  }

  // ---- how long a session is tracked ---------------------------------------------

  /** Events that write the state of their session, creating it where there is none. */
  predicate Writes(e: Event, key: string) {
    Concerns(e, key) && (e.Context? || e.Usage? || e.Note? || (e.Prefix? && e.hash.Some?))
  }

  predicate MayEnd(e: Event, key: string) { e.Reset? || (Concerns(e, key) && (e.Forget? || e.EndSession?)) }

  /** The other sessions with an event since this one was last written, if it was and has not been
      told to end. */
  function Rivals(trace: seq<Event>, key: string): Option<set<string>> {
    if trace == [] then None
    else
      var before, e := Rivals(trace[..|trace| - 1], key), trace[|trace| - 1];
      if MayEnd(e, key) then None
      else if Writes(e, key) then Some({})
      else if before.None? || Concerns(e, key) then before
      else Some(before.value + {AttributionKey(e.id)})
  }

  ghost predicate Stands(m: Stored<string, Session>, key: string, others: set<string>) {
    exists i: nat, s: Session :: StandsAt(m, key, Some(s), others, i)
  }

  lemma StandsIsTracked(m: Stored<string, Session>, key: string, others: set<string>)
    requires Unique(m) && Stands(m, key, others)
    ensures Lookup(m, key).Some?
  {
    var i: nat, s: Session :| StandsAt(m, key, Some(s), others, i);
    GetAt(m, i);
  }

  lemma WriteStands(t: Tracked, k: string, s: Session, key: string, others: set<string>)
    requires WellFormed(t)
    ensures k == key ==> Stands(Updated(t, k, s).sessions, key, {})
    ensures k != key && Stands(t.sessions, key, others) && |others + {k}| < MAX_TRACKED_SESSIONS
            ==> Stands(Updated(t, k, s).sessions, key, others + {k})
  {
    hide StandsAt, Kept, Touch;
    assert Updated(t, k, s).sessions == Renewed(t.sessions, k, s);
    if k == key {
      OwnRenewed(t.sessions, key, s);
    } else if Stands(t.sessions, key, others) && |others + {k}| < MAX_TRACKED_SESSIONS {
      var i: nat, v: Session :| StandsAt(t.sessions, key, Some(v), others, i);
      OtherRenewed(t.sessions, key, Some(v), others, k, s, i);
      var i': nat :| StandsAt(Renewed(t.sessions, k, s), key, Some(v), others + {k}, i');
    }
  }

  lemma MoreMayStand(m: Stored<string, Session>, key: string, others: set<string>, more: set<string>)
    requires Stands(m, key, others) && others <= more
    ensures Stands(m, key, more)
  {
    var i: nat, v: Session :| StandsAt(m, key, Some(v), others, i);
    assert StandsAt(m, key, Some(v), more, i);
  }

  lemma PromoteStands(m: Stored<string, Session>, k: string, key: string, others: set<string>)
    requires Unique(m) && Stands(m, key, others)
    ensures Stands(Promote(m, k), key, if k == key then others else others + {k})
  {
    hide StandsAt;
    var found: Option<Option<Session>> := Get(m, k);
    var i: nat, v: Session :| StandsAt(m, key, Some(v), others, i);
    if k == key {
      StandsGet(m, key, Some(v), others, i);
      NewestStands(m, key, Some(v), others);
    } else if found.Some? && found.value.Some? {
      OtherTouched(m, key, Some(v), others, k, found.value, i);
    } else {
      MoreMayStand(m, key, others, others + {k});
    }
  }

  lemma StandsGet(m: Stored<string, Session>, key: string, v: Option<Session>, others: set<string>, i: nat)
    requires Unique(m) && StandsAt(m, key, v, others, i)
    ensures Get(m, key) == Some(v)
  {
    GetAt(m, i);
  }

  lemma NewestStands(m: Stored<string, Session>, key: string, v: Option<Session>, others: set<string>)
    ensures StandsAt(Touch(m, key, v), key, v, others, |Touch(m, key, v)| - 1)
  {}

  lemma RemoveStands(m: Stored<string, Session>, k: string, key: string, others: set<string>)
    requires Unique(m) && Stands(m, key, others) && k != key
    ensures Stands(Remove(m, k), key, others + {k})
  {
    hide StandsAt;
    var i: nat, v: Session :| StandsAt(m, key, Some(v), others, i);
    OtherForgotten(m, key, Some(v), others, k, i);
    MoreMayStand(Remove(m, k), key, others, others + {k});
  }

  /** One event of another session, or one that only looks at this one. */
  lemma StepStands(t: Tracked, e: Event, key: string, others: set<string>)
    requires WellFormed(t) && !MayEnd(e, key) && !Writes(e, key) && Stands(t.sessions, key, others)
    requires Concerns(e, key) || |others + {AttributionKey(e.id)}| < MAX_TRACKED_SESSIONS
    ensures Stands(Next(t, e).sessions, key, if Concerns(e, key) then others else others + {AttributionKey(e.id)})
  {
    hide Stands, Updated, Promote, AfterContext, AfterUsage, AfterPrefix, Observe, SessionOf;
    var k := AttributionKey(e.id);
    match e {
      case Context(id, seen) => WriteStands(t, k, AfterContext(SessionOf(t, k), seen), key, others);
      case Prefix(id, hash) =>
        WriteStands(t, k, AfterPrefix(SessionOf(t, k), Observe(t, k, hash)), key, others);
        if hash.None? && k != key { MoreMayStand(t.sessions, key, others, others + {k}); }
      case Usage(id, row, ttlMs) =>
        WriteStands(t, k, AfterUsage(SessionOf(t, k), row, IsStable(id), ttlMs), key, others);
      case Note(id) => WriteStands(t, k, SessionOf(t, k), key, others);
      case Peek(id) => PromoteStands(t.sessions, k, key, others);
      case EndSession(id) =>
        PromoteStands(t.sessions, k, key, others);
        RemoveStands(t.sessions, k, key, others);
      case Forget(id) => RemoveStands(t.sessions, k, key, others);
    }
  }

  lemma WritesStand(t: Tracked, e: Event, key: string)
    requires WellFormed(t) && Writes(e, key)
    ensures Stands(Next(t, e).sessions, key, {})
  {
    hide Stands, Updated, AfterContext, AfterUsage, AfterPrefix, Observe, SessionOf;
    match e {
      case Context(id, seen) => WriteStands(t, key, AfterContext(SessionOf(t, key), seen), key, {});
      case Prefix(id, hash) => WriteStands(t, key, AfterPrefix(SessionOf(t, key), Observe(t, key, hash)), key, {});
      case Usage(id, row, ttlMs) =>
        WriteStands(t, key, AfterUsage(SessionOf(t, key), row, IsStable(id), ttlMs), key, {});
      case Note(id) => WriteStands(t, key, SessionOf(t, key), key, {});
      case _ =>
    }
  }

  lemma {:induction false} RivalsStand(trace: seq<Event>, key: string)
    ensures Rivals(trace, key).Some? && |Rivals(trace, key).value| < MAX_TRACKED_SESSIONS ==>
              Stands(Run(trace).sessions, key, Rivals(trace, key).value)
  {
    hide Next, Stands;
    if trace == [] {
    } else {
      var front, e := trace[..|trace| - 1], trace[|trace| - 1];
      RivalsStand(front, key);
      RunWellFormed(front);
      var before := Rivals(front, key);
      if Writes(e, key) {
        WritesStand(Run(front), e, key);
      } else if before.Some? && !MayEnd(e, key) {
        if !Concerns(e, key) { Subsets(before.value, before.value + {AttributionKey(e.id)}); }
        if Rivals(trace, key).Some? && |Rivals(trace, key).value| < MAX_TRACKED_SESSIONS {
          StepStands(Run(front), e, key, before.value);
        }
      }
    }
  }

  /** A session that was written is tracked, and its log grows by each of its events, as long as it
      is not told to end and fewer than 32 other sessions have had events since. */
  lemma RecentIsTracked(trace: seq<Event>, e: Event, key: string)
    requires Rivals(trace + [e], key).Some? && |Rivals(trace + [e], key).value| < 32
    ensures Lookup(Run(trace + [e]).sessions, key).Some?
    ensures LogOf(trace + [e], key) ==
            if Concerns(e, key) then LogOf(trace, key) + [EntryOf(Run(trace), e)] else LogOf(trace, key)
  {
    hide Rivals, Run, Stands, EntryOf;
    RivalsStand(trace + [e], key);
    RunWellFormed(trace + [e]);
    StandsIsTracked(Run(trace + [e]).sessions, key, Rivals(trace + [e], key).value);
    assert (trace + [e])[..|trace|] == trace;
  }

  /** Never more than 32 are. */
  lemma {:induction false} AtMost32(trace: seq<Event>)
    ensures |Run(trace).sessions| <= 32 && |Run(trace).prefixes| <= 32
  {
    hide AfterContext, AfterUsage, AfterPrefix, SessionOf, Observe, Lookup;
    if trace == [] {
    } else {
      var t, e := Run(trace[..|trace| - 1]), trace[|trace| - 1];
      AtMost32(trace[..|trace| - 1]);
      RunWellFormed(trace[..|trace| - 1]);
      RunRemembers(trace[..|trace| - 1], "");
      if !e.Reset? {
        var k := AttributionKey(e.id);
        RemoveShape(t.sessions, k);
        RemoveShape(t.prefixes, k);
        PromoteSize(t.sessions, k);
      }
    }
  }

  lemma PromoteSize(m: Stored<string, Session>, k: string)
    requires Unique(m)
    ensures |Promote(m, k)| == |m|
  {
    var found: Option<Option<Session>> := Get(m, k);
    if found.Some? && found.value.Some? {
      TouchUnique(m, k, found.value);
      HasIsGet(m, k);
    }
  }

  /** A session that ends with rows to report is dropped, and one that is cleared in any case, with
      its hash; ending one without rows, or looking at one, changes no session's state. */
  lemma EndsAre(t: Tracked, id: Identity, key: string)
    requires WellFormed(t) && Unique(t.prefixes)
    ensures var k, found := AttributionKey(id), Lookup(t.sessions, AttributionKey(id));
            var ended, cleared, peeked := Next(t, EndSession(id)), Next(t, Forget(id)), Next(t, Peek(id));
            var drops := found.Some? && found.value.summary.usageRecords > 0;
            && Lookup(ended.sessions, key) == (if drops && key == k then None else Lookup(t.sessions, key))
            && ended.prefixes == t.prefixes && peeked.prefixes == t.prefixes
            && Lookup(cleared.sessions, key) == (if key == k then None else Lookup(t.sessions, key))
            && Get(cleared.prefixes, key) == (if key == k then None else Get(t.prefixes, key))
            && Lookup(peeked.sessions, key) == Lookup(t.sessions, key)
  {
    hide Promote, Lookup, Remove;
    var k := AttributionKey(id);
    PromoteLookup(t, k, key);
    RemoveLookup(t, k, key);
    RemoveShape(t.prefixes, k);
    HasIsGet(Remove(t.prefixes, k), k);
  }

  // ---- which sessions are told apart ---------------------------------------------

  /** A host id that is a session's own. */
  predicate OwnId(id: Identity) { id.sessionId != "" && id.sessionId != "<no-session>" }

  function Bucket(role: Option<Role>): string {
    match role
    case Some(Primary) => "primary:<no-session>"
    case Some(ConcurrentSecondary) => "concurrent-secondary:<no-session>"
    case None => "unknown:<no-session>"
  }

  lemma BucketsDiffer(a: Option<Role>, b: Option<Role>)
    ensures Bucket(a) == Bucket(b) <==> a == b
  {
    assert Bucket(Some(Primary))[0] == 'p' && Bucket(Some(ConcurrentSecondary))[0] == 'c' && Bucket(None)[0] == 'u';
  }

  /** Calls share a session's state exactly if they carry the same id of its own, or no such id and
      the same role; an id spelled like one of the three fallback buckets falls into it. */
  lemma SharedStateIff(a: Identity, b: Identity)
    ensures AttributionKey(a) == AttributionKey(b)
            <==> if OwnId(a) && OwnId(b) then a.sessionId == b.sessionId
                 else if !OwnId(a) && !OwnId(b) then a.role == b.role
                 else if OwnId(a) then a.sessionId == Bucket(b.role) else b.sessionId == Bucket(a.role)
    ensures IsStable(a) <==> OwnId(a)
  {
    BucketsDiffer(a.role, b.role);
    assert "primary" + ":" + "<no-session>" == "primary:<no-session>";
    assert "concurrent-secondary" + ":" + "<no-session>" == "concurrent-secondary:<no-session>";
    assert "unknown" + ":" + "<no-session>" == "unknown:<no-session>";
  }

  // ---- what transcript growth is measured from -----------------------------------

  /** The length of the transcript at the last completed observation of the session. */
  function LastCount(log: seq<Entry>): Option<nat> {
    if log == [] then None
    else
      var e := log[|log| - 1];
      if e.SawContext? && !e.seen.fails then Some(e.seen.messages) else LastCount(log[..|log| - 1])
  }

  lemma {:induction false} CountIsRemembered(log: seq<Entry>)
    ensures Replay(log).messageCount == LastCount(log)
  {
    if log == [] {
    } else {
      CountIsRemembered(log[..|log| - 1]);
    }
  }

  /** Growth covers the messages past that length, usage rows or not; nothing at the first
      observation, and nothing when the transcript has become shorter. */
  lemma GrowthIs(log: seq<Entry>, c: Seen)
    ensures var last, grown := LastCount(log), GrowthOf(Replay(log), c);
            && (last.Some? && last.value <= c.messages ==> grown == c.measure(last.value))
            && (last.None? || last.value > c.messages ==> grown == c.measure(c.messages))
  {
    hide Replay, LastCount;
    CountIsRemembered(log);
  }
}
