/** The 64-turn admission window (clients/bounded-telemetry.ts:251-375): per-turn, per-phase
    budgets kept for a bounded number of turns, proved to behave like an unbounded table
    restricted to the 64 largest turns offered. */
module BoundedTelemetry {
  import opened JsMap

  const MAX_TRACKED_TURN_CAPS := 64

  datatype Cap = Cap(turnIndex: int, limit: int)

  datatype Call =
    | Uncapped(phase: string)
    | Capped(phase: string, cap: Cap)
    | Reset

  type Buckets = map<int, map<string, int>>

  /** The module variables; `None` is negative infinity. */
  datatype State = State(turnCounts: Buckets, latest: Option<int>, retiredThrough: Option<int>)

  function Initial(): State { State(map[], None, None) }

  function Used(b: map<string, int>, phase: string): int { if phase in b then b[phase] else 0 }

  function MaxTurn(o: Option<int>, t: int): int { match o case Some(u) => if u < t then t else u case None => t }

  // ---- the oldest tracked turn ---------------------------------------------------

  ghost predicate IsOldest(turns: set<int>, t: int) { t in turns && forall u :: u in turns ==> t <= u }

  lemma Member<T>(s: set<T>) returns (x: T)
    requires s != {}
    ensures x in s
  {
    x :| x in s;
  }

  lemma {:induction false} OldestExists(turns: set<int>)
    requires turns != {}
    ensures exists t :: IsOldest(turns, t)
  {
    var x := Member(turns);
    if turns == {x} {
      assert IsOldest(turns, x);
    } else {
      assert turns == {x} + (turns - {x});
      OldestExists(turns - {x});
      var y :| IsOldest(turns - {x}, y);
      var t := if x <= y then x else y;
      forall u | u in turns ensures t <= u { assert u == x || u in turns - {x}; }
      assert IsOldest(turns, t);
    }
  }

  ghost function Oldest(turns: set<int>): int
    requires turns != {}
  {
    OldestExists(turns);
    var t :| IsOldest(turns, t);
    t
  }

  // ---- one call ------------------------------------------------------------------

  /** Make room for a turn: `None` when it is older than everything tracked in a full window. */
  ghost function Open(s: State, t: int): (o: Option<State>)
    ensures o.Some? ==> t in o.value.turnCounts
  {
    if t in s.turnCounts then Some(s)
    else if |s.turnCounts| < MAX_TRACKED_TURN_CAPS then Some(s.(turnCounts := s.turnCounts[t := map[]]))
    else
      OpenNonEmpty(s);
      var oldest := Oldest(s.turnCounts.Keys);
      if t < oldest then None
      else Some(s.(turnCounts := (s.turnCounts - {oldest})[t := map[]],
                   retiredThrough := Some(MaxTurn(s.retiredThrough, oldest))))
  }

  lemma OpenNonEmpty(s: State)
    requires |s.turnCounts| >= MAX_TRACKED_TURN_CAPS
    ensures s.turnCounts.Keys != {}
  {
    assert |s.turnCounts.Keys| == |s.turnCounts|;
  }

  ghost function Admit(s: State, phase: string, cap: Cap): (State, bool) {
    if s.retiredThrough.Some? && cap.turnIndex <= s.retiredThrough.value then (s, false)
    else match Open(s, cap.turnIndex)
         case None => (s, false)
         case Some(o) =>
           var counts := o.turnCounts[cap.turnIndex];
           var seen := o.(latest := Some(MaxTurn(o.latest, cap.turnIndex)));
           if Used(counts, phase) >= cap.limit then (seen, false)
           else (seen.(turnCounts := o.turnCounts[cap.turnIndex := counts[phase := Used(counts, phase) + 1]]), true)
  }

  ghost function Step(s: State, call: Call): (State, bool) {
    match call
    case Reset => (Initial(), false)
    case Uncapped(_) => (s, true)
    case Capped(phase, cap) => Admit(s, phase, cap)
  }

  ghost function Run(calls: seq<Call>): State {
    if calls == [] then Initial() else Step(Run(calls[..|calls| - 1]), calls[|calls| - 1]).0
  }

  /** Whether the last call of a trace was admitted. */
  ghost predicate Admitted(calls: seq<Call>)
    requires calls != []
  {
    Step(Run(calls[..|calls| - 1]), calls[|calls| - 1]).1
  }

  // ---- the module ----------------------------------------------------------------

  class Telemetry {
    var turnCounts: Buckets
    var latestCountedTurnIndex: Option<int>
    var retiredThroughTurnIndex: Option<int>

    ghost function Model(): State
      reads this
    {
      State(turnCounts, latestCountedTurnIndex, retiredThroughTurnIndex)
    }

    constructor ()
      ensures Model() == Initial()
    {
      turnCounts, latestCountedTurnIndex, retiredThroughTurnIndex := map[], None, None;
    }

    /** `Math.min(...turnCounts.keys())` */
    method OldestTracked() returns (oldest: int)
      requires turnCounts != map[]
      ensures oldest == Oldest(turnCounts.Keys)
    {
      var rest := turnCounts.Keys;
      ghost var some := Member(rest);
      oldest :| oldest in rest;
      rest := rest - {oldest};
      while rest != {}
        invariant oldest in turnCounts && rest <= turnCounts.Keys
        invariant forall t :: t in turnCounts && t !in rest ==> oldest <= t
        decreases rest
      {
        ghost var other := Member(rest);
        var t :| t in rest;
        rest := rest - {t};
        if t < oldest { oldest := t; }
      }
      assert IsOldest(turnCounts.Keys, oldest);
      assert IsOldest(turnCounts.Keys, Oldest(turnCounts.Keys));
    }

    method AdmitAgainstTurnCap(phase: string, cap: Option<Cap>) returns (admitted: bool)
      modifies this
      ensures (Model(), admitted) == Step(old(Model()), if cap.Some? then Capped(phase, cap.value) else Uncapped(phase))
    {
      if cap.None? { return true; }
      var turn, limit := cap.value.turnIndex, cap.value.limit;
      if retiredThroughTurnIndex.Some? && turn <= retiredThroughTurnIndex.value { return false; }
      ghost var before := Model();
      if turn !in turnCounts {
        if |turnCounts| >= MAX_TRACKED_TURN_CAPS {
          OpenNonEmpty(before);
          var oldest := OldestTracked();
          if turn < oldest { return false; }
          turnCounts := turnCounts - {oldest};
          retiredThroughTurnIndex := Some(MaxTurn(retiredThroughTurnIndex, oldest));
        }
        turnCounts := turnCounts[turn := map[]];
      }
      assert Open(before, turn) == Some(Model());
      latestCountedTurnIndex := Some(MaxTurn(latestCountedTurnIndex, turn));
      var counts := turnCounts[turn];
      var used := Used(counts, phase);
      if used >= limit { return false; }
      turnCounts := turnCounts[turn := counts[phase := used + 1]];
      return true;
    }

    method ResetBoundedTelemetry()
      modifies this
      ensures Model() == Initial()
    {
      turnCounts, latestCountedTurnIndex, retiredThroughTurnIndex := map[], None, None;
    }
  }

  // ---- the unbounded table -------------------------------------------------------

  predicate Offers(call: Call, t: int) { call.Capped? && call.cap.turnIndex == t }

  function NextOffered(offered: set<int>, call: Call): set<int> {
    if call.Reset? then {} else if call.Capped? then offered + {call.cap.turnIndex} else offered
  }

  /** Turns offered since the last reset. */
  function Offered(calls: seq<Call>): set<int> {
    if calls == [] then {} else NextOffered(Offered(calls[..|calls| - 1]), calls[|calls| - 1])
  }

  function NextCount(count: nat, call: Call, t: int, phase: string): nat {
    if call.Reset? then 0
    else if Offers(call, t) && call.phase == phase && count < call.cap.limit then count + 1
    else count
  }

  /** What a table that never forgets would have admitted for a turn and phase since the
      last reset. */
  function Count(calls: seq<Call>, t: int, phase: string): nat {
    if calls == [] then 0 else NextCount(Count(calls[..|calls| - 1], t, phase), calls[|calls| - 1], t, phase)
  }

  /** `t` is among the 64 largest of `offered`. */
  ghost predicate InWindow(offered: set<int>, t: int) {
    t in offered && |set u | u in offered && u > t| < 64
  }

  /** `tracked` is the top of `offered`, full unless it is all of it. */
  ghost predicate IsTop(tracked: set<int>, offered: set<int>) {
    && tracked <= offered && |tracked| <= MAX_TRACKED_TURN_CAPS
    && (|tracked| < MAX_TRACKED_TURN_CAPS ==> tracked == offered)
    && forall w, s :: w in tracked && s in offered && s !in tracked ==> s < w
  }

  lemma SubsetSize(a: set<int>, b: set<int>)
    requires a <= b
    ensures |a| <= |b|
  {
    assert b == a + (b - a) && a !! (b - a);
  }

  lemma TopIsWindow(tracked: set<int>, offered: set<int>, t: int)
    requires IsTop(tracked, offered) && t in offered
    ensures t in tracked <==> InWindow(offered, t)
  {
    var above := set u | u in offered && u > t;
    if t in tracked {
      assert above <= tracked - {t};
      SubsetSize(above, tracked - {t});
    } else {
      assert tracked <= above;
      SubsetSize(tracked, above);
    }
  }

  // ---- the invariant of every run ------------------------------------------------

  /** The tracked turns are the top of the offers, and everything retired lies below them. */
  ghost predicate WindowOk(offered: set<int>, s: State) {
    && IsTop(s.turnCounts.Keys, offered)
    && (s.retiredThrough.Some? ==>
          |s.turnCounts.Keys| == MAX_TRACKED_TURN_CAPS
          && forall t :: t in s.turnCounts ==> s.retiredThrough.value < t)
  }

  /** Live buckets hold the unbounded counts. */
  ghost predicate CountsAgree(calls: seq<Call>, buckets: Buckets) {
    forall t, p :: t in buckets ==> Used(buckets[t], p) == Count(calls, t, p)
  }

  ghost predicate NeverOffered(calls: seq<Call>) { forall t, p :: t !in Offered(calls) ==> Count(calls, t, p) == 0 }

  ghost predicate Refines(calls: seq<Call>, s: State) {
    WindowOk(Offered(calls), s) && CountsAgree(calls, s.turnCounts) && NeverOffered(calls)
  }

  lemma AddBelowTop(tracked: set<int>, offered: set<int>, t: int)
    requires IsTop(tracked, offered) && |tracked| == MAX_TRACKED_TURN_CAPS
    requires forall w :: w in tracked ==> t < w
    ensures IsTop(tracked, offered + {t}) && t !in tracked
  {}

  lemma AddToAll(tracked: set<int>, offered: set<int>, t: int)
    requires IsTop(tracked, offered) && |tracked| < MAX_TRACKED_TURN_CAPS && t !in tracked
    ensures IsTop(tracked + {t}, offered + {t}) && t !in offered
  {
    assert tracked == offered;
  }

  lemma SlideTop(tracked: set<int>, offered: set<int>, oldest: int, t: int)
    requires IsTop(tracked, offered) && |tracked| == MAX_TRACKED_TURN_CAPS
    requires IsOldest(tracked, oldest) && oldest < t && t !in tracked
    ensures IsTop(tracked - {oldest} + {t}, offered + {t}) && t !in offered
    ensures |tracked - {oldest} + {t}| == MAX_TRACKED_TURN_CAPS
  {
    assert |tracked - {oldest}| == MAX_TRACKED_TURN_CAPS - 1;
    assert |tracked - {oldest} + {t}| == |tracked - {oldest}| + 1;
  }

  /** What opening a bucket for an offered turn leaves. */
  ghost predicate Opened(offered: set<int>, s: State, t: int, o: State) {
    && WindowOk(offered + {t}, o) && t in o.turnCounts
    && (forall u :: u in o.turnCounts && u != t ==> u in s.turnCounts && o.turnCounts[u] == s.turnCounts[u])
    && (if t in s.turnCounts then o == s else t !in offered && o.turnCounts[t] == map[])
  }

  /** Making room for an offered turn keeps exactly the top of the offers. */
  lemma OpenRefines(offered: set<int>, s: State, t: int)
    requires WindowOk(offered, s)
    requires s.retiredThrough.Some? ==> s.retiredThrough.value < t
    ensures match Open(s, t)
            case None => WindowOk(offered + {t}, s) && t !in s.turnCounts
            case Some(o) => Opened(offered, s, t, o)
  {
    var tracked := s.turnCounts.Keys;
    assert |tracked| == |s.turnCounts|;
    if t in tracked {
      assert offered + {t} == offered;
    } else if |tracked| < MAX_TRACKED_TURN_CAPS {
      AddToAll(tracked, offered, t);
      assert s.turnCounts[t := map[]].Keys == tracked + {t};
    } else {
      OpenNonEmpty(s);
      var oldest := Oldest(tracked);
      assert IsOldest(tracked, oldest);
      if t < oldest {
        AddBelowTop(tracked, offered, t);
      } else {
        SlideTop(tracked, offered, oldest, t);
        assert (s.turnCounts - {oldest})[t := map[]].Keys == tracked - {oldest} + {t};
      }
    }
  }

  lemma CountSnoc(calls: seq<Call>, call: Call, t: int, p: string)
    ensures Count(calls + [call], t, p) == NextCount(Count(calls, t, p), call, t, p)
    ensures Offered(calls + [call]) == NextOffered(Offered(calls), call)
  {
    assert (calls + [call])[..|calls|] == calls;
  }

  lemma CountsSnoc(calls: seq<Call>, call: Call)
    ensures forall u, p :: Count(calls + [call], u, p) == NextCount(Count(calls, u, p), call, u, p)
    ensures Offered(calls + [call]) == NextOffered(Offered(calls), call)
  {
    forall u, p ensures Count(calls + [call], u, p) == NextCount(Count(calls, u, p), call, u, p) {
      CountSnoc(calls, call, u, p);
    }
    CountSnoc(calls, call, 0, "");
  }

  /** A refused call counts nothing anywhere it is remembered. */
  lemma RefusedRefines(calls: seq<Call>, s: State, phase: string, cap: Cap)
    requires Refines(calls, s) && WindowOk(Offered(calls) + {cap.turnIndex}, s) && cap.turnIndex !in s.turnCounts
    ensures Refines(calls + [Capped(phase, cap)], s)
    ensures !InWindow(Offered(calls) + {cap.turnIndex}, cap.turnIndex)
  {
    CountsSnoc(calls, Capped(phase, cap));
    TopIsWindow(s.turnCounts.Keys, Offered(calls) + {cap.turnIndex}, cap.turnIndex);
  }

  /** The counts of an opened bucket, before and after the call. */
  lemma OpenedCounts(calls: seq<Call>, s: State, phase: string, cap: Cap, o: State)
    requires Refines(calls, s) && Opened(Offered(calls), s, cap.turnIndex, o)
    ensures CountsAgree(calls, o.turnCounts)
  {
    forall u, p | u in o.turnCounts ensures Used(o.turnCounts[u], p) == Count(calls, u, p) {
      if u == cap.turnIndex && u !in s.turnCounts { assert Used(map[], p) == 0; }
    }
  }

  lemma AdmitOpened(calls: seq<Call>, s: State, phase: string, cap: Cap, o: State, next: Buckets)
    requires Refines(calls, s) && Opened(Offered(calls), s, cap.turnIndex, o)
    requires var used := Used(o.turnCounts[cap.turnIndex], phase);
             next == if used >= cap.limit then o.turnCounts
                     else o.turnCounts[cap.turnIndex := o.turnCounts[cap.turnIndex][phase := used + 1]]
    ensures CountsAgree(calls + [Capped(phase, cap)], next) && next.Keys == o.turnCounts.Keys
    ensures NeverOffered(calls + [Capped(phase, cap)])
  {
    OpenedCounts(calls, s, phase, cap, o);
    CountsSnoc(calls, Capped(phase, cap));
  }

  /** One capped call: the invariant is kept, and the verdict is the unbounded table's, inside
      the window. */
  lemma AdmitRefines(calls: seq<Call>, s: State, phase: string, cap: Cap)
    requires Refines(calls, s)
    ensures Refines(calls + [Capped(phase, cap)], Admit(s, phase, cap).0)
    ensures Admit(s, phase, cap).1 <==>
      Count(calls, cap.turnIndex, phase) < cap.limit && InWindow(Offered(calls) + {cap.turnIndex}, cap.turnIndex)
  {
    hide Count, InWindow, Offered;
    var t := cap.turnIndex;
    CountSnoc(calls, Capped(phase, cap), t, phase);
    if s.retiredThrough.Some? && t <= s.retiredThrough.value {
      AddBelowTop(s.turnCounts.Keys, Offered(calls), t);
      RefusedRefines(calls, s, phase, cap);
    } else {
      OpenRefines(Offered(calls), s, t);
      match Open(s, t) {
        case None => RefusedRefines(calls, s, phase, cap);
        case Some(o) =>
          OpenedCounts(calls, s, phase, cap, o);
          AdmitOpened(calls, s, phase, cap, o, Admit(s, phase, cap).0.turnCounts);
          TopIsWindow(o.turnCounts.Keys, Offered(calls) + {t}, t);
      }
    }
  }

  lemma {:induction false} RunRefines(calls: seq<Call>)
    ensures Refines(calls, Run(calls))
  {
    if calls == [] {
    } else {
      var front, call := calls[..|calls| - 1], calls[|calls| - 1];
      assert calls == front + [call];
      RunRefines(front);
      match call {
        case Capped(phase, cap) => AdmitRefines(front, Run(front), phase, cap);
        case _ =>
      }
    }
  }

  /** A capped call is admitted exactly when an unbounded counter of its turn and phase would
      admit it and its turn is among the 64 largest turns offered since the last reset. */
  lemma AdmissionIsUnboundedInWindow(calls: seq<Call>, phase: string, cap: Cap)
    ensures Admitted(calls + [Capped(phase, cap)]) <==>
      Count(calls, cap.turnIndex, phase) < cap.limit && InWindow(Offered(calls) + {cap.turnIndex}, cap.turnIndex)
  {
    RunRefines(calls);
    AdmitRefines(calls, Run(calls), phase, cap);
    assert (calls + [Capped(phase, cap)])[..|calls|] == calls;
  }

  // ---- an exhausted budget never reopens -----------------------------------------

  /** Admissions granted to a turn and phase since the last reset. */
  ghost function Granted(calls: seq<Call>, t: int, phase: string): nat {
    if calls == [] then 0
    else
      var last := calls[|calls| - 1];
      if last.Reset? then 0
      else Granted(calls[..|calls| - 1], t, phase)
           + (if Offers(last, t) && last.phase == phase && Admitted(calls) then 1 else 0)
  }

  ghost predicate LimitedBy(calls: seq<Call>, t: int, phase: string, limit: nat) {
    forall i :: 0 <= i < |calls| && Offers(calls[i], t) && calls[i].phase == phase ==> calls[i].cap.limit <= limit
  }

  /** However turns come and go, a turn and phase is never granted more than its largest
      limit: eviction of its bucket cannot reopen the budget. */
  lemma {:induction false} BudgetNeverReopens(calls: seq<Call>, t: int, phase: string, limit: nat)
    requires LimitedBy(calls, t, phase, limit)
    ensures Granted(calls, t, phase) <= Count(calls, t, phase) <= limit
  {
    if calls == [] {
    } else {
      var front, last := calls[..|calls| - 1], calls[|calls| - 1];
      assert calls == front + [last];
      assert forall i :: 0 <= i < |front| ==> front[i] == calls[i];
      BudgetNeverReopens(front, t, phase, limit);
      CountSnoc(front, last, t, phase);
      if Offers(last, t) && last.phase == phase {
        AdmissionIsUnboundedInWindow(front, phase, last.cap);
        assert last == Capped(phase, last.cap);
      }
    }
  }
}
