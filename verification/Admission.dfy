/**
 Admission of a team's requests: at most so many admissions a minute, and at most so
 many at once, for each principal.  The clock is read before the lock is taken, so a
 request may enter the critical section with an older reading than the one before it.
 How far readings may run backwards decides how long a window the limit holds for;
 that is proved exactly.  Times are exact reals.
 */
module Admission {
  import opened Wrappers

  datatype Principal = Principal(
    id: string,
    scopes: seq<string>,
    allowedModels: seq<string>,
    maxConcurrent: int,
    requestsPerMinute: int)
  {
    predicate Permits(scope: string) {
      "*" in scopes || scope in scopes
    }

    predicate PermitsModel(model: string) {
      allowedModels == [] || model in allowedModels
    }
  }

  datatype Denial = ScopeDenied | ModelDenied | RateLimited | ConcurrencyLimited

  // ---------------------------------------------------------------- one principal's history

  /** Drop admissions from the front while they are a minute old. */
  function Pruned(history: seq<real>, now: real): seq<real> {
    if history != [] && history[0] <= now - 60.0 then Pruned(history[1..], now) else history
  }

  /** The number of times in the window of the given length that ends at `t`. */
  function InWindow(times: seq<real>, t: real, length: real): nat {
    if times == [] then 0
    else
      var last := times[|times| - 1];
      InWindow(times[..|times| - 1], t, length) + if t - length < last <= t then 1 else 0
  }

  lemma {:induction false} PrunedIsSuffix(history: seq<real>, now: real)
    ensures |Pruned(history, now)| <= |history|
    ensures Pruned(history, now) == history[|history| - |Pruned(history, now)|..]
    ensures forall i :: 0 <= i < |history| - |Pruned(history, now)| ==> history[i] <= now - 60.0
    ensures Pruned(history, now) != [] ==> Pruned(history, now)[0] > now - 60.0
  {
    if history != [] && history[0] <= now - 60.0 {
      PrunedIsSuffix(history[1..], now);
    }
  }

  lemma {:induction false} InWindowAtMostLength(times: seq<real>, t: real, length: real)
    ensures InWindow(times, t, length) <= |times|
  {
    if times != [] {
      InWindowAtMostLength(times[..|times| - 1], t, length);
    }
  }

  lemma {:induction false} InWindowSplit(times: seq<real>, k: nat, t: real, length: real)
    requires k <= |times|
    ensures InWindow(times, t, length) == InWindow(times[..k], t, length) + InWindow(times[k..], t, length)
  {
    if k == |times| {
      assert times[..k] == times;
    } else {
      var n := |times| - 1;
      assert times[..n][..k] == times[..k] && times[..n][k..] == times[k..][..n - k];
      InWindowSplit(times[..n], k, t, length);
    }
  }

  lemma {:induction false} NoneInWindow(times: seq<real>, t: real, length: real)
    requires forall i :: 0 <= i < |times| ==> times[i] <= t - length
    ensures InWindow(times, t, length) == 0
  {
    if times != [] {
      NoneInWindow(times[..|times| - 1], t, length);
    }
  }

  lemma {:induction false} AllInWindow(times: seq<real>, t: real, length: real)
    requires forall i :: 0 <= i < |times| ==> t - length < times[i] <= t
    ensures InWindow(times, t, length) == |times|
  {
    if times != [] {
      AllInWindow(times[..|times| - 1], t, length);
    }
  }

  // ---------------------------------------------------------------- the controller's state

  /** An admitted request; its slot is open until the request ends. */
  datatype Slot = Slot(id: string, open: bool)

  datatype State = State(active: map<string, int>, requests: map<string, seq<real>>, slots: seq<Slot>)

  datatype Event = Enter(p: Principal, model: string, now: real) | Exit(slot: nat)

  function Active(active: map<string, int>, id: string): int {
    if id in active then active[id] else 0
  }

  function History(requests: map<string, seq<real>>, id: string): seq<real> {
    if id in requests then requests[id] else []
  }

  /** Why a request is turned away, if it is; the limits are checked in this order. */
  function Denied(active: int, recent: nat, p: Principal, model: string): Option<Denial> {
    if !p.Permits("inference") then Some(ScopeDenied)
    else if !p.PermitsModel(model) then Some(ModelDenied)
    else if recent >= p.requestsPerMinute then Some(RateLimited)
    else if active >= p.maxConcurrent then Some(ConcurrencyLimited)
    else None
  }

  /** The request reaches the limits: it has the scope and the model. */
  predicate Authorized(p: Principal, model: string) {
    p.Permits("inference") && p.PermitsModel(model)
  }

  function Outcome(s: State, p: Principal, model: string, now: real): Option<Denial> {
    Denied(Active(s.active, p.id), |Pruned(History(s.requests, p.id), now)|, p, model)
  }

  function Step(s: State, e: Event): State {
    match e
    case Enter(p, model, now) =>
      if !Authorized(p, model) then s
      else
        var history := Pruned(History(s.requests, p.id), now);
        if Outcome(s, p, model, now).Some? then s.(requests := s.requests[p.id := history])
        else
          State(s.active[p.id := Active(s.active, p.id) + 1], s.requests[p.id := history + [now]],
                s.slots + [Slot(p.id, true)])
    case Exit(k) =>
      if k < |s.slots| && s.slots[k].open then
        var id := s.slots[k].id;
        s.(active := s.active[id := Max(0, Active(s.active, id) - 1)], slots := s.slots[k := Slot(id, false)])
      else s
  }

  const EMPTY := State(map[], map[], [])

  function Run(events: seq<Event>): State {
    if events == [] then EMPTY else Step(Run(events[..|events| - 1]), events[|events| - 1])
  }

  function Front(events: seq<Event>): seq<Event>
    requires events != []
  {
    events[..|events| - 1]
  }

  function Last(events: seq<Event>): Event
    requires events != []
  {
    events[|events| - 1]
  }

  // ---------------------------------------------------------------- what a run did for one principal

  /** The event reads the clock for the principal and goes on to the limits. */
  ghost predicate Reads(e: Event, id: string) {
    e.Enter? && e.p.id == id && Authorized(e.p, e.model)
  }

  /** The event admits a request of the principal, from state `s`. */
  ghost predicate Admits(s: State, e: Event, id: string) {
    Reads(e, id) && Outcome(s, e.p, e.model, e.now).None?
  }

  /** The clock readings of the principal's admissions, in the order they were admitted. */
  ghost function Admitted(events: seq<Event>, id: string): seq<real> {
    if events == [] then []
    else
      Admitted(Front(events), id) + if Admits(Run(Front(events)), Last(events), id) then [Last(events).now] else []
  }

  /** The latest clock reading made for the principal, admitted or not. */
  ghost function Latest(events: seq<Event>, id: string): Option<real> {
    if events == [] then None
    else
      var before := Latest(Front(events), id);
      if !Reads(Last(events), id) then before
      else if before.Some? && before.value >= Last(events).now then before
      else Some(Last(events).now)
  }

  /** No reading for the principal is more than `skew` seconds behind an earlier one. */
  ghost predicate SkewAtMost(events: seq<Event>, id: string, skew: real) {
    forall i, j :: 0 <= i < j < |events| && Reads(events[i], id) && Reads(events[j], id) ==>
      events[j].now >= events[i].now - skew
  }

  /** The principal's limits do not change during the run. */
  ghost predicate FixedLimits(events: seq<Event>, p: Principal) {
    forall i :: 0 <= i < |events| && events[i].Enter? && events[i].p.id == p.id ==> events[i].p == p
  }

  lemma {:induction false} LatestIsARead(events: seq<Event>, id: string)
    requires Latest(events, id).Some?
    ensures exists i :: 0 <= i < |events| && Reads(events[i], id) && events[i].now == Latest(events, id).value
  {
    if Latest(events, id) == Latest(Front(events), id) {
      LatestIsARead(Front(events), id);
      var i :| 0 <= i < |Front(events)| && Reads(Front(events)[i], id) &&
        Front(events)[i].now == Latest(Front(events), id).value;
      assert events[i] == Front(events)[i];
    }
  }

  lemma LatestWithinSkew(events: seq<Event>, id: string, skew: real)
    requires events != [] && SkewAtMost(events, id, skew) && Reads(Last(events), id)
    ensures Latest(Front(events), id).Some? ==> Latest(Front(events), id).value <= Last(events).now + skew
  {
    if Latest(Front(events), id).Some? {
      LatestIsARead(Front(events), id);
    }
  }

  /** The history kept is the end of the admissions, and what was dropped is a minute older than the latest reading. */
  ghost predicate Kept(history: seq<real>, admitted: seq<real>, latest: Option<real>) {
    && |history| <= |admitted|
    && history == admitted[|admitted| - |history|..]
    && (forall i :: 0 <= i < |admitted| ==> latest.Some? && admitted[i] <= latest.value)
    && (forall i :: 0 <= i < |admitted| - |history| ==> latest.Some? && admitted[i] <= latest.value - 60.0)
  }

  lemma PruneKeeps(history: seq<real>, admitted: seq<real>, latest: Option<real>, now: real, later: real)
    requires Kept(history, admitted, latest)
    requires latest.Some? ==> later >= latest.value
    requires later >= now
    ensures Kept(Pruned(history, now), admitted, Some(later))
  {
    PrunedIsSuffix(history, now);
    var gone := |admitted| - |history|;
    forall i | 0 <= i < |admitted| - |Pruned(history, now)|
      ensures admitted[i] <= later - 60.0
    {
      if i >= gone {
        assert admitted[i] == history[i - gone];
      }
    }
  }

  lemma AdmitKeeps(history: seq<real>, admitted: seq<real>, now: real, later: real)
    requires Kept(history, admitted, Some(later)) && now <= later
    ensures Kept(history + [now], admitted + [now], Some(later))
  {
  }

  lemma {:induction false} RunKeepsHistory(events: seq<Event>, id: string)
    ensures Kept(History(Run(events).requests, id), Admitted(events, id), Latest(events, id))
  {
    if events != [] {
      RunKeepsHistory(Front(events), id);
      HistoryStep(Run(Front(events)), Last(events), id, Admitted(Front(events), id), Latest(Front(events), id),
                  Latest(events, id));
    }
  }

  lemma HistoryStep(s: State, e: Event, id: string, admitted: seq<real>, latest: Option<real>, later: Option<real>)
    requires Kept(History(s.requests, id), admitted, latest)
    requires Reads(e, id) ==> later.Some? && later.value >= e.now && (latest.Some? ==> later.value >= latest.value)
    requires !Reads(e, id) ==> later == latest
    ensures Kept(History(Step(s, e).requests, id), admitted + if Admits(s, e, id) then [e.now] else [], later)
  {
    if Reads(e, id) {
      PruneKeeps(History(s.requests, id), admitted, latest, e.now, later.value);
      if Admits(s, e, id) {
        AdmitKeeps(Pruned(History(s.requests, id), e.now), admitted, e.now, later.value);
      } else {
        assert admitted + [] == admitted;
      }
    } else {
      assert admitted + [] == admitted;
    }
  }

  // ---------------------------------------------------------------- the rate limit

  ghost predicate WindowBounded(times: seq<real>, limit: int, length: real) {
    forall t :: InWindow(times, t, length) <= limit
  }

  /** One more admission: whatever left the history is out of every window that holds the new one. */
  lemma OneMoreInWindow(history: seq<real>, admitted: seq<real>, now: real, later: real, skew: real, length: real,
                        t: real)
    requires Kept(history, admitted, Some(later)) && now <= later <= now + skew
    requires length <= 60.0 - skew && t - length < now <= t
    ensures InWindow(admitted + [now], t, length) <= |history| + 1
  {
    var gone := |admitted| - |history|;
    assert (admitted + [now])[..|admitted|] == admitted;
    InWindowSplit(admitted, gone, t, length);
    NoneInWindow(admitted[..gone], t, length);
    InWindowAtMostLength(history, t, length);
  }

  lemma OneMoreStaysBounded(history: seq<real>, admitted: seq<real>, now: real, later: real, skew: real, length: real,
                            limit: int)
    requires Kept(history, admitted, Some(later)) && now <= later <= now + skew
    requires length <= 60.0 - skew && WindowBounded(admitted, limit, length) && |history| < limit
    ensures WindowBounded(admitted + [now], limit, length)
  {
    forall t
      ensures InWindow(admitted + [now], t, length) <= limit
    {
      if t - length < now <= t {
        OneMoreInWindow(history, admitted, now, later, skew, length, t);
      } else {
        assert (admitted + [now])[..|admitted|] == admitted;
      }
    }
  }

  /**
   When readings run back by at most `skew` seconds, no window of 60 - skew seconds ever holds more
   admissions than the limit.  With a monotone clock this is every minute.
   */
  lemma {:induction false} RateLimitHolds(events: seq<Event>, p: Principal, skew: real, length: real)
    requires FixedLimits(events, p) && SkewAtMost(events, p.id, skew)
    requires skew >= 0.0 && length <= 60.0 - skew
    ensures WindowBounded(Admitted(events, p.id), Max(0, p.requestsPerMinute), length)
  {
    if events != [] {
      var front := Front(events);
      assert SkewAtMost(front, p.id, skew);
      RateLimitHolds(front, p, skew, length);
      if Admits(Run(front), Last(events), p.id) {
        var e := Last(events);
        RunKeepsHistory(front, p.id);
        LatestWithinSkew(events, p.id, skew);
        PruneKeeps(History(Run(front).requests, p.id), Admitted(front, p.id), Latest(front, p.id), e.now,
                   Latest(events, p.id).value);
        OneMoreStaysBounded(Pruned(History(Run(front).requests, p.id), e.now), Admitted(front, p.id), e.now,
                            Latest(events, p.id).value, skew, length, Max(0, p.requestsPerMinute));
      } else {
        assert Admitted(front, p.id) + [] == Admitted(front, p.id);
      }
    }
  }

  // ---------------------------------------------------------------- with a monotone clock the limit is exact

  ghost predicate Sorted(times: seq<real>) {
    forall i, j :: 0 <= i < j < |times| ==> times[i] <= times[j]
  }

  lemma {:induction false} AdmittedInOrder(events: seq<Event>, id: string)
    requires SkewAtMost(events, id, 0.0)
    ensures Sorted(Admitted(events, id))
  {
    if events != [] {
      assert SkewAtMost(Front(events), id, 0.0);
      AdmittedInOrder(Front(events), id);
      RunKeepsHistory(Front(events), id);
      if Reads(Last(events), id) {
        LatestWithinSkew(events, id, 0.0);
      }
    }
  }

  /**
   With a monotone clock a request is turned away for its rate exactly when the minute before it
   already holds as many admissions as the limit: neither too late nor too early.
   */
  lemma DeniedIffMinuteIsFull(events: seq<Event>, p: Principal, model: string, now: real)
    requires SkewAtMost(events + [Enter(p, model, now)], p.id, 0.0) && Authorized(p, model)
    ensures Outcome(Run(events), p, model, now) == Some(RateLimited) <==>
      InWindow(Admitted(events, p.id), now, 60.0) >= p.requestsPerMinute
  {
    var all := events + [Enter(p, model, now)];
    assert Front(all) == events;
    SkewOfFront(all, p.id, 0.0);
    AdmittedInOrder(events, p.id);
    RunKeepsHistory(events, p.id);
    LatestWithinSkew(all, p.id, 0.0);
    HistoryIsTheMinute(History(Run(events).requests, p.id), Admitted(events, p.id), Latest(events, p.id), now);
  }

  lemma SkewOfFront(events: seq<Event>, id: string, skew: real)
    requires events != [] && SkewAtMost(events, id, skew)
    ensures SkewAtMost(Front(events), id, skew)
  {
  }

  lemma HistoryIsTheMinute(history: seq<real>, admitted: seq<real>, latest: Option<real>, now: real)
    requires Kept(history, admitted, latest) && Sorted(admitted) && (latest.Some? ==> latest.value <= now)
    ensures |Pruned(history, now)| == InWindow(admitted, now, 60.0)
  {
    PruneKeeps(history, admitted, latest, now, now);
    PrunedIsSuffix(history, now);
    RecentIsInWindow(Pruned(history, now), admitted, now);
  }

  lemma RecentIsInWindow(kept: seq<real>, admitted: seq<real>, now: real)
    requires Kept(kept, admitted, Some(now)) && Sorted(admitted) && (kept != [] ==> kept[0] > now - 60.0)
    ensures |kept| == InWindow(admitted, now, 60.0)
  {
    var gone := |admitted| - |kept|;
    InWindowSplit(admitted, gone, now, 60.0);
    NoneInWindow(admitted[..gone], now, 60.0);
    forall i | 0 <= i < |kept|
      ensures now - 60.0 < kept[i] <= now
    {
      assert kept[0] == admitted[gone] && kept[i] == admitted[gone + i];
    }
    AllInWindow(kept, now, 60.0);
  }

  // ---------------------------------------------------------------- out of order readings

  /** What one more event adds to the admissions of a principal. */
  ghost function Added(s: State, e: Event, id: string): seq<real> {
    if Admits(s, e, id) then [e.now] else []
  }

  lemma OneMoreEvent(events: seq<Event>, e: Event, id: string)
    ensures Run(events + [e]) == Step(Run(events), e)
    ensures Admitted(events + [e], id) == Admitted(events, id) + Added(Run(events), e, id)
  {
    assert Front(events + [e]) == events && Last(events + [e]) == e;
  }

  lemma ThreeMoreEvents(events: seq<Event>, a: Event, b: Event, c: Event, id: string)
    ensures var s := Run(events);
            Admitted(events + [a] + [b] + [c], id) ==
            Admitted(events, id) + Added(s, a, id) + Added(Step(s, a), b, id) + Added(Step(Step(s, a), b), c, id)
  {
    OneMoreEvent(events, a, id);
    OneMoreEvent(events + [a], b, id);
    OneMoreEvent(events + [a] + [b], c, id);
  }

  /** A request that is admitted at `now`, and then ends. */
  function Visit(events: seq<Event>, p: Principal, model: string, now: real): seq<Event> {
    events + [Enter(p, model, now)] + [Exit(|Run(events).slots|)]
  }

  lemma VisitFrom(s: State, p: Principal, model: string, now: real)
    requires Authorized(p, model) && Active(s.active, p.id) == 0 && p.maxConcurrent >= 1
    requires |Pruned(History(s.requests, p.id), now)| < p.requestsPerMinute
    ensures var inside := Step(s, Enter(p, model, now));
            var after := Step(inside, Exit(|s.slots|));
            && Added(s, Enter(p, model, now), p.id) == [now] && Added(inside, Exit(|s.slots|), p.id) == []
            && Active(after.active, p.id) == 0
            && History(after.requests, p.id) == Pruned(History(s.requests, p.id), now) + [now]
  {
  }

  lemma VisitAdmits(events: seq<Event>, p: Principal, model: string, now: real)
    requires Authorized(p, model) && Active(Run(events).active, p.id) == 0 && p.maxConcurrent >= 1
    requires |Pruned(History(Run(events).requests, p.id), now)| < p.requestsPerMinute
    ensures Active(Run(Visit(events, p, model, now)).active, p.id) == 0
    ensures History(Run(Visit(events, p, model, now)).requests, p.id) ==
      Pruned(History(Run(events).requests, p.id), now) + [now]
    ensures Admitted(Visit(events, p, model, now), p.id) == Admitted(events, p.id) + [now]
  {
    var enter, exit := Enter(p, model, now), Exit(|Run(events).slots|);
    VisitFrom(Run(events), p, model, now);
    OneMoreEvent(events, enter, p.id);
    OneMoreEvent(events + [enter], exit, p.id);
    assert Admitted(events, p.id) + [now] + [] == Admitted(events, p.id) + [now];
  }

  function Zeros(n: nat): seq<real> {
    seq(n, i => 0.0)
  }

  /** What a full round of visits at time zero leaves. */
  ghost predicate FullAtZero(s: State, admitted: seq<real>, id: string, n: nat) {
    Active(s.active, id) == 0 && History(s.requests, id) == Zeros(n) && admitted == Zeros(n)
  }

  ghost predicate ReadZero(events: seq<Event>, p: Principal) {
    forall i :: 0 <= i < |events| && events[i].Enter? ==> events[i].p == p && events[i].now == 0.0
  }

  lemma VisitReadsZero(events: seq<Event>, p: Principal, model: string)
    requires ReadZero(events, p)
    ensures ReadZero(Visit(events, p, model, 0.0), p)
  {
  }

  lemma VisitFills(events: seq<Event>, p: Principal, model: string, n: nat)
    requires Authorized(p, model) && p.maxConcurrent >= 1 && n < p.requestsPerMinute
    requires FullAtZero(Run(events), Admitted(events, p.id), p.id, n)
    ensures FullAtZero(Run(Visit(events, p, model, 0.0)), Admitted(Visit(events, p, model, 0.0), p.id), p.id, n + 1)
  {
    OneMoreZero(n + 1);
    VisitAdmits(events, p, model, 0.0);
  }

  lemma NothingAdmitted(id: string)
    ensures Run([]) == EMPTY && Admitted([], id) == []
  {
  }

  /** `n` visits at time zero. */
  lemma {:induction false} VisitsAtZero(p: Principal, model: string, n: nat) returns (events: seq<Event>)
    requires Authorized(p, model) && p.maxConcurrent >= 1 && n <= p.requestsPerMinute
    ensures FullAtZero(Run(events), Admitted(events, p.id), p.id, n) && ReadZero(events, p)
  {
    if n == 0 {
      events := [];
      NothingAdmitted(p.id);
    } else {
      var before := VisitsAtZero(p, model, n - 1);
      VisitFills(before, p, model, n - 1);
      VisitReadsZero(before, p, model);
      events := Visit(before, p, model, 0.0);
    }
  }

  lemma OneMoreZero(n: nat)
    requires n > 0
    ensures Pruned(Zeros(n - 1), 0.0) == Zeros(n - 1) && Zeros(n) == Zeros(n - 1) + [0.0]
  {
  }

  lemma {:induction false} ZerosPruned(n: nat)
    ensures Pruned(Zeros(n), 60.0) == []
  {
    if n > 0 {
      assert Zeros(n)[1..] == Zeros(n - 1);
      ZerosPruned(n - 1);
    }
  }

  /** After a full minute's admissions, one a minute later, and one with an older reading. */
  function LateReading(full: seq<Event>, p: Principal, model: string, late: real): seq<Event> {
    Visit(full, p, model, 60.0) + [Enter(p, model, late)]
  }

  lemma LastTwoAreAdmitted(full: seq<Event>, p: Principal, model: string, late: real)
    requires Authorized(p, model) && p.requestsPerMinute >= 2 && p.maxConcurrent >= 1 && late <= 60.0
    requires Active(Run(full).active, p.id) == 0 && Pruned(History(Run(full).requests, p.id), 60.0) == []
    ensures Admitted(LateReading(full, p, model, late), p.id) == Admitted(full, p.id) + [60.0] + [late]
  {
    var s := Run(full);
    VisitFrom(s, p, model, 60.0);
    OlderComesIn(Step(Step(s, Enter(p, model, 60.0)), Exit(|s.slots|)), p, model, late);
    ThreeMoreEvents(full, Enter(p, model, 60.0), Exit(|s.slots|), Enter(p, model, late), p.id);
    assert Admitted(full, p.id) + [60.0] + [] == Admitted(full, p.id) + [60.0];
  }

  lemma OlderComesIn(s: State, p: Principal, model: string, now: real)
    requires Authorized(p, model) && p.requestsPerMinute >= 2 && p.maxConcurrent >= 1
    requires Active(s.active, p.id) == 0 && History(s.requests, p.id) == [] + [60.0] && now <= 60.0
    ensures Added(s, Enter(p, model, now), p.id) == [now]
  {
    assert [] + [60.0] == [60.0];
    assert Pruned([60.0], now) == [60.0];
  }

  lemma LateReadingHasSkew(full: seq<Event>, p: Principal, model: string, skew: real, late: real)
    requires ReadZero(full, p) && 0.0 <= late == 60.0 - skew <= 60.0
    ensures FixedLimits(LateReading(full, p, model, late), p) &&
      SkewAtMost(LateReading(full, p, model, late), p.id, skew)
  {
    var n := |full|;
    var all := LateReading(full, p, model, late);
    assert all[..n] == full;
    assert forall i :: 0 <= i < n && all[i].Enter? ==> all[i].p == p && all[i].now == 0.0;
    assert |all| == n + 3 && all[n].now == 60.0 && all[n + 1].Exit? && all[n + 2].now == late;
  }

  lemma LateReadingOverflows(n: nat, late: real, length: real)
    requires 0.0 <= late <= 60.0 && length > 0.0 && length > late
    ensures !WindowBounded(Zeros(n) + [60.0] + [late], n, length)
  {
    AllInWindow(Zeros(n), late, length);
    var inside := Zeros(n) + [60.0];
    assert inside[..n] == Zeros(n) && (inside + [late])[..n + 1] == inside;
    assert InWindow(inside + [late], late, length) >= n + 1;
  }

  /**
   How far readings may run backwards decides how long a window the limit holds for.  The limit of a principal
   holds for every run and every window of the given length if and only if the length and the skew together are
   at most a minute.
   */
  lemma RateLimitHoldsIff(p: Principal, model: string, skew: real, length: real)
    requires Authorized(p, model) && p.requestsPerMinute >= 1 && p.maxConcurrent >= 1
    requires skew >= 0.0 && length > 0.0
    ensures length <= 60.0 - skew <==>
      forall events :: FixedLimits(events, p) && SkewAtMost(events, p.id, skew) ==>
        WindowBounded(Admitted(events, p.id), p.requestsPerMinute, length)
  {
    if length <= 60.0 - skew {
      forall events | FixedLimits(events, p) && SkewAtMost(events, p.id, skew)
        ensures WindowBounded(Admitted(events, p.id), p.requestsPerMinute, length)
      {
        RateLimitHolds(events, p, skew, length);
      }
    } else {
      var behind := if skew <= 60.0 then skew else 60.0;
      var events := OverflowingRun(p, model, behind, length);
      assert SkewAtMost(events, p.id, skew);
    }
  }

  /** Readings stay within the skew, yet some window holds too many admissions. */
  ghost predicate Overflows(events: seq<Event>, p: Principal, skew: real, length: real) {
    && FixedLimits(events, p) && SkewAtMost(events, p.id, skew)
    && !WindowBounded(Admitted(events, p.id), p.requestsPerMinute, length)
  }

  /** A run within the skew in which some longer window holds too many admissions. */
  lemma OverflowingRun(p: Principal, model: string, skew: real, length: real) returns (events: seq<Event>)
    requires Authorized(p, model) && p.requestsPerMinute >= 1 && p.maxConcurrent >= 1
    requires 0.0 <= skew <= 60.0 && length > 0.0 && length > 60.0 - skew
    ensures Overflows(events, p, skew, length)
  {
    if p.requestsPerMinute >= 2 {
      events := LateRun(p, model, skew, length);
    } else {
      events := LateRunAtOne(p, model, skew, length);
    }
  }

  lemma LateRun(p: Principal, model: string, skew: real, length: real) returns (events: seq<Event>)
    requires Authorized(p, model) && p.requestsPerMinute >= 2 && p.maxConcurrent >= 1
    requires 0.0 <= skew <= 60.0 && length > 0.0 && length > 60.0 - skew
    ensures Overflows(events, p, skew, length)
  {
    var full := VisitsAtZero(p, model, p.requestsPerMinute);
    events := LateReadingBreaksTheLimit(full, p, model, skew, 60.0 - skew, length);
  }

  lemma LateReadingBreaksTheLimit(full: seq<Event>, p: Principal, model: string, skew: real, late: real, length: real)
    returns (events: seq<Event>)
    requires Authorized(p, model) && p.requestsPerMinute >= 2 && p.maxConcurrent >= 1
    requires FullAtZero(Run(full), Admitted(full, p.id), p.id, p.requestsPerMinute) && ReadZero(full, p)
    requires 0.0 <= late == 60.0 - skew <= 60.0 && length > 0.0 && length > late
    ensures Overflows(events, p, skew, length)
  {
    events := LateReading(full, p, model, late);
    LateReadingHasSkew(full, p, model, skew, late);
    OverflowsAtTheLimit(full, p, model, late, length);
  }

  lemma OverflowsAtTheLimit(full: seq<Event>, p: Principal, model: string, late: real, length: real)
    requires Authorized(p, model) && p.requestsPerMinute >= 2 && p.maxConcurrent >= 1
    requires FullAtZero(Run(full), Admitted(full, p.id), p.id, p.requestsPerMinute)
    requires 0.0 <= late <= 60.0 && length > 0.0 && length > late
    ensures !WindowBounded(Admitted(LateReading(full, p, model, late), p.id), p.requestsPerMinute, length)
  {
    ZerosPruned(p.requestsPerMinute);
    LastTwoAreAdmitted(full, p, model, late);
    LateReadingOverflows(p.requestsPerMinute, late, length);
  }

  // ---------------------------------------------------------------- out of order readings under a limit of one

  /**
   What one admission a minute leaves, when each stays open:
   `n` open slots, and the last admission alone on record.
   */
  ghost predicate Held(s: State, admitted: seq<real>, id: string, n: nat, last: real) {
    && Active(s.active, id) == n == |s.slots| == |admitted|
    && History(s.requests, id) == (if n == 0 then [] else [last])
    && (n > 0 ==> s.slots[0] == Slot(id, true) && admitted[n - 1] == last)
  }

  lemma MinutePrunes(last: real, now: real)
    requires last + 60.0 <= now
    ensures Pruned([last], now) == []
  {
  }

  /** The next admission is a minute later, so the record is empty when it comes. */
  lemma HoldOneMore(s: State, admitted: seq<real>, p: Principal, model: string, n: nat, last: real, now: real)
    requires Authorized(p, model) && p.requestsPerMinute == 1 && n < p.maxConcurrent && Held(s, admitted, p.id, n, last)
    requires n > 0 ==> last + 60.0 <= now
    ensures var e := Enter(p, model, now); Held(Step(s, e), admitted + Added(s, e, p.id), p.id, n + 1, now)
  {
    if n > 0 {
      MinutePrunes(last, now);
    }
  }

  lemma HoldsOneMore(events: seq<Event>, p: Principal, model: string, n: nat, last: real, now: real)
    requires Authorized(p, model) && p.requestsPerMinute == 1 && n < p.maxConcurrent
    requires Held(Run(events), Admitted(events, p.id), p.id, n, last) && (n > 0 ==> last + 60.0 <= now)
    ensures var more := events + [Enter(p, model, now)]; Held(Run(more), Admitted(more, p.id), p.id, n + 1, now)
  {
    HoldOneMore(Run(events), Admitted(events, p.id), p, model, n, last, now);
    OneMoreEvent(events, Enter(p, model, now), p.id);
  }

  /** Requests of the principal, at readings in order, the latest of them at most `last`. */
  ghost predicate ReadInOrder(events: seq<Event>, p: Principal, last: real) {
    && (forall i :: 0 <= i < |events| ==> events[i].Enter? && events[i].p == p && events[i].now <= last)
    && forall i, j :: 0 <= i < j < |events| ==> events[i].now <= events[j].now
  }

  lemma ReadsOneMore(events: seq<Event>, p: Principal, model: string, last: real, now: real)
    requires ReadInOrder(events, p, last) && last <= now
    ensures ReadInOrder(events + [Enter(p, model, now)], p, now)
  {
  }

  /** A run of `n` admissions, a minute apart, that hold `n` slots. */
  ghost predicate HeldBy(events: seq<Event>, p: Principal, n: nat, last: real) {
    Held(Run(events), Admitted(events, p.id), p.id, n, last) && ReadInOrder(events, p, last)
  }

  lemma NoneHeld(p: Principal)
    ensures HeldBy([], p, 0, 0.0)
  {
    NothingAdmitted(p.id);
  }

  lemma OneMoreHeld(before: seq<Event>, p: Principal, model: string, n: nat, earlier: real)
    returns (events: seq<Event>, last: real)
    requires Authorized(p, model) && p.requestsPerMinute == 1 && n < p.maxConcurrent && HeldBy(before, p, n, earlier)
    ensures HeldBy(events, p, n + 1, last)
  {
    last := earlier + 60.0;
    events := before + [Enter(p, model, last)];
    HoldsOneMore(before, p, model, n, earlier, last);
    ReadsOneMore(before, p, model, earlier, last);
  }

  /** Such a run exists for every number of slots. */
  lemma {:induction false} AllHeld(p: Principal, model: string, n: nat) returns (events: seq<Event>, last: real)
    requires Authorized(p, model) && p.requestsPerMinute == 1 && n <= p.maxConcurrent
    ensures HeldBy(events, p, n, last)
  {
    if n == 0 {
      NoneHeld(p);
      events, last := [], 0.0;
    } else {
      var before, earlier := AllHeld(p, model, n - 1);
      events, last := OneMoreHeld(before, p, model, n - 1, earlier);
    }
  }

  /**
   All slots are held; a reading a minute after the last admission is turned away for concurrency, but has cleared
   the record; then a slot is given back, and an older reading comes in.
   */
  function LateAfterDenial(holds: seq<Event>, p: Principal, model: string, now: real, late: real): seq<Event> {
    holds + [Enter(p, model, now)] + [Exit(0)] + [Enter(p, model, late)]
  }

  /** Each of the three steps, from a state in which all slots are held. */
  lemma LateComesIn(s: State, admitted: seq<real>, p: Principal, model: string, last: real, now: real, late: real)
    requires Authorized(p, model) && p.requestsPerMinute == 1 && p.maxConcurrent >= 1
    requires Held(s, admitted, p.id, p.maxConcurrent, last) && last + 60.0 <= now
    ensures var denied := Enter(p, model, now);
            && Added(s, denied, p.id) == [] && Added(Step(s, denied), Exit(0), p.id) == []
            && Added(Step(Step(s, denied), Exit(0)), Enter(p, model, late), p.id) == [late]
  {
    MinutePrunes(last, now);
    assert Outcome(s, p, model, now) == Some(ConcurrencyLimited);
    EmptyRecordLetsIn(Step(Step(s, Enter(p, model, now)), Exit(0)), p, model, late);
  }

  lemma EmptyRecordLetsIn(s: State, p: Principal, model: string, now: real)
    requires Authorized(p, model) && p.requestsPerMinute >= 1
    requires History(s.requests, p.id) == [] && Active(s.active, p.id) < p.maxConcurrent
    ensures Added(s, Enter(p, model, now), p.id) == [now]
  {
  }

  lemma LateIsAdmitted(holds: seq<Event>, p: Principal, model: string, last: real, now: real, late: real)
    requires Authorized(p, model) && p.requestsPerMinute == 1 && p.maxConcurrent >= 1
    requires Held(Run(holds), Admitted(holds, p.id), p.id, p.maxConcurrent, last) && last + 60.0 <= now
    ensures Admitted(LateAfterDenial(holds, p, model, now, late), p.id) == Admitted(holds, p.id) + [late]
  {
    LateComesIn(Run(holds), Admitted(holds, p.id), p, model, last, now, late);
    ThreeMoreEvents(holds, Enter(p, model, now), Exit(0), Enter(p, model, late), p.id);
    assert Admitted(holds, p.id) + [] + [] == Admitted(holds, p.id);
  }

  lemma EndsWith(s: State, admitted: seq<real>, id: string, n: nat, last: real) returns (before: seq<real>)
    requires Held(s, admitted, id, n, last) && n > 0
    ensures admitted == before + [last]
  {
    before := admitted[..n - 1];
  }

  lemma LateAfterDenialHasSkew(holds: seq<Event>, p: Principal, model: string, skew: real, last: real, now: real)
    requires 0.0 <= skew && ReadInOrder(holds, p, last) && last <= now
    ensures FixedLimits(LateAfterDenial(holds, p, model, now, now - skew), p)
    ensures SkewAtMost(LateAfterDenial(holds, p, model, now, now - skew), p.id, skew)
  {
    var n, all := |holds|, LateAfterDenial(holds, p, model, now, now - skew);
    assert forall i :: 0 <= i < n ==> all[i] == holds[i];
    assert |all| == n + 3 && all[n] == Enter(p, model, now) && all[n + 1].Exit? &&
      all[n + 2] == Enter(p, model, now - skew);
  }

  /** The last two admissions are in one window, which a limit of one forbids. */
  lemma TwoInAWindow(before: seq<real>, last: real, late: real, length: real)
    requires late - length < last <= late && length > 0.0
    ensures !WindowBounded(before + [last] + [late], 1, length)
  {
    var times := before + [last] + [late];
    assert times[..|before| + 1] == before + [last];
    assert InWindow(before + [last], late, length) >= 1;
    assert InWindow(times, late, length) >= 2;
  }

  lemma LateAfterDenialBreaksTheLimit(holds: seq<Event>, before: seq<real>, p: Principal, model: string,
                                      last: real, skew: real, now: real, length: real)
    returns (events: seq<Event>)
    requires p.requestsPerMinute == 1 && ReadInOrder(holds, p, last) && last + 60.0 == now
    requires Admitted(LateAfterDenial(holds, p, model, now, now - skew), p.id) == before + [last] + [now - skew]
    requires 0.0 <= skew <= 60.0 && length > 0.0 && length > 60.0 - skew
    ensures Overflows(events, p, skew, length)
  {
    events := LateAfterDenial(holds, p, model, now, now - skew);
    LateAfterDenialHasSkew(holds, p, model, skew, last, now);
    TwoInAWindow(before, last, now - skew, length);
  }

  lemma LateAtOne(p: Principal, model: string, skew: real)
    returns (holds: seq<Event>, before: seq<real>, last: real, now: real)
    requires Authorized(p, model) && p.requestsPerMinute == 1 && p.maxConcurrent >= 1
    ensures ReadInOrder(holds, p, last) && last + 60.0 == now
    ensures Admitted(LateAfterDenial(holds, p, model, now, now - skew), p.id) == before + [last] + [now - skew]
  {
    holds, last := AllHeld(p, model, p.maxConcurrent);
    now := last + 60.0;
    LateIsAdmitted(holds, p, model, last, now, now - skew);
    before := EndsWith(Run(holds), Admitted(holds, p.id), p.id, p.maxConcurrent, last);
  }

  lemma LateRunAtOne(p: Principal, model: string, skew: real, length: real) returns (events: seq<Event>)
    requires Authorized(p, model) && p.requestsPerMinute == 1 && p.maxConcurrent >= 1
    requires 0.0 <= skew <= 60.0 && length > 0.0 && length > 60.0 - skew
    ensures Overflows(events, p, skew, length)
  {
    var holds, before, last, now := LateAtOne(p, model, skew);
    events := LateAfterDenialBreaksTheLimit(holds, before, p, model, last, skew, now, length);
  }

  // ---------------------------------------------------------------- the concurrency limit

  function OpenSlots(slots: seq<Slot>, id: string): nat {
    if slots == [] then 0
    else OpenSlots(slots[..|slots| - 1], id) + if slots[|slots| - 1] == Slot(id, true) then 1 else 0
  }

  lemma {:induction false} OpenSlotsAfterClose(slots: seq<Slot>, k: nat, id: string)
    requires k < |slots| && slots[k].open
    ensures OpenSlots(slots[k := Slot(slots[k].id, false)], id) ==
      OpenSlots(slots, id) - if slots[k].id == id then 1 else 0
  {
    var n := |slots| - 1;
    var closed := slots[k := Slot(slots[k].id, false)];
    if k == n {
      assert closed[..n] == slots[..n];
    } else {
      assert closed[..n] == slots[..n][k := Slot(slots[..n][k].id, false)];
      OpenSlotsAfterClose(slots[..n], k, id);
    }
  }

  lemma {:induction false} OpenSlotsAtLeast(slots: seq<Slot>, k: nat)
    requires k < |slots| && slots[k].open
    ensures OpenSlots(slots, slots[k].id) >= 1
  {
    if k < |slots| - 1 {
      OpenSlotsAtLeast(slots[..|slots| - 1], k);
    }
  }

  ghost predicate ActiveIsOpen(s: State, id: string) {
    Active(s.active, id) == OpenSlots(s.slots, id)
  }

  lemma StepKeepsActive(s: State, e: Event, id: string)
    requires ActiveIsOpen(s, id)
    requires e.Exit? && e.slot < |s.slots| ==> ActiveIsOpen(s, s.slots[e.slot].id)
    ensures ActiveIsOpen(Step(s, e), id)
  {
    if e.Exit? && e.slot < |s.slots| && s.slots[e.slot].open {
      OpenSlotsAfterClose(s.slots, e.slot, id);
      OpenSlotsAtLeast(s.slots, e.slot);
    } else if e.Enter? && Authorized(e.p, e.model) && Outcome(s, e.p, e.model, e.now).None? {
      assert (s.slots + [Slot(e.p.id, true)])[..|s.slots|] == s.slots;
    }
  }

  /**
   In every run, in any order of readings, each principal's count
   is the number of its open slots and never exceeds its limit.
   */
  lemma {:induction false} ConcurrencyLimitHolds(events: seq<Event>, p: Principal)
    requires FixedLimits(events, p)
    ensures Active(Run(events).active, p.id) == OpenSlots(Run(events).slots, p.id) <= Max(0, p.maxConcurrent)
  {
    ActiveIsAlwaysOpen(events, p.id);
    if events != [] {
      var front := Front(events);
      assert FixedLimits(front, p);
      ConcurrencyLimitHolds(front, p);
    }
  }

  lemma {:induction false} ActiveIsAlwaysOpen(events: seq<Event>, id: string)
    ensures ActiveIsOpen(Run(events), id)
  {
    if events != [] {
      var s := Run(Front(events));
      var e := Last(events);
      ActiveIsAlwaysOpen(Front(events), id);
      if e.Exit? && e.slot < |s.slots| {
        ActiveIsAlwaysOpen(Front(events), s.slots[e.slot].id);
      }
      StepKeepsActive(s, e, id);
    }
  }

  /** Giving back an open slot never meets the clamp at zero. */
  lemma ExitNeverClamps(events: seq<Event>, k: nat)
    requires k < |Run(events).slots| && Run(events).slots[k].open
    ensures Active(Run(events).active, Run(events).slots[k].id) >= 1
  {
    ActiveIsAlwaysOpen(events, Run(events).slots[k].id);
    OpenSlotsAtLeast(Run(events).slots, k);
  }

  // ---------------------------------------------------------------- the controller

  // ---------------------------------------------------------------- the whole decision

  /** The principal has the scope for inference, or all scopes. */
  ghost predicate HasScope(p: Principal) {
    exists scope <- p.scopes :: scope == "*" || scope == "inference"
  }

  /** The model is one of those the principal is confined to, if it is confined at all. */
  ghost predicate HasModel(p: Principal, model: string) {
    |p.allowedModels| == 0 || exists allowed <- p.allowedModels :: allowed == model
  }

  /**
   With a monotone clock the answer depends on the request and the run's history only: the scope comes first, then the
   model, then the admissions of the last minute, then the slots that are open.
   */
  lemma OutcomeIs(events: seq<Event>, p: Principal, model: string, now: real)
    requires SkewAtMost(events + [Enter(p, model, now)], p.id, 0.0)
    ensures Outcome(Run(events), p, model, now) ==
      if !HasScope(p) then Some(ScopeDenied)
      else if !HasModel(p, model) then Some(ModelDenied)
      else if InWindow(Admitted(events, p.id), now, 60.0) >= p.requestsPerMinute then Some(RateLimited)
      else if OpenSlots(Run(events).slots, p.id) >= p.maxConcurrent then Some(ConcurrencyLimited)
      else None
  {
    if Authorized(p, model) {
      DeniedIffMinuteIsFull(events, p, model, now);
      ActiveIsAlwaysOpen(events, p.id);
    }
  }

  class TeamAdmissionController {
    var active: map<string, int>
    var requests: map<string, seq<real>>
    ghost var slots: seq<Slot>

    ghost function View(): State
      reads this
    {
      State(active, requests, slots)
    }

    constructor ()
      ensures View() == EMPTY
    {
      active, requests, slots := map[], map[], [];
    }

    /** Enter the slot at clock reading `now`, or say why not; a slot entered has the next number. */
    method Enter(p: Principal, model: string, now: real) returns (denied: Option<Denial>)
      modifies this
      ensures View() == Step(old(View()), Event.Enter(p, model, now))
      ensures denied == Outcome(old(View()), p, model, now)
      ensures denied == Some(ScopeDenied) <==> !HasScope(p)
      ensures denied == Some(ModelDenied) <==> HasScope(p) && !HasModel(p, model)
      ensures !HasScope(p) || !HasModel(p, model) ==> View() == old(View())
      ensures denied.Some? ==> active == old(active) && slots == old(slots)
      ensures denied.None? ==> slots == old(slots) + [Slot(p.id, true)]
    {
      if !p.Permits("inference") {
        return Some(ScopeDenied);
      }
      if !p.PermitsModel(model) {
        return Some(ModelDenied);
      }
      var history := History(requests, p.id);
      while history != [] && history[0] <= now - 60.0
        invariant Pruned(history, now) == Pruned(History(old(requests), p.id), now)
        decreases |history|
      {
        history := history[1..];
      }
      requests := requests[p.id := history];
      if |history| >= p.requestsPerMinute {
        return Some(RateLimited);
      }
      if Active(active, p.id) >= p.maxConcurrent {
        return Some(ConcurrencyLimited);
      }
      requests := requests[p.id := history + [now]];
      active := active[p.id := Active(active, p.id) + 1];
      slots := slots + [Slot(p.id, true)];
      denied := None;
    }

    /** Leave slot `k`, which belongs to the principal. */
    method Exit(id: string, ghost k: nat)
      requires k < |slots| && slots[k] == Slot(id, true)
      modifies this
      ensures View() == Step(old(View()), Event.Exit(k))
    {
      active := active[id := Max(0, Active(active, id) - 1)];
      slots := slots[k := Slot(id, false)];
    }
  }
}
