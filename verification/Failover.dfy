/**
 Failover between hosts.  Any number of requests share the pool; each section under
 a lock is one atomic step, so a run is any interleaving of the steps of its requests.
 Proved over every run: reservations count the open attempts, no host is tried twice
 by a request, and the caller sees the rows of one host only.  A call that returns one
 value uses the same counters: it is a request that ranks one candidate at a time, which
 the steps allow because a request may rank any probes at any time, and whose stream has
 no rows.  A choice reads all counts at once; in the code a release, or the reservation of a
 one-value call, takes a host's lock only and may fall between reading the counts and
 reserving, so "least delay" is about the counts as read.  The invariants of the counts do
 not depend on it.  The class at the end runs one request alone, against hosts that may behave in
 any way.
 */
module Failover {
  import opened Wrappers
  import opened Routing

  /** What the pool remembers about a host between requests. */
  datatype Runtime = Runtime(reserved: nat, failures: nat, cooldownUntil: real)

  datatype HostError = HostError(transient: bool, message: string)

  datatype Fabric = Fabric(host: HostId, attempts: nat)

  datatype Row = Row(text: string, done: bool, fabric: Option<Fabric>)

  type Runtimes = map<HostId, Runtime>

  // ---------------------------------------------------------------- bookkeeping of one host

  function Reserved(hosts: Runtimes, h: HostId): Runtimes
    requires h in hosts
  {
    hosts[h := hosts[h].(reserved := hosts[h].reserved + 1)]
  }

  function Released(hosts: Runtimes, h: HostId): Runtimes
    requires h in hosts
  {
    hosts[h := hosts[h].(reserved := Max(0, hosts[h].reserved - 1))]
  }

  function Healthy(hosts: Runtimes, h: HostId): Runtimes
    requires h in hosts
  {
    hosts[h := AfterSuccess(hosts[h])]
  }

  function Failed(hosts: Runtimes, h: HostId, now: real, cooldown: real): Runtimes
    requires h in hosts
  {
    hosts[h := AfterFailure(hosts[h], now, cooldown)]
  }

  function AfterSuccess(host: Runtime): Runtime {
    host.(failures := 0, cooldownUntil := 0.0)
  }

  function AfterFailure(host: Runtime, now: real, cooldown: real): Runtime {
    host.(failures := host.failures + 1, cooldownUntil := now + Backoff(cooldown, host.failures + 1))
  }

  function AsSet(hosts: seq<HostId>): set<HostId> {
    set h | h in hosts
  }

  function Doubled(base: real, times: nat): real {
    if times == 0 then base else 2.0 * Doubled(base, times - 1)
  }

  function Backoff(cooldown: real, failures: nat): real {
    var wait := Doubled(cooldown, Max(0, failures - 1));
    if 60.0 <= wait then 60.0 else wait
  }

  lemma {:induction false} DoubledGrows(base: real, times: nat)
    requires base >= 0.0
    ensures Doubled(base, times + 1) >= Doubled(base, times) >= base
  {
    if times > 0 {
      DoubledGrows(base, times - 1);
    }
  }

  /** The wait never shrinks as failures pile up, doubles until it reaches a minute, and stops there. */
  lemma BackoffDoublesUpToAMinute(cooldown: real, failures: nat)
    requires cooldown >= 0.0 && failures >= 1
    ensures 0.0 <= Backoff(cooldown, failures) <= Backoff(cooldown, failures + 1) <= 60.0
    ensures Backoff(cooldown, 1) == RMin(cooldown, 60.0)
    ensures Backoff(cooldown, failures + 1) == RMin(2.0 * Backoff(cooldown, failures), 60.0)
  {
    DoubledGrows(cooldown, failures - 1);
  }

  // ---------------------------------------------------------------- the state of requests

  /** One host tried by a request, with the rows that host's stream has yielded. */
  datatype Attempt = Attempt(host: HostId, rows: seq<Row>)

  datatype Outcome = Completed | Raised(error: HostError) | NoHealthyHost | Abandoned

  /**
   Where a request is: about to rank the hosts, about to choose one, reading a host's
   stream, about to give its reservation back (then to finish, or to try again), or finished.
   */
  datatype Phase =
    | Ranking
    | Choosing(candidates: seq<Probe>)
    | Streaming
    | Closing(next: Option<Outcome>)
    | Finished(outcome: Outcome)

  datatype Request = Request(attempts: seq<Attempt>, phase: Phase, seen: seq<Row>, lastError: Option<HostError>) {
    /** An attempt is open: its reservation has not been given back. */
    predicate Open() {
      (phase.Streaming? || phase.Closing?) && attempts != []
    }

    function Last(): Attempt
      requires attempts != []
    {
      attempts[|attempts| - 1]
    }
  }

  datatype Pool = Pool(hosts: Runtimes, requests: seq<Request>)

  datatype Event =
    | Arrive
    | Probed(host: HostId, online: bool)
    | Rank(r: nat, probes: seq<Probe>, now: real)
    | Choose(r: nat)
    | Deliver(r: nat, row: Row)
    | End(r: nat)
    | Fail(r: nat, error: HostError, now: real)
    | Abandon(r: nat)
    | GiveBack(r: nat)

  // ---------------------------------------------------------------- the steps of one request

  /** The probes a request may choose from: hosts it has not tried, online, with the model, and not cooling down. */
  function Available(hosts: Runtimes, probes: seq<Probe>, exclude: set<HostId>, now: real): seq<Probe> {
    if probes == [] then []
    else
      var p := probes[0];
      var rest := Available(hosts, probes[1..], exclude, now);
      if Usable(hosts, p, exclude, now) then [p] + rest else rest
  }

  predicate Usable(hosts: Runtimes, p: Probe, exclude: set<HostId>, now: real) {
    p.host in hosts && p.host !in exclude && p.online && p.supportsModel && hosts[p.host].cooldownUntil <= now
  }

  lemma {:induction false} AvailableAreUsable(hosts: Runtimes, probes: seq<Probe>, exclude: set<HostId>, now: real)
    ensures forall p :: p in Available(hosts, probes, exclude, now) <==>
      && p in probes && p.online && p.supportsModel && p.host !in exclude
      && p.host in hosts && hosts[p.host].cooldownUntil <= now
  {
    if probes != [] {
      AvailableAreUsable(hosts, probes[1..], exclude, now);
      assert probes == [probes[0]] + probes[1..];
    }
  }

  /** The order probed is kept. */
  lemma {:induction false} AvailableAppend(hosts: Runtimes, a: seq<Probe>, b: seq<Probe>, exclude: set<HostId>,
                                           now: real)
    ensures Available(hosts, a + b, exclude, now) ==
      Available(hosts, a, exclude, now) + Available(hosts, b, exclude, now)
  {
    if a == [] {
      assert a + b == b;
    } else {
      assert (a + b)[1..] == a[1..] + b;
      AvailableAppend(hosts, a[1..], b, exclude, now);
    }
  }

  predicate Untried(attempts: seq<Attempt>, h: HostId) {
    forall i :: 0 <= i < |attempts| ==> attempts[i].host != h
  }

  function Tried(attempts: seq<Attempt>): (r: set<HostId>)
    ensures forall h :: h !in r <==> Untried(attempts, h)
  {
    set i | 0 <= i < |attempts| :: attempts[i].host
  }

  function Rescored(hosts: Runtimes, probes: seq<Probe>): (r: seq<Contender>)
    requires forall i :: 0 <= i < |probes| ==> probes[i].host in hosts
    ensures |r| == |probes|
    ensures forall i :: 0 <= i < |r| ==> r[i] == Contender(probes[i], hosts[probes[i].host].reserved)
  {
    seq(|probes|, i requires 0 <= i < |probes| => Contender(probes[i], hosts[probes[i].host].reserved))
  }

  predicate Choosable(hosts: Runtimes, candidates: seq<Probe>) {
    candidates != [] && forall i :: 0 <= i < |candidates| ==> candidates[i].host in hosts
  }

  /** The host of least expected delay, given the reservations held now. */
  function Chosen(hosts: Runtimes, probes: seq<Probe>): HostId
    requires Choosable(hosts, probes)
  {
    probes[Pick(Rescored(hosts, probes), |probes|)].host
  }

  ghost predicate NoneIsQuicker(hosts: Runtimes, probes: seq<Probe>, i: nat)
    requires Choosable(hosts, probes) && i < |probes|
  {
    forall j :: 0 <= j < |probes| ==>
      Score(probes[i], hosts[probes[i].host].reserved) <= Score(probes[j], hosts[probes[j].host].reserved)
  }

  /** No candidate has a smaller expected delay than the host chosen. */
  lemma ChosenHasLeastDelay(hosts: Runtimes, probes: seq<Probe>)
    requires Choosable(hosts, probes)
    ensures exists i :: 0 <= i < |probes| && probes[i].host == Chosen(hosts, probes) && NoneIsQuicker(hosts, probes, i)
  {
    var cs := Rescored(hosts, probes);
    var i := Pick(cs, |cs|);
    PickIsBest(cs, |cs|);
    forall j | 0 <= j < |probes|
      ensures Score(probes[i], hosts[probes[i].host].reserved) <= Score(probes[j], hosts[probes[j].host].reserved)
    {
      assert cs[i].Delay() <= cs[j].Delay();
    }
    assert NoneIsQuicker(hosts, probes, i);
  }

  /** A host is never chosen when another candidate is no worse in any respect and better in one. */
  lemma WorseHostIsNotChosen(hosts: Runtimes, probes: seq<Probe>, i: nat, j: nat)
    requires Choosable(hosts, probes) && i < |probes| && j < |probes|
    requires forall k, l :: 0 <= k < l < |probes| ==> probes[k].host != probes[l].host
    requires NoWorse(probes[i], hosts[probes[i].host].reserved, probes[j], hosts[probes[j].host].reserved)
    requires Better(probes[i], hosts[probes[i].host].reserved, probes[j], hosts[probes[j].host].reserved)
    ensures Chosen(hosts, probes) != probes[j].host
  {
    WorseHostIsNotPicked(Rescored(hosts, probes), i, j);
  }

  ghost predicate Ready(hosts: Runtimes, p: Probe, exclude: seq<HostId>, now: real) {
    p.online && p.supportsModel && p.host !in exclude && p.host in hosts && hosts[p.host].cooldownUntil <= now
  }

  /** No probed host that is ready has a smaller expected delay, with the reservations held now. */
  ghost predicate IsQuickest(hosts: Runtimes, p: Probe, probes: seq<Probe>, exclude: seq<HostId>, now: real)
    requires p.host in hosts
  {
    forall other <- probes :: Ready(hosts, other, exclude, now) ==>
      Score(p, hosts[p.host].reserved) <= Score(other, hosts[other.host].reserved)
  }

  /** The host of a probe that is ready and quickest, or none when none is ready. */
  ghost predicate IsBestChoice(hosts: Runtimes, probes: seq<Probe>, exclude: seq<HostId>, now: real,
                               selected: Option<HostId>)
  {
    if selected.None? then forall p <- probes :: !Ready(hosts, p, exclude, now)
    else
      exists p <- probes ::
        p.host == selected.value && Ready(hosts, p, exclude, now) && IsQuickest(hosts, p, probes, exclude, now)
  }

  lemma SelectedIsBest(hosts: Runtimes, probes: seq<Probe>, exclude: seq<HostId>, now: real)
    ensures IsBestChoice(hosts, probes, exclude, now, Selected(hosts, probes, AsSet(exclude), now))
  {
    var available := Available(hosts, probes, AsSet(exclude), now);
    AvailableAreUsable(hosts, probes, AsSet(exclude), now);
    assert forall p :: p in available <==> p in probes && Ready(hosts, p, exclude, now);
    if available != [] {
      var i := LeastOf(hosts, available);
      forall other <- probes | Ready(hosts, other, exclude, now)
        ensures Score(available[i], hosts[available[i].host].reserved) <= Score(other, hosts[other.host].reserved)
      {
        var j :| 0 <= j < |available| && available[j] == other;
      }
      assert IsQuickest(hosts, available[i], probes, exclude, now);
    }
  }

  lemma LeastOf(hosts: Runtimes, probes: seq<Probe>) returns (i: nat)
    requires Choosable(hosts, probes)
    ensures i < |probes| && probes[i].host == Chosen(hosts, probes) && NoneIsQuicker(hosts, probes, i)
  {
    ChosenHasLeastDelay(hosts, probes);
    i :| 0 <= i < |probes| && probes[i].host == Chosen(hosts, probes) && NoneIsQuicker(hosts, probes, i);
  }

  /** The choice made in one go: rank, then choose. */
  function Selected(hosts: Runtimes, probes: seq<Probe>, exclude: set<HostId>, now: real): Option<HostId> {
    var available := Available(hosts, probes, exclude, now);
    if available == [] then None
    else
      AvailableAreUsable(hosts, probes, exclude, now);
      Some(Chosen(hosts, available))
  }

  /** A final row also says which host served it and how many were tried. */
  function Annotate(row: Row, host: HostId, attempts: nat): Row {
    if row.done then row.(fabric := Some(Fabric(host, attempts))) else row
  }

  function Annotated(rows: seq<Row>, host: HostId, attempts: nat): (r: seq<Row>) {
    seq(|rows|, i requires 0 <= i < |rows| => Annotate(rows[i], host, attempts))
  }

  function AfterRank(q: Request, available: seq<Probe>): Request {
    if available != [] then q.(phase := Choosing(available))
    else q.(phase := Finished(if q.lastError.Some? then Raised(q.lastError.value) else NoHealthyHost))
  }

  function AfterChoose(q: Request, h: HostId): Request {
    q.(attempts := q.attempts + [Attempt(h, [])], phase := Streaming)
  }

  function AfterDeliver(q: Request, row: Row): Request
    requires q.attempts != []
  {
    var last := q.Last();
    q.(attempts := q.attempts[|q.attempts| - 1 := Attempt(last.host, last.rows + [row])],
       seen := q.seen + [Annotate(row, last.host, |q.attempts|)])
  }

  /** A failure before any output may be retried elsewhere, if it is transient; any other one is raised. */
  function AfterFail(q: Request, error: HostError): Request
    requires q.attempts != []
  {
    var final := q.Last().rows != [] || !error.transient;
    q.(phase := Closing(if final then Some(Raised(error)) else None), lastError := Some(error))
  }

  function AfterGiveBack(q: Request): Request
    requires q.phase.Closing?
  {
    q.(phase := if q.phase.next.Some? then Finished(q.phase.next.value) else Ranking)
  }

  function Step(s: Pool, e: Event, cooldown: real): Pool {
    match e
    case Arrive =>
      s.(requests := s.requests + [Request([], Ranking, [], None)])
    case Probed(h, online) =>
      if h in s.hosts && online then s.(hosts := Healthy(s.hosts, h)) else s
    case _ =>
      if e.r < |s.requests| then RequestStep(s, e, s.requests[e.r], cooldown) else s
  }

  /** A step of request `q`, which is number `e.r`; a step its phase does not allow changes nothing. */
  function RequestStep(s: Pool, e: Event, q: Request, cooldown: real): Pool
    requires !e.Arrive? && !e.Probed? && e.r < |s.requests|
  {
    if e.Rank? && q.phase.Ranking? then
      s.(requests := s.requests[e.r := AfterRank(q, Available(s.hosts, e.probes, Tried(q.attempts), e.now))])
    else if e.Choose? && q.phase.Choosing? && Choosable(s.hosts, q.phase.candidates) then
      var h := Chosen(s.hosts, q.phase.candidates);
      Pool(Reserved(s.hosts, h), s.requests[e.r := AfterChoose(q, h)])
    else if q.Open() && q.Last().host in s.hosts then
      OpenStep(s, e, q, q.Last().host, cooldown)
    else s
  }

  /** A step of a request with an open attempt at host `h`. */
  function OpenStep(s: Pool, e: Event, q: Request, h: HostId, cooldown: real): Pool
    requires !e.Arrive? && !e.Probed? && e.r < |s.requests| && q.attempts != [] && h in s.hosts
  {
    if e.Deliver? && q.phase.Streaming? then
      Pool(if q.Last().rows == [] then Healthy(s.hosts, h) else s.hosts, s.requests[e.r := AfterDeliver(q, e.row)])
    else if e.End? && q.phase.Streaming? then
      Pool(if q.Last().rows == [] then Healthy(s.hosts, h) else s.hosts,
           s.requests[e.r := q.(phase := Closing(Some(Completed)))])
    else if e.Fail? && q.phase.Streaming? then
      Pool(Failed(s.hosts, h, e.now, cooldown), s.requests[e.r := AfterFail(q, e.error)])
    else if e.Abandon? && q.phase.Streaming? then
      s.(requests := s.requests[e.r := q.(phase := Closing(Some(Abandoned)))])
    else if e.GiveBack? && q.phase.Closing? then
      Pool(Released(s.hosts, h), s.requests[e.r := AfterGiveBack(q)])
    else s
  }

  function Run(s: Pool, events: seq<Event>, cooldown: real): Pool {
    if events == [] then s
    else Step(Run(s, events[..|events| - 1], cooldown), events[|events| - 1], cooldown)
  }

  // ---------------------------------------------------------------- the invariant of one request

  /** No host is tried twice, and every host tried belongs to the pool. */
  ghost predicate TriedOnce(ids: set<HostId>, attempts: seq<Attempt>) {
    && (forall i, j :: 0 <= i < j < |attempts| ==> attempts[i].host != attempts[j].host)
    && (forall i :: 0 <= i < |attempts| ==> attempts[i].host in ids)
  }

  /** Hosts given up for another contributed no row, and the caller saw exactly what the last one yielded. */
  ghost predicate OneStream(q: Request) {
    && (forall i :: 0 <= i < |q.attempts| - 1 ==> q.attempts[i].rows == [])
    && q.seen == if q.attempts == [] then [] else Annotated(q.Last().rows, q.Last().host, |q.attempts|)
  }

  /**
   A request looks for another host only when it has shown nothing;
   it knows an error exactly when it has tried a host.
   */
  ghost predicate RetriesOnlySilently(q: Request) {
    var looking := q.phase.Ranking? || q.phase.Choosing? || q.phase == Closing(None);
    && (looking ==> q.seen == [])
    && (looking ==> (q.lastError.Some? <==> q.attempts != []))
    && (q.phase == Finished(NoHealthyHost) ==> q.attempts == [])
    && q.phase != Closing(Some(NoHealthyHost))
    && (q.phase.Streaming? || q.phase.Closing? ==> q.attempts != [])
  }

  ghost predicate CandidatesAreNew(ids: set<HostId>, q: Request) {
    q.phase.Choosing? ==>
      q.phase.candidates != [] &&
      forall i :: 0 <= i < |q.phase.candidates| ==>
        q.phase.candidates[i].host in ids && Untried(q.attempts, q.phase.candidates[i].host)
  }

  ghost predicate RequestInv(ids: set<HostId>, q: Request) {
    TriedOnce(ids, q.attempts) && OneStream(q) && RetriesOnlySilently(q) && CandidatesAreNew(ids, q)
  }

  lemma GiveBackKeeps(ids: set<HostId>, q: Request)
    requires RequestInv(ids, q) && q.phase.Closing?
    ensures RequestInv(ids, AfterGiveBack(q))
  {
  }

  // ---------------------------------------------------------------- the invariant of the pool

  function Holds(q: Request, h: HostId): nat {
    if q.Open() && q.Last().host == h then 1 else 0
  }

  function Holding(requests: seq<Request>, h: HostId): nat {
    if requests == [] then 0
    else Holding(requests[..|requests| - 1], h) + Holds(requests[|requests| - 1], h)
  }

  lemma {:induction false} HoldingAfter(requests: seq<Request>, r: nat, q: Request, h: HostId)
    requires r < |requests|
    ensures Holding(requests[r := q], h) == Holding(requests, h) - Holds(requests[r], h) + Holds(q, h)
  {
    var n := |requests| - 1;
    if r == n {
      assert requests[r := q][..n] == requests[..n];
    } else {
      assert requests[r := q][..n] == requests[..n][r := q];
      HoldingAfter(requests[..n], r, q, h);
    }
  }

  lemma {:induction false} HoldingAtLeast(requests: seq<Request>, r: nat, h: HostId)
    requires r < |requests|
    ensures Holding(requests, h) >= Holds(requests[r], h)
  {
    if r < |requests| - 1 {
      HoldingAtLeast(requests[..|requests| - 1], r, h);
    }
  }

  /** Every host's reservation count is the number of requests with an open attempt there. */
  ghost predicate ReservationsAreOpenAttempts(s: Pool) {
    forall h :: h in s.hosts ==> s.hosts[h].reserved == Holding(s.requests, h)
  }

  ghost predicate RequestsOk(s: Pool) {
    forall r :: 0 <= r < |s.requests| ==> RequestInv(s.hosts.Keys, s.requests[r])
  }

  ghost predicate Inv(s: Pool) {
    RequestsOk(s) && ReservationsAreOpenAttempts(s)
  }

  /** A step that replaces request `r` and moves the reservations of `h` by as much keeps the invariant. */
  lemma ReplaceKeeps(s: Pool, t: Pool, r: nat, q: Request, h: HostId, change: int)
    requires Inv(s) && r < |s.requests| && t.requests == s.requests[r := q]
    requires t.hosts.Keys == s.hosts.Keys && RequestInv(s.hosts.Keys, q)
    requires forall k :: k in s.hosts ==> t.hosts[k].reserved == s.hosts[k].reserved + if k == h then change else 0
    requires forall k :: k in s.hosts ==> Holds(q, k) == Holds(s.requests[r], k) + if k == h then change else 0
    ensures Inv(t)
  {
    forall k | k in t.hosts
      ensures t.hosts[k].reserved == Holding(t.requests, k)
    {
      HoldingAfter(s.requests, r, q, k);
    }
    forall i | 0 <= i < |t.requests|
      ensures RequestInv(t.hosts.Keys, t.requests[i])
    {
    }
  }

  lemma RankStepKeeps(s: Pool, e: Event, cooldown: real)
    requires Inv(s) && e.Rank? && e.r < |s.requests| && s.requests[e.r].phase.Ranking?
    ensures Inv(Step(s, e, cooldown))
  {
    var q := s.requests[e.r];
    var available := Available(s.hosts, e.probes, Tried(q.attempts), e.now);
    AvailableAreUsable(s.hosts, e.probes, Tried(q.attempts), e.now);
    ReplaceKeeps(s, Step(s, e, cooldown), e.r, AfterRank(q, available), "", 0);
  }

  lemma ChooseStepKeeps(s: Pool, e: Event, cooldown: real)
    requires Inv(s) && e.Choose? && e.r < |s.requests| && s.requests[e.r].phase.Choosing?
    ensures Inv(Step(s, e, cooldown))
  {
    var q := s.requests[e.r];
    var h := Chosen(s.hosts, q.phase.candidates);
    assert q.phase.candidates[Pick(Rescored(s.hosts, q.phase.candidates), |q.phase.candidates|)].host == h;
    assert AfterChoose(q, h).Last().host == h;
    ReplaceKeeps(s, Step(s, e, cooldown), e.r, AfterChoose(q, h), h, 1);
  }

  lemma DeliverStepKeeps(s: Pool, e: Event, cooldown: real)
    requires Inv(s) && e.Deliver? && e.r < |s.requests| && s.requests[e.r].phase.Streaming?
    ensures Inv(Step(s, e, cooldown))
  {
    var q := s.requests[e.r];
    assert AfterDeliver(q, e.row).Last().host == q.Last().host;
    ReplaceKeeps(s, Step(s, e, cooldown), e.r, AfterDeliver(q, e.row), "", 0);
  }

  lemma CloseStepKeeps(s: Pool, e: Event, cooldown: real)
    requires Inv(s) && (e.End? || e.Abandon?) && e.r < |s.requests| && s.requests[e.r].phase.Streaming?
    ensures Inv(Step(s, e, cooldown))
  {
    var q := s.requests[e.r];
    var outcome := if e.End? then Completed else Abandoned;
    ReplaceKeeps(s, Step(s, e, cooldown), e.r, q.(phase := Closing(Some(outcome))), "", 0);
  }

  lemma FailStepKeeps(s: Pool, e: Event, cooldown: real)
    requires Inv(s) && e.Fail? && e.r < |s.requests| && s.requests[e.r].phase.Streaming?
    ensures Inv(Step(s, e, cooldown))
  {
    var q := s.requests[e.r];
    ReplaceKeeps(s, Step(s, e, cooldown), e.r, AfterFail(q, e.error), "", 0);
  }

  lemma GiveBackStepKeeps(s: Pool, e: Event, cooldown: real)
    requires Inv(s) && e.GiveBack? && e.r < |s.requests| && s.requests[e.r].phase.Closing?
    ensures Inv(Step(s, e, cooldown))
  {
    var q := s.requests[e.r];
    GiveBackKeeps(s.hosts.Keys, q);
    OpenMeansReserved(s, e.r);
    ReplaceKeeps(s, Step(s, e, cooldown), e.r, AfterGiveBack(q), q.Last().host, -1);
  }

  /** A host with an open attempt has a reservation, so giving one back never meets the clamp at zero. */
  lemma OpenMeansReserved(s: Pool, r: nat)
    requires Inv(s) && r < |s.requests| && s.requests[r].Open()
    ensures s.requests[r].Last().host in s.hosts
    ensures s.hosts[s.requests[r].Last().host].reserved >= 1
  {
    var q := s.requests[r];
    assert RequestInv(s.hosts.Keys, q);
    HoldingAtLeast(s.requests, r, q.Last().host);
  }

  lemma ArriveKeeps(s: Pool, cooldown: real)
    requires Inv(s)
    ensures Inv(Step(s, Arrive, cooldown))
  {
    var t := Step(s, Arrive, cooldown);
    assert t.requests[..|s.requests|] == s.requests;
    forall i | 0 <= i < |t.requests|
      ensures RequestInv(t.hosts.Keys, t.requests[i])
    {
    }
  }

  lemma ProbedKeeps(s: Pool, e: Event, cooldown: real)
    requires Inv(s) && e.Probed?
    ensures Inv(Step(s, e, cooldown))
  {
    var t := Step(s, e, cooldown);
    assert t.hosts.Keys == s.hosts.Keys;
    assert t.requests == s.requests;
  }

  /** A probe that finds the host online ends its cooldown; a probe changes nothing else. */
  lemma ProbeEndsCooldown(s: Pool, h: HostId, online: bool, cooldown: real)
    ensures var t := Step(s, Probed(h, online), cooldown);
      && t.requests == s.requests
      && (online && h in s.hosts ==> t.hosts == s.hosts[h := Runtime(s.hosts[h].reserved, 0, 0.0)])
      && (!online || h !in s.hosts ==> t == s)
  {
  }

  /** Only the first row of a stream touches a host's record: what other requests met there since then stays. */
  lemma LaterRowsLeaveRecords(s: Pool, r: nat, row: Row, cooldown: real)
    requires r < |s.requests| && s.requests[r].attempts != [] && s.requests[r].Last().rows != []
    ensures Step(s, Deliver(r, row), cooldown).hosts == s.hosts
  {
  }

  lemma StepKeeps(s: Pool, e: Event, cooldown: real)
    requires Inv(s)
    ensures Inv(Step(s, e, cooldown))
  {
    if e.Arrive? {
      ArriveKeeps(s, cooldown);
    } else if e.Probed? {
      ProbedKeeps(s, e, cooldown);
    } else if e.r < |s.requests| {
      var q := s.requests[e.r];
      if e.Rank? && q.phase.Ranking? {
        RankStepKeeps(s, e, cooldown);
      } else if e.Choose? && q.phase.Choosing? {
        ChooseStepKeeps(s, e, cooldown);
      } else if e.Deliver? && q.phase.Streaming? {
        DeliverStepKeeps(s, e, cooldown);
      } else if (e.End? || e.Abandon?) && q.phase.Streaming? {
        CloseStepKeeps(s, e, cooldown);
      } else if e.Fail? && q.phase.Streaming? {
        FailStepKeeps(s, e, cooldown);
      } else if e.GiveBack? && q.phase.Closing? {
        GiveBackStepKeeps(s, e, cooldown);
      } else {
        assert Step(s, e, cooldown) == s;
      }
    }
  }

  /** In every run, whatever the interleaving, the invariant holds at every point. */
  lemma {:induction false} RunKeeps(s: Pool, events: seq<Event>, cooldown: real)
    requires Inv(s)
    ensures Inv(Run(s, events, cooldown))
  {
    if events != [] {
      RunKeeps(s, events[..|events| - 1], cooldown);
      StepKeeps(Run(s, events[..|events| - 1], cooldown), events[|events| - 1], cooldown);
    }
  }

  // ---------------------------------------------------------------- what every run guarantees

  ghost predicate Idle(hosts: Runtimes) {
    forall h :: h in hosts ==> hosts[h].reserved == 0
  }

  lemma {:induction false} TriedOnceIsBounded(ids: set<HostId>, attempts: seq<Attempt>)
    requires TriedOnce(ids, attempts)
    ensures |attempts| <= |ids|
  {
    if attempts != [] {
      var n := |attempts| - 1;
      TriedOnceIsBounded(ids - {attempts[n].host}, attempts[..n]);
    }
  }

  /** The rows are shown unchanged, except that a final row names its host and how many hosts were tried. */
  ghost predicate ShownFrom(host: HostId, attempts: nat, rows: seq<Row>, shown: seq<Row>) {
    && |shown| == |rows|
    && forall i :: 0 <= i < |rows| ==>
         && shown[i].text == rows[i].text && shown[i].done == rows[i].done
         && shown[i].fabric == if rows[i].done then Some(Fabric(host, attempts)) else rows[i].fabric
  }

  /**
   Failover never replays: a caller's rows are those of the last host tried, in order and with the
   route added to final rows; every host given up before it had yielded nothing, and none is tried twice.
   */
  lemma CallerSeesOneHost(hosts: Runtimes, events: seq<Event>, cooldown: real, r: nat)
    requires Idle(hosts) && r < |Run(Pool(hosts, []), events, cooldown).requests|
    ensures var q := Run(Pool(hosts, []), events, cooldown).requests[r];
      && TriedOnce(hosts.Keys, q.attempts)
      && |q.attempts| <= |hosts.Keys|
      && OneStream(q)
      && (q.attempts == [] ==> q.seen == [])
      && (q.attempts != [] ==> ShownFrom(q.Last().host, |q.attempts|, q.Last().rows, q.seen))
      && (q.phase == Finished(NoHealthyHost) ==> q.attempts == [])
  {
    RunKeeps(Pool(hosts, []), events, cooldown);
    RunKeepsHosts(Pool(hosts, []), events, cooldown);
    var q := Run(Pool(hosts, []), events, cooldown).requests[r];
    assert RequestInv(hosts.Keys, q);
    TriedOnceIsBounded(hosts.Keys, q.attempts);
  }

  lemma {:induction false} RunKeepsHosts(s: Pool, events: seq<Event>, cooldown: real)
    ensures Run(s, events, cooldown).hosts.Keys == s.hosts.Keys
  {
    if events != [] {
      RunKeepsHosts(s, events[..|events| - 1], cooldown);
      StepKeepsHosts(Run(s, events[..|events| - 1], cooldown), events[|events| - 1], cooldown);
    }
  }

  lemma StepKeepsHosts(s: Pool, e: Event, cooldown: real)
    ensures Step(s, e, cooldown).hosts.Keys == s.hosts.Keys
  {
  }

  /** Every reservation is an open attempt: once all requests are finished or looking, none is left. */
  lemma ReservationsAreReturned(hosts: Runtimes, events: seq<Event>, cooldown: real)
    requires Idle(hosts)
    requires forall r :: 0 <= r < |Run(Pool(hosts, []), events, cooldown).requests| ==>
      !Run(Pool(hosts, []), events, cooldown).requests[r].Open()
    ensures Idle(Run(Pool(hosts, []), events, cooldown).hosts)
  {
    RunKeeps(Pool(hosts, []), events, cooldown);
    var s := Run(Pool(hosts, []), events, cooldown);
    forall h | h in s.hosts
      ensures s.hosts[h].reserved == 0
    {
      NoneHeld(s.requests, h);
    }
  }

  lemma {:induction false} NoneHeld(requests: seq<Request>, h: HostId)
    requires forall r :: 0 <= r < |requests| ==> !requests[r].Open()
    ensures Holding(requests, h) == 0
  {
    if requests != [] {
      NoneHeld(requests[..|requests| - 1], h);
    }
  }

  /**
   `later` continues `q`: hosts tried stay tried, rows shown stay shown; once a row is shown
   the host is settled, and once finished nothing changes.
   */
  ghost predicate Continues(q: Request, later: Request) {
    && |q.attempts| <= |later.attempts|
    && (forall i :: 0 <= i < |q.attempts| ==> later.attempts[i].host == q.attempts[i].host)
    && q.seen <= later.seen
    && (q.seen != [] ==> |later.attempts| == |q.attempts|)
    && (q.phase.Finished? ==> later == q)
  }

  ghost predicate AllContinue(s: Pool, t: Pool) {
    |s.requests| <= |t.requests| && forall r :: 0 <= r < |s.requests| ==> Continues(s.requests[r], t.requests[r])
  }

  lemma StepContinues(s: Pool, e: Event, cooldown: real)
    requires Inv(s)
    ensures AllContinue(s, Step(s, e, cooldown))
  {
    if !e.Arrive? && !e.Probed? && e.r < |s.requests| {
      var q := s.requests[e.r];
      assert RequestInv(s.hosts.Keys, q);
      if e.Rank? || e.Choose? {
        LookingContinues(s, e, q, cooldown);
      } else if q.Open() {
        OpenContinues(s, e, q, q.Last().host, cooldown);
      }
    }
  }

  lemma LookingContinues(s: Pool, e: Event, q: Request, cooldown: real)
    requires RequestInv(s.hosts.Keys, q) && (e.Rank? || e.Choose?) && e.r < |s.requests| && s.requests[e.r] == q
    ensures AllContinue(s, RequestStep(s, e, q, cooldown))
  {
    var t := RequestStep(s, e, q, cooldown);
    if t != s {
      assert t.requests == s.requests[e.r := t.requests[e.r]];
      assert Continues(q, t.requests[e.r]);
    }
  }

  lemma OpenContinues(s: Pool, e: Event, q: Request, h: HostId, cooldown: real)
    requires q.Open() && q.Last().host == h && h in s.hosts && !e.Arrive? && !e.Probed?
    requires e.r < |s.requests| && s.requests[e.r] == q
    ensures AllContinue(s, OpenStep(s, e, q, h, cooldown))
  {
    var t := OpenStep(s, e, q, h, cooldown);
    if t != s {
      assert t.requests == s.requests[e.r := t.requests[e.r]];
      assert Continues(q, t.requests[e.r]);
    }
  }

  /** Once a caller has seen a row, no later step of any run moves its request to another host or takes a row back. */
  lemma {:induction false} OutputSettlesTheHost(s: Pool, events: seq<Event>, cooldown: real)
    requires Inv(s)
    ensures AllContinue(s, Run(s, events, cooldown))
  {
    if events != [] {
      var before := Run(s, events[..|events| - 1], cooldown);
      OutputSettlesTheHost(s, events[..|events| - 1], cooldown);
      RunKeeps(s, events[..|events| - 1], cooldown);
      StepContinues(before, events[|events| - 1], cooldown);
      ContinueFurther(s, before, Step(before, events[|events| - 1], cooldown));
    }
  }

  lemma ContinueFurther(s: Pool, t: Pool, u: Pool)
    requires AllContinue(s, t) && AllContinue(t, u)
    ensures AllContinue(s, u)
  {
    forall r | 0 <= r < |s.requests|
      ensures Continues(s.requests[r], u.requests[r])
    {
      assert Continues(s.requests[r], t.requests[r]) && Continues(t.requests[r], u.requests[r]);
    }
  }

  // ---------------------------------------------------------------- one request, alone

  /** A stream ends by itself, with an error, or because the caller closes it after a row. */
  datatype Ending = Ended | Broken(error: HostError) | Closed

  /** What becomes of one host's stream: the rows delivered, and how it ends. */
  datatype Source = Source(rows: seq<Row>, ending: Ending)

  /**
   What a request meets on its next try: the probes, the time they are ranked, the host's stream, the time it ends.
   */
  datatype Turn = Turn(probes: seq<Probe>, rankedAt: real, source: Source, endedAt: real)

  /** What one attempt leaves of a host's record. */
  function AfterAttempt(host: Runtime, turn: Turn, cooldown: real): Runtime {
    var seen := if turn.source.rows != [] || turn.source.ending.Ended? then AfterSuccess(host) else host;
    if turn.source.ending.Broken? then AfterFailure(seen, turn.endedAt, cooldown) else seen
  }

  /**
   A row, or an end without one, clears the host's failures; an error counts one more and starts a cooldown; a stream
   closed before its first row leaves the record alone.
   */
  lemma AttemptIsRecorded(host: Runtime, turn: Turn, cooldown: real)
    ensures var (rows, ending, after) := (turn.source.rows, turn.source.ending, AfterAttempt(host, turn, cooldown));
      && after.reserved == host.reserved
      && (rows == [] && ending == Closed ==> after == host)
      && (ending == Ended || (rows != [] && ending == Closed) ==> after.failures == 0 && after.cooldownUntil == 0.0)
      && (ending.Broken? ==>
            && after.failures == (if rows == [] then host.failures + 1 else 1)
            && after.cooldownUntil == turn.endedAt + Backoff(cooldown, after.failures))
  {
  }

  /** The stream was tried in vain, and another host may be tried. */
  ghost predicate Retried(source: Source) {
    source.rows == [] && source.ending.Broken? && source.ending.error.transient
  }

  ghost predicate AllRetried(turns: nat -> Turn, n: int) {
    forall k :: 0 <= k < n ==> Retried(turns(k).source)
  }

  /** The host tried next, if any is left. */
  function Next(hosts: Runtimes, turn: Turn, attempted: seq<HostId>): Option<HostId> {
    Selected(hosts, turn.probes, AsSet(attempted), turn.rankedAt)
  }

  ghost predicate Distinct(attempted: seq<HostId>) {
    forall i, j :: 0 <= i < j < |attempted| ==> attempted[i] != attempted[j]
  }

  ghost predicate Untouched(before: Runtimes, after: Runtimes, attempted: seq<HostId>) {
    after.Keys == before.Keys && forall h :: h in before && h !in attempted ==> after[h] == before[h]
  }

  /** Each host's record shows its attempt, and nothing else. */
  ghost predicate Recorded(before: Runtimes, after: Runtimes, attempted: seq<HostId>, turns: nat -> Turn,
                           cooldown: real)
    requires after.Keys == before.Keys
  {
    forall k :: 0 <= k < |attempted| ==>
      attempted[k] in before && after[attempted[k]] == AfterAttempt(before[attempted[k]], turns(k), cooldown)
  }

  /** The hosts tried are distinct, their records show the attempts, and all others are untouched. */
  ghost predicate Served(before: Runtimes, after: Runtimes, attempted: seq<HostId>, turns: nat -> Turn,
                         cooldown: real)
  {
    && Distinct(attempted)
    && Untouched(before, after, attempted)
    && Recorded(before, after, attempted, turns, cooldown)
  }

  /** What the caller is told after the attempts: the last host's rows and how its stream ended. */
  ghost predicate Reported(attempted: seq<HostId>, turns: nat -> Turn, seen: seq<Row>, outcome: Outcome) {
    if attempted == [] then seen == [] && outcome == NoHealthyHost
    else
      var last := turns(|attempted| - 1).source;
      seen == Annotated(last.rows, attempted[|attempted| - 1], |attempted|) && outcome == OutcomeOf(last.ending)
  }

  function OutcomeOf(ending: Ending): Outcome {
    match ending
    case Ended => Completed
    case Broken(error) => Raised(error)
    case Closed => Abandoned
  }

  /** All attempts so far failed in silence and may be retried. */
  ghost predicate Underway(before: Runtimes, after: Runtimes, attempted: seq<HostId>, turns: nat -> Turn,
                           cooldown: real, seen: seq<Row>, outcome: Outcome)
  {
    && Served(before, after, attempted, turns, cooldown)
    && AllRetried(turns, |attempted|) && Reported(attempted, turns, seen, outcome)
  }

  lemma StillUnderway(before: Runtimes, after: Runtimes, attempted: seq<HostId>, turns: nat -> Turn, cooldown: real,
                      seen: seq<Row>, outcome: Outcome)
    requires attempted != [] && Served(before, after, attempted, turns, cooldown) &&
      Reported(attempted, turns, seen, outcome)
    requires AllRetried(turns, |attempted| - 1) && Retried(turns(|attempted| - 1).source)
    ensures Underway(before, after, attempted, turns, cooldown, seen, outcome)
  {
  }

  lemma NothingTried(hosts: Runtimes, turns: nat -> Turn, cooldown: real)
    ensures Underway(hosts, hosts, [], turns, cooldown, [], NoHealthyHost)
  {
  }

  // ---------------------------------------------------------------- the loop is a run

  /** The pool as one request alone has left it: it has tried these hosts in vain and is about to rank again. */
  ghost predicate Looking(s: Pool, hosts: Runtimes, attempted: seq<HostId>, turns: nat -> Turn) {
    && s.hosts == hosts && |s.requests| == 1
    && s.requests[0] == Request(Attempts(attempted, turns), Ranking, [], LastError(attempted, turns))
  }

  ghost function Attempts(attempted: seq<HostId>, turns: nat -> Turn): (r: seq<Attempt>)
    ensures |r| == |attempted|
  {
    seq(|attempted|, k requires 0 <= k < |attempted| => Attempt(attempted[k], turns(k).source.rows))
  }

  ghost function LastError(attempted: seq<HostId>, turns: nat -> Turn): Option<HostError> {
    if attempted != [] && turns(|attempted| - 1).source.ending.Broken?
    then Some(turns(|attempted| - 1).source.ending.error)
    else None
  }

  lemma {:induction false} RunTwice(s: Pool, a: seq<Event>, b: seq<Event>, cooldown: real)
    ensures Run(s, a + b, cooldown) == Run(Run(s, a, cooldown), b, cooldown)
  {
    if b == [] {
      assert a + b == a;
    } else {
      assert (a + b)[..|a + b| - 1] == a + b[..|b| - 1];
      RunTwice(s, a, b[..|b| - 1], cooldown);
    }
  }

  lemma RunOne(s: Pool, e: Event, cooldown: real)
    ensures Run(s, [e], cooldown) == Step(s, e, cooldown)
  {
    assert [e][..0] == [];
  }

  /** A host's rows, delivered one by one. */
  lemma {:induction false} DeliverAll(hosts: Runtimes, q: Request, h: HostId, rows: seq<Row>, cooldown: real)
    returns (es: seq<Event>)
    requires q.phase.Streaming? && q.attempts != [] && q.Last() == Attempt(h, []) && q.seen == [] && h in hosts
    ensures Run(Pool(hosts, [q]), es, cooldown) ==
      Pool(if rows == [] then hosts else Healthy(hosts, h), [WithRows(q, h, rows)])
  {
    if rows == [] {
      es := [];
      assert q.attempts[|q.attempts| - 1 := Attempt(h, [])] == q.attempts;
      assert WithRows(q, h, []) == q;
    } else {
      var n := |rows| - 1;
      var before := DeliverAll(hosts, q, h, rows[..n], cooldown);
      var mid := Pool(if rows[..n] == [] then hosts else Healthy(hosts, h), [WithRows(q, h, rows[..n])]);
      var e := Deliver(0, rows[n]);
      es := before + [e];
      RunTwice(Pool(hosts, [q]), before, [e], cooldown);
      RunOne(mid, e, cooldown);
      OneMoreRow(q, h, rows);
      assert mid.requests[0 := WithRows(q, h, rows)] == [WithRows(q, h, rows)];
    }
  }

  ghost function WithRows(q: Request, h: HostId, rows: seq<Row>): (r: Request)
    requires q.attempts != []
    ensures |r.attempts| == |q.attempts| && r.Last() == Attempt(h, rows)
  {
    q.(attempts := q.attempts[|q.attempts| - 1 := Attempt(h, rows)], seen := Annotated(rows, h, |q.attempts|))
  }

  lemma OneMoreRow(q: Request, h: HostId, rows: seq<Row>)
    requires q.attempts != [] && rows != []
    ensures AfterDeliver(WithRows(q, h, rows[..|rows| - 1]), rows[|rows| - 1]) == WithRows(q, h, rows)
  {
    var n := |rows| - 1;
    assert rows == rows[..n] + [rows[n]];
    assert Annotated(rows, h, |q.attempts|) == Annotated(rows[..n], h, |q.attempts|) +
      [Annotate(rows[n], h, |q.attempts|)];
  }

  /** Ranking and choosing: the request starts to read the stream of the host selected. */
  lemma SelectionIsARun(hosts: Runtimes, q: Request, turn: Turn, h: HostId, cooldown: real) returns (es: seq<Event>)
    requires q.phase.Ranking? && Selected(hosts, turn.probes, Tried(q.attempts), turn.rankedAt) == Some(h)
    ensures h in hosts && Run(Pool(hosts, [q]), es, cooldown) == Pool(Reserved(hosts, h), [AfterChoose(q, h)])
  {
    var available := Available(hosts, turn.probes, Tried(q.attempts), turn.rankedAt);
    AvailableAreUsable(hosts, turn.probes, Tried(q.attempts), turn.rankedAt);
    var s, a, b := Pool(hosts, [q]), Rank(0, turn.probes, turn.rankedAt), Choose(0);
    es := [a] + [b];
    RunTwice(s, [a], [b], cooldown);
    RunOne(s, a, cooldown);
    var mid := Pool(hosts, [AfterRank(q, available)]);
    assert s.requests[0 := AfterRank(q, available)] == mid.requests;
    RunOne(mid, b, cooldown);
    assert mid.requests[0 := AfterChoose(AfterRank(q, available), h)] == [AfterChoose(q, h)];
  }

  /** When no host is left the request ends, with the last error if there was one. */
  lemma NoSelectionEnds(hosts: Runtimes, q: Request, turn: Turn, cooldown: real) returns (es: seq<Event>)
    requires q.phase.Ranking? && Selected(hosts, turn.probes, Tried(q.attempts), turn.rankedAt).None?
    ensures Run(Pool(hosts, [q]), es, cooldown) ==
      Pool(hosts, [q.(phase := Finished(if q.lastError.Some? then Raised(q.lastError.value) else NoHealthyHost))])
  {
    var s, e := Pool(hosts, [q]), Rank(0, turn.probes, turn.rankedAt);
    es := [e];
    RunOne(s, e, cooldown);
    assert s.requests[0 := AfterRank(q, [])] == [AfterRank(q, [])];
  }

  ghost function EndOf(turn: Turn): Event {
    match turn.source.ending
    case Ended => End(0)
    case Broken(error) => Fail(0, error, turn.endedAt)
    case Closed => Abandon(0)
  }

  /** What the request is when a stream has ended and its reservation is given back. */
  ghost function Resumed(q: Request, source: Source): Request {
    q.(phase := if Retried(source) then Ranking else Finished(OutcomeOf(source.ending)),
       lastError := if source.ending.Broken? then Some(source.ending.error) else q.lastError)
  }

  /** The end of a stream, and the return of the reservation. */
  lemma EndIsARun(hosts: Runtimes, q: Request, h: HostId, turn: Turn, cooldown: real) returns (es: seq<Event>)
    requires q.phase.Streaming? && q.attempts != [] && q.Last() == Attempt(h, turn.source.rows) && h in hosts
    requires hosts[h].reserved > 0
    ensures var ended := if turn.source.rows == [] && turn.source.ending.Ended? then Healthy(hosts, h)
                         else if turn.source.ending.Broken? then Failed(hosts, h, turn.endedAt, cooldown)
                         else hosts;
            Run(Pool(hosts, [q]), es, cooldown) == Pool(Released(ended, h), [Resumed(q, turn.source)])
  {
    var s, a, b := Pool(hosts, [q]), EndOf(turn), GiveBack(0);
    es := [a] + [b];
    RunTwice(s, [a], [b], cooldown);
    RunOne(s, a, cooldown);
    var mid := Step(s, a, cooldown);
    assert mid.requests == [mid.requests[0]] && mid.requests[0].phase.Closing?;
    RunOne(mid, b, cooldown);
    assert mid.requests[0 := Resumed(q, turn.source)] == [Resumed(q, turn.source)];
  }

  lemma RecordAfterTurn(hosts: Runtimes, h: HostId, turn: Turn, cooldown: real)
    requires h in hosts
    ensures var read := if turn.source.rows == [] then Reserved(hosts, h) else Healthy(Reserved(hosts, h), h);
            var ended := if turn.source.rows == [] && turn.source.ending.Ended? then Healthy(read, h)
                         else if turn.source.ending.Broken? then Failed(read, h, turn.endedAt, cooldown)
                         else read;
            Released(ended, h) == hosts[h := AfterAttempt(hosts[h], turn, cooldown)]
  {
  }

  /** One attempt, from ranking to the return of its reservation. */
  lemma AttemptIsARun(hosts: Runtimes, q: Request, turn: Turn, h: HostId, cooldown: real) returns (es: seq<Event>)
    requires q.phase.Ranking? && q.seen == []
    requires Selected(hosts, turn.probes, Tried(q.attempts), turn.rankedAt) == Some(h)
    ensures h in hosts
    ensures var made := Request(q.attempts + [Attempt(h, turn.source.rows)], Streaming,
                                Annotated(turn.source.rows, h, |q.attempts| + 1), q.lastError);
            Run(Pool(hosts, [q]), es, cooldown) ==
              Pool(hosts[h := AfterAttempt(hosts[h], turn, cooldown)], [Resumed(made, turn.source)])
  {
    var s, rows := Pool(hosts, [q]), turn.source.rows;
    var chosen := AfterChoose(q, h);
    var a := SelectionIsARun(hosts, q, turn, h, cooldown);
    var b := DeliverAll(Reserved(hosts, h), chosen, h, rows, cooldown);
    var read := if rows == [] then Reserved(hosts, h) else Healthy(Reserved(hosts, h), h);
    var c := EndIsARun(read, WithRows(chosen, h, rows), h, turn, cooldown);
    es := a + b + c;
    RunTwice(s, a + b, c, cooldown);
    RunTwice(s, a, b, cooldown);
    RecordAfterTurn(hosts, h, turn, cooldown);
    assert WithRows(chosen, h, rows).attempts == q.attempts + [Attempt(h, rows)];
  }

  lemma TriedAre(attempted: seq<HostId>, turns: nat -> Turn)
    ensures Tried(Attempts(attempted, turns)) == AsSet(attempted)
  {
    var made := Attempts(attempted, turns);
    forall h ensures Untried(made, h) <==> h !in attempted {
      assert forall k :: 0 <= k < |attempted| ==> made[k].host == attempted[k];
    }
  }

  /** The request alone in the pool has ended: these hosts tried, these rows seen, this outcome. */
  ghost predicate EndedAs(s: Pool, hosts: Runtimes, attempted: seq<HostId>, turns: nat -> Turn, seen: seq<Row>,
                          outcome: Outcome)
  {
    && s.hosts == hosts && |s.requests| == 1
    && s.requests[0].attempts == Attempts(attempted, turns)
    && s.requests[0].phase == Finished(outcome)
    && s.requests[0].seen == seen
  }

  /** A try that may be repeated leaves the request looking, any other one ends it. */
  lemma TryIsARun(s: Pool, hosts: Runtimes, attempted: seq<HostId>, turns: nat -> Turn, h: HostId, cooldown: real)
    returns (es: seq<Event>)
    requires Looking(s, hosts, attempted, turns) && Next(hosts, turns(|attempted|), attempted) == Some(h)
    ensures h in hosts
    ensures var (turn, t) := (turns(|attempted|), Run(s, es, cooldown));
            var after := hosts[h := AfterAttempt(hosts[h], turn, cooldown)];
            if Retried(turn.source) then Looking(t, after, attempted + [h], turns)
            else EndedAs(t, after, attempted + [h], turns, Annotated(turn.source.rows, h, |attempted| + 1),
                         OutcomeOf(turn.source.ending))
  {
    var q, turn := s.requests[0], turns(|attempted|);
    assert s == Pool(hosts, [q]);
    TriedAre(attempted, turns);
    es := AttemptIsARun(hosts, q, turn, h, cooldown);
    assert Attempts(attempted + [h], turns) == Attempts(attempted, turns) + [Attempt(h, turn.source.rows)];
    if Retried(turn.source) {
      assert Annotated(turn.source.rows, h, |attempted| + 1) == [];
    }
  }

  /** When no host is left, the request ends as it is told. */
  lemma GivingUpIsARun(s: Pool, hosts: Runtimes, attempted: seq<HostId>, turns: nat -> Turn, outcome: Outcome,
                       cooldown: real) returns (es: seq<Event>)
    requires Looking(s, hosts, attempted, turns) && Next(hosts, turns(|attempted|), attempted).None?
    requires AllRetried(turns, |attempted|) && Reported(attempted, turns, [], outcome)
    ensures EndedAs(Run(s, es, cooldown), hosts, attempted, turns, [], outcome)
  {
    var q := s.requests[0];
    assert s == Pool(hosts, [q]);
    TriedAre(attempted, turns);
    assert attempted != [] ==> Retried(turns(|attempted| - 1).source);
    es := NoSelectionEnds(hosts, q, turns(|attempted|), cooldown);
  }

  lemma ArrivalLooks(hosts: Runtimes, turns: nat -> Turn, cooldown: real)
    ensures Looking(Run(Pool(hosts, []), [Arrive], cooldown), hosts, [], turns)
  {
    RunOne(Pool(hosts, []), Arrive, cooldown);
    assert Attempts([], turns) == [];
  }

  /** After a failure that may be retried, and before any attempt, the request ends only if no host is left. */
  ghost predicate NotGivenUpEarly(hosts: Runtimes, attempted: seq<HostId>, turns: nat -> Turn) {
    attempted == [] || Retried(turns(|attempted| - 1).source) ==> Next(hosts, turns(|attempted|), attempted).None?
  }

  lemma OneMoreUntouched(before: Runtimes, mid: Runtimes, attempted: seq<HostId>, h: HostId, v: Runtime)
    requires Untouched(before, mid, attempted) && h in mid
    ensures Untouched(before, mid[h := v], attempted + [h])
  {
    forall g | g in before && g !in attempted + [h]
      ensures mid[h := v][g] == before[g]
    {
      assert (attempted + [h])[|attempted|] == h;
      assert forall k :: 0 <= k < |attempted| ==> (attempted + [h])[k] == attempted[k];
    }
  }

  lemma OneMoreRecorded(before: Runtimes, mid: Runtimes, attempted: seq<HostId>, h: HostId, turns: nat -> Turn,
                        cooldown: real)
    requires mid.Keys == before.Keys && Recorded(before, mid, attempted, turns, cooldown)
    requires h in before && h !in attempted && mid[h] == before[h]
    ensures Recorded(before, mid[h := AfterAttempt(mid[h], turns(|attempted|), cooldown)],
                     attempted + [h], turns, cooldown)
  {
  }

  lemma OneMoreServed(before: Runtimes, mid: Runtimes, after: Runtimes, attempted: seq<HostId>, h: HostId,
                      turns: nat -> Turn, cooldown: real)
    requires Served(before, mid, attempted, turns, cooldown) && h in mid && h !in attempted
    requires after == mid[h := AfterAttempt(mid[h], turns(|attempted|), cooldown)]
    ensures Served(before, after, attempted + [h], turns, cooldown)
  {
    OneMoreUntouched(before, mid, attempted, h, after[h]);
    OneMoreRecorded(before, mid, attempted, h, turns, cooldown);
  }

  lemma OneFewerHost(ids: set<HostId>, attempted: seq<HostId>, h: HostId)
    requires h in ids && h !in attempted
    ensures ids - AsSet(attempted + [h]) < ids - AsSet(attempted)
  {
    assert h in ids - AsSet(attempted) && h !in ids - AsSet(attempted + [h]);
  }

  /** What one host answers to a call, and when. */
  datatype Reply = Reply(answer: Result<string, HostError>, endedAt: real)

  ghost predicate MayRetry(reply: Reply) {
    reply.answer.Failure? && reply.answer.error.transient
  }

  ghost predicate AllMayRetry(replies: nat -> Reply, n: int) {
    forall k :: 0 <= k < n ==> MayRetry(replies(k))
  }

  /** A call is an attempt without rows. */
  function AsTurn(reply: Reply): Turn {
    Turn([], 0.0, Source([], if reply.answer.Failure? then Broken(reply.answer.error) else Ended), reply.endedAt)
  }

  /** An answer clears the host's failures; an error counts one more and starts a cooldown. */
  lemma CallIsRecorded(host: Runtime, reply: Reply, cooldown: real)
    ensures var after := AfterAttempt(host, AsTurn(reply), cooldown);
      && after.reserved == host.reserved
      && (reply.answer.Success? ==> after.failures == 0 && after.cooldownUntil == 0.0)
      && (reply.answer.Failure? ==>
            after.failures == host.failures + 1 &&
            after.cooldownUntil == reply.endedAt + Backoff(cooldown, host.failures + 1))
  {
  }

  function Turns(replies: nat -> Reply): nat -> Turn {
    (k: nat) => AsTurn(replies(k))
  }

  function Told(reply: Reply): Result<string, Option<HostError>> {
    if reply.answer.Success? then Success(reply.answer.value) else Failure(Some(reply.answer.error))
  }

  /** What the caller is told after so many calls: what the last one replied, or that there was no host. */
  function CallResult(replies: nat -> Reply, tried: nat): Result<string, Option<HostError>> {
    if tried == 0 then Failure(None) else Told(replies(tried - 1))
  }

  /** An online host is a candidate for a call; when support is required, only if it is usable. */
  predicate IsCandidate(hosts: Runtimes, p: Probe, requireSupport: bool, now: real) {
    p.online && (requireSupport ==> Usable(hosts, p, {}, now))
  }

  /** The candidates of a call, in the order probed. */
  function Candidates(hosts: Runtimes, probes: seq<Probe>, requireSupport: bool, now: real): seq<HostId> {
    if probes == [] then []
    else
      var rest := Candidates(hosts, probes[1..], requireSupport, now);
      if IsCandidate(hosts, probes[0], requireSupport, now) then [probes[0].host] + rest else rest
  }

  /** Every host was probed once, and belongs to the pool. */
  ghost predicate ProbedOnce(hosts: Runtimes, probes: seq<Probe>) {
    && (forall i :: 0 <= i < |probes| ==> probes[i].host in hosts)
    && (forall i, j :: 0 <= i < j < |probes| ==> probes[i].host != probes[j].host)
  }

  ghost predicate IsProbed(probes: seq<Probe>, h: HostId) {
    exists i :: 0 <= i < |probes| && probes[i].host == h
  }

  lemma {:induction false} CandidatesAre(hosts: Runtimes, probes: seq<Probe>, requireSupport: bool, now: real)
    requires ProbedOnce(hosts, probes)
    ensures Distinct(Candidates(hosts, probes, requireSupport, now))
    ensures forall h :: h in Candidates(hosts, probes, requireSupport, now) ==> IsProbed(probes, h)
    ensures forall i :: 0 <= i < |probes| ==>
      (probes[i].host in Candidates(hosts, probes, requireSupport, now) <==>
       probes[i].online &&
       (requireSupport ==> probes[i].supportsModel && hosts[probes[i].host].cooldownUntil <= now))
  {
    if probes != [] {
      var rest := Candidates(hosts, probes[1..], requireSupport, now);
      CandidatesAre(hosts, probes[1..], requireSupport, now);
      forall h | h in rest
        ensures h != probes[0].host && IsProbed(probes, h)
      {
        var i :| 0 <= i < |probes[1..]| && probes[1..][i].host == h;
        assert probes[i + 1].host == h;
      }
      FrontIsDistinct(probes[0].host, rest);
      forall i | 0 <= i < |probes|
        ensures probes[i].host in Candidates(hosts, probes, requireSupport, now) <==>
          probes[i].online &&
          (requireSupport ==> probes[i].supportsModel && hosts[probes[i].host].cooldownUntil <= now)
      {
        assert i > 0 ==> probes[i] == probes[1..][i - 1];
      }
    }
  }

  lemma FrontIsDistinct(h: HostId, rest: seq<HostId>)
    requires Distinct(rest) && h !in rest
    ensures Distinct([h] + rest)
  {
    assert forall i :: 0 <= i < |rest| ==> rest[i] in rest;
  }

  lemma OneMoreMayRetry(replies: nat -> Reply, n: nat)
    requires AllMayRetry(replies, n) && MayRetry(replies(n))
    ensures AllMayRetry(replies, n + 1)
  {
  }

  lemma NotYetTried(candidates: seq<HostId>, n: nat)
    requires Distinct(candidates) && n < |candidates|
    ensures candidates[n] !in candidates[..n] && candidates[..n + 1] == candidates[..n] + [candidates[n]]
  {
  }

  predicate InPool(candidates: seq<HostId>, hosts: Runtimes) {
    forall h <- candidates :: h in hosts
  }

  /** The records after calls to the first `n` candidates. */
  function AfterCalls(hosts: Runtimes, candidates: seq<HostId>, n: nat, replies: nat -> Reply,
                      cooldown: real): (after: Runtimes)
    requires n <= |candidates| && InPool(candidates, hosts)
    ensures after.Keys == hosts.Keys
  {
    if n == 0 then hosts
    else
      var mid := AfterCalls(hosts, candidates, n - 1, replies, cooldown);
      var h := candidates[n - 1];
      mid[h := AfterAttempt(mid[h], AsTurn(replies(n - 1)), cooldown)]
  }

  /** The candidates called have one attempt on record, the others are untouched. */
  lemma {:induction false} CalledAreServed(hosts: Runtimes, candidates: seq<HostId>, n: nat, replies: nat -> Reply,
                                           cooldown: real)
    requires n <= |candidates| && InPool(candidates, hosts) && Distinct(candidates)
    ensures Served(hosts, AfterCalls(hosts, candidates, n, replies, cooldown), candidates[..n], Turns(replies),
                   cooldown)
  {
    if n == 0 {
      assert candidates[..0] == [];
    } else {
      CalledAreServed(hosts, candidates, n - 1, replies, cooldown);
      OneMoreCalled(hosts, AfterCalls(hosts, candidates, n - 1, replies, cooldown), candidates, n - 1, replies,
                    cooldown);
    }
  }

  lemma OneMoreCalled(before: Runtimes, mid: Runtimes, candidates: seq<HostId>, n: nat, replies: nat -> Reply,
                      cooldown: real)
    requires n < |candidates| && Distinct(candidates) && candidates[n] in mid
    requires Served(before, mid, candidates[..n], Turns(replies), cooldown)
    ensures var after := mid[candidates[n] := AfterAttempt(mid[candidates[n]], AsTurn(replies(n)), cooldown)];
            Served(before, after, candidates[..n + 1], Turns(replies), cooldown)
  {
    var h := candidates[n];
    NotYetTried(candidates, n);
    OneMoreServed(before, mid, mid[h := AfterAttempt(mid[h], AsTurn(replies(n)), cooldown)], candidates[..n], h,
                  Turns(replies), cooldown);
  }

  class HostPool {
    var hosts: Runtimes
    var lastRoute: Option<HostId>
    const cooldown: real

    constructor (targets: seq<HostId>, cooldownSeconds: real)
      requires targets != []
      ensures hosts.Keys == AsSet(targets)
      ensures forall h :: h in hosts ==> hosts[h] == Runtime(0, 0, 0.0)
      ensures lastRoute.None? && cooldown == RMax(0.0, cooldownSeconds)
    {
      hosts := map h | h in targets :: Runtime(0, 0, 0.0);
      lastRoute := None;
      cooldown := RMax(0.0, cooldownSeconds);
    }

    method SelectAndReserve(probes: seq<Probe>, exclude: seq<HostId>, now: real) returns (selected: Option<HostId>)
      modifies `hosts
      ensures selected == Selected(old(hosts), probes, AsSet(exclude), now)
      ensures selected.None? ==> hosts == old(hosts)
      ensures selected.Some? ==> selected.value in old(hosts) && selected.value !in exclude
      ensures selected.Some? ==> hosts == Reserved(old(hosts), selected.value)
      ensures IsBestChoice(old(hosts), probes, exclude, now, selected)
    {
      SelectedIsBest(hosts, probes, exclude, now);
      var available := Available(hosts, probes, AsSet(exclude), now);
      if available == [] {
        return None;
      }
      AvailableAreUsable(hosts, probes, AsSet(exclude), now);
      var h := Chosen(hosts, available);
      hosts := Reserved(hosts, h);
      selected := Some(h);
    }

    method MarkSuccess(h: HostId)
      requires h in hosts
      modifies `hosts, `lastRoute
      ensures hosts == Healthy(old(hosts), h) && lastRoute == Some(h)
      ensures hosts == old(hosts)[h := Runtime(old(hosts)[h].reserved, 0, 0.0)]
    {
      hosts := hosts[h := hosts[h].(failures := 0, cooldownUntil := 0.0)];
      lastRoute := Some(h);
    }

    method MarkFailure(h: HostId, now: real)
      requires h in hosts
      modifies `hosts
      ensures hosts == Failed(old(hosts), h, now, cooldown)
      ensures var failures := old(hosts)[h].failures + 1;
              hosts == old(hosts)[h := Runtime(old(hosts)[h].reserved, failures, now + Backoff(cooldown, failures))]
    {
      var failures := hosts[h].failures + 1;
      hosts := hosts[h := hosts[h].(failures := failures, cooldownUntil := now + Backoff(cooldown, failures))];
    }

    method Release(h: HostId)
      requires h in hosts
      modifies `hosts
      ensures hosts == Released(old(hosts), h)
    {
      hosts := hosts[h := hosts[h].(reserved := Max(0, hosts[h].reserved - 1))];
    }

    /** Read one host's stream until it ends, breaks or is closed, while holding the reservation. */
    method Attempt(h: HostId, turn: Turn, attempts: nat) returns (rows: seq<Row>)
      requires h in hosts && hosts[h].reserved > 0
      modifies `hosts, `lastRoute
      ensures rows == Annotated(turn.source.rows, h, attempts)
      ensures hosts ==
        old(hosts)[h := AfterAttempt(old(hosts)[h], turn, cooldown).(reserved := old(hosts)[h].reserved - 1)]
      ensures lastRoute == if turn.source.rows != [] || turn.source.ending.Ended? then Some(h) else old(lastRoute)
    {
      rows := [];
      var emitted := false;
      for i := 0 to |turn.source.rows|
        invariant rows == Annotated(turn.source.rows[..i], h, attempts)
        invariant emitted == (i > 0)
        invariant hosts == if emitted then Healthy(old(hosts), h) else old(hosts)
        invariant lastRoute == if emitted then Some(h) else old(lastRoute)
      {
        if !emitted {
          emitted := true;
          MarkSuccess(h);
        }
        assert turn.source.rows[..i + 1] == turn.source.rows[..i] + [turn.source.rows[i]];
        rows := rows + [Annotate(turn.source.rows[i], h, attempts)];
      }
      assert turn.source.rows[..|turn.source.rows|] == turn.source.rows;
      match turn.source.ending {
        case Ended =>
          if !emitted {
            MarkSuccess(h);
          }
        case Broken(_) => MarkFailure(h, turn.endedAt);
        case Closed =>
      }
      Release(h);
    }

    /** Choose a host and, if there is one, try it; it then holds as many reservations as before. */
    method TryNext(turn: Turn, attempted: seq<HostId>) returns (selected: Option<HostId>, rows: seq<Row>)
      modifies `hosts, `lastRoute
      ensures selected == Next(old(hosts), turn, attempted)
      ensures selected.None? ==> hosts == old(hosts)
      ensures selected.Some? ==>
        && selected.value in old(hosts) && selected.value !in attempted
        && hosts == old(hosts)[selected.value := AfterAttempt(old(hosts)[selected.value], turn, cooldown)]
        && rows == Annotated(turn.source.rows, selected.value, |attempted| + 1)
    {
      rows := [];
      selected := SelectAndReserve(turn.probes, attempted, turn.rankedAt);
      if selected.Some? {
        rows := Attempt(selected.value, turn, |attempted| + 1);
      }
    }

    /**
     The failover loop, alone in the pool, for a caller that may close the stream after any row.  It ends; each
     host is tried at most once, and every host but the last was given up in silence after a transient error; the
     caller's rows are the last host's; what is raised is the last host's error, and only when it cannot be
     retried; all reservations are given back.  It is a run of the steps above.
     */
    method StreamWithFailover(turns: nat -> Turn)
      returns (seen: seq<Row>, attempted: seq<HostId>, outcome: Outcome, ghost events: seq<Event>)
      modifies `hosts, `lastRoute
      ensures Served(old(hosts), hosts, attempted, turns, cooldown)
      ensures AllRetried(turns, |attempted| - 1)
      ensures Reported(attempted, turns, seen, outcome)
      ensures NotGivenUpEarly(hosts, attempted, turns)
      ensures EndedAs(Run(Pool(old(hosts), []), events, cooldown), hosts, attempted, turns, seen, outcome)
    {
      attempted, seen, outcome, events := [], [], NoHealthyHost, [Arrive];
      NothingTried(hosts, turns, cooldown);
      ArrivalLooks(hosts, turns, cooldown);
      ghost var start := Pool(hosts, []);
      while true
        invariant Underway(old(hosts), hosts, attempted, turns, cooldown, seen, outcome)
        invariant seen == [] && Looking(Run(start, events, cooldown), hosts, attempted, turns)
        decreases old(hosts).Keys - AsSet(attempted)
      {
        var turn := turns(|attempted|);
        ghost var before := hosts;
        var selected, rows := TryNext(turn, attempted);
        if selected.None? {
          var last := GivingUpIsARun(Run(start, events, cooldown), hosts, attempted, turns, outcome, cooldown);
          RunTwice(start, events, last, cooldown);
          events := events + last;
          return;
        }
        var more := TryIsARun(Run(start, events, cooldown), before, attempted, turns, selected.value, cooldown);
        RunTwice(start, events, more, cooldown);
        OneMoreServed(old(hosts), before, hosts, attempted, selected.value, turns, cooldown);
        OneFewerHost(old(hosts).Keys, attempted, selected.value);
        attempted, seen, outcome := attempted + [selected.value], rows, OutcomeOf(turn.source.ending);
        events := events + more;
        if rows != [] || !turn.source.ending.Broken? || !turn.source.ending.error.transient {
          return;
        }
        StillUnderway(old(hosts), hosts, attempted, turns, cooldown, seen, outcome);
      }
    }

    /** One call, while holding a reservation. */
    method Call(h: HostId, reply: Reply)
      requires h in hosts
      modifies `hosts, `lastRoute
      ensures hosts == old(hosts)[h := AfterAttempt(old(hosts)[h], AsTurn(reply), cooldown)]
      ensures lastRoute == if reply.answer.Success? then Some(h) else old(lastRoute)
    {
      hosts := Reserved(hosts, h);
      if reply.answer.Success? {
        MarkSuccess(h);
      } else {
        MarkFailure(h, reply.endedAt);
      }
      Release(h);
    }

    /** Try the candidates in order, until one answers or fails for good. */
    method TryInOrder(candidates: seq<HostId>, replies: nat -> Reply)
      returns (result: Result<string, Option<HostError>>, tried: nat)
      requires InPool(candidates, hosts)
      modifies `hosts, `lastRoute
      ensures tried <= |candidates| && (tried == 0 <==> candidates == [])
      ensures hosts == AfterCalls(old(hosts), candidates, tried, replies, cooldown)
      ensures AllMayRetry(replies, tried - 1)
      ensures 0 < tried < |candidates| ==> !MayRetry(replies(tried - 1))
      ensures result == CallResult(replies, tried)
    {
      tried, result := 0, Failure(None);
      while tried < |candidates|
        invariant tried <= |candidates|
        invariant hosts == AfterCalls(old(hosts), candidates, tried, replies, cooldown)
        invariant AllMayRetry(replies, tried)
        invariant result == CallResult(replies, tried)
      {
        var reply := replies(tried);
        Call(candidates[tried], reply);
        result, tried := Told(reply), tried + 1;
        if reply.answer.Success? || !reply.answer.error.transient {
          return;
        }
        OneMoreMayRetry(replies, tried - 1);
      }
    }

    /**
     A call that returns one value, tried on the candidates in order: the first answer is returned; an error that
     cannot be retried, or the last one, is raised; all reservations are given back.  Without a candidate it fails.
     */
    method CallWithFailover(probes: seq<Probe>, requireSupport: bool, now: real, replies: nat -> Reply)
      returns (result: Result<string, Option<HostError>>, tried: nat)
      requires ProbedOnce(hosts, probes)
      modifies `hosts, `lastRoute
      ensures var candidates := Candidates(old(hosts), probes, requireSupport, now);
              && tried <= |candidates| && (tried == 0 <==> candidates == [])
              && Served(old(hosts), hosts, candidates[..tried], Turns(replies), cooldown)
              && AllMayRetry(replies, tried - 1)
              && (0 < tried < |candidates| ==> !MayRetry(replies(tried - 1)))
      ensures result == CallResult(replies, tried)
      ensures tried == 0 ==> result == Failure(None)
      ensures tried > 0 ==> match replies(tried - 1).answer
                            case Success(value) => result == Success(value)
                            case Failure(error) => result == Failure(Some(error))
    {
      CandidatesAre(hosts, probes, requireSupport, now);
      var candidates := Candidates(hosts, probes, requireSupport, now);
      result, tried := TryInOrder(candidates, replies);
      CalledAreServed(old(hosts), candidates, tried, replies, cooldown);
    }
  }
}
