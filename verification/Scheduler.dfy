/**
 The tenant-fair replica scheduler.

 Each section the code runs under its lock is one atomic step: arriving, one
 turn of the waiting loop, releasing, closing.  Threads, clocks and
 notification are any interleaving of such steps.  The methods of `ReplicaPool`
 are proved to be the step function `Step`; safety and fairness are proved for
 every run of it.
 */
module Scheduler {
  import opened Wrappers

  type Tenant = Option<string>

  datatype Waiter = Waiter(ticket: nat, tenant: Tenant)

  /** What has become of a ticket. */
  datatype Fate = Waiting | Granted | TimedOut | Cancelled | ClosedOut

  datatype Counters = Counters(
    accepted: nat,
    completed: nat,
    rejected: nat,
    timedOut: nat,
    maxActive: nat,
    maxQueued: nat,
    workerRequests: seq<nat>)

  /** The pool, with three histories: the fate of each ticket, the queue grants in order, and the leases held. */
  datatype PoolState = PoolState(
    replicas: nat,
    maxQueue: nat,
    available: set<nat>,
    active: set<nat>,
    waiters: seq<Waiter>,
    nextTicket: nat,
    lastTenant: Tenant,
    closed: bool,
    counts: Counters,
    fates: map<nat, Fate>,
    grants: seq<Waiter>,
    leases: multiset<nat>)

  datatype Event =
    | Arrive(tenant: Tenant, preferred: Option<nat>, cancelled: bool)
    | Poll(ticket: nat, choice: Option<nat>, abandon: bool, expired: bool)
    | Release(index: nat)
    | Close
    | TryCloseIdle

  datatype Outcome =
    | Lease(index: nat)
    | Queued(ticket: nat)
    | RequestCancelled
    | SchedulerClosed
    | QueueFull
    | QueueTimeout
    | StillWaiting
    | Done
    | NotActive
    | Busy

  // ---------------------------------------------------------------- the queue

  /** The index, from `i` on, of the first waiter of another tenant than `last`, or the length of the queue. */
  function FirstOther(waiters: seq<Waiter>, last: Tenant, i: nat): (k: nat)
    requires i <= |waiters|
    ensures i <= k <= |waiters|
    ensures forall j :: i <= j < k ==> waiters[j].tenant == last
    ensures k < |waiters| ==> waiters[k].tenant != last
    decreases |waiters| - i
  {
    if i == |waiters| || waiters[i].tenant != last then i else FirstOther(waiters, last, i + 1)
  }

  predicate AllAnonymous(waiters: seq<Waiter>) {
    forall w <- waiters :: w.tenant == None
  }

  /** The index of the waiter to serve next. */
  function NextIndex(waiters: seq<Waiter>, last: Tenant): (k: nat)
    requires waiters != []
    ensures k < |waiters|
  {
    var k := FirstOther(waiters, last, 0);
    if AllAnonymous(waiters) || k == |waiters| then 0 else k
  }

  function NextTicket(waiters: seq<Waiter>, last: Tenant): Option<nat> {
    if waiters == [] then None else Some(waiters[NextIndex(waiters, last)].ticket)
  }

  /** A waiter is passed over only when it, and everyone else passed over, belongs to the tenant served last. */
  lemma PassedOver(waiters: seq<Waiter>, last: Tenant)
    requires waiters != []
    ensures var k := NextIndex(waiters, last);
            0 < k ==> (forall i :: 0 <= i < k ==> waiters[i].tenant == last) && waiters[k].tenant != last
  {
  }

  function IndexFrom(waiters: seq<Waiter>, ticket: nat, i: nat): (k: nat)
    requires i <= |waiters|
    ensures i <= k <= |waiters|
    ensures forall j :: i <= j < k ==> waiters[j].ticket != ticket
    ensures k < |waiters| ==> waiters[k].ticket == ticket
    decreases |waiters| - i
  {
    if i == |waiters| || waiters[i].ticket == ticket then i else IndexFrom(waiters, ticket, i + 1)
  }

  function IndexOf(waiters: seq<Waiter>, ticket: nat): nat {
    IndexFrom(waiters, ticket, 0)
  }

  predicate IsWaiting(waiters: seq<Waiter>, ticket: nat) {
    IndexOf(waiters, ticket) < |waiters|
  }

  function WithoutTicket(waiters: seq<Waiter>, ticket: nat): seq<Waiter> {
    var k := IndexOf(waiters, ticket);
    if k < |waiters| then waiters[..k] + waiters[k + 1..] else waiters
  }

  // ---------------------------------------------------------------- steps

  lemma LeastExists(s: set<nat>)
    requires s != {}
    ensures exists x :: x in s && forall y <- s :: x <= y
  {
    var x :| x in s;
    LeastFrom(s, x);
  }

  lemma {:induction false} LeastFrom(s: set<nat>, x: nat)
    requires x in s
    ensures exists m :: m in s && forall y <- s :: m <= y
  {
    if y :| y in s && y < x {
      LeastFrom(s, y);
    }
  }

  function Least(s: set<nat>): (x: nat)
    requires s != {}
    ensures x in s && forall y <- s :: x <= y
  {
    LeastExists(s);
    var x :| x in s && forall y <- s :: x <= y;
    x
  }

  /** The replica is free, it is the preferred one if that is free, and otherwise none before it is free. */
  ghost predicate IsFavoured(index: nat, available: set<nat>, preferred: Option<nat>) {
    && index in available
    && (preferred.Some? && preferred.value in available ==> index == preferred.value)
    && ((preferred.Some? && preferred.value in available) || forall i <- available :: index <= i)
  }

  /** The preferred replica when it is free, otherwise the free one with the least index. */
  function Select(available: set<nat>, preferred: Option<nat>): (index: nat)
    requires available != {}
    ensures IsFavoured(index, available, preferred)
  {
    if preferred.Some? && preferred.value in available then preferred.value else Least(available)
  }

  function Indices(n: nat): (r: set<nat>)
    ensures forall i: nat :: i in r <==> i < n
  {
    if n == 0 then {} else Indices(n - 1) + {n - 1}
  }

  function Init(replicas: nat, maxQueue: nat): PoolState {
    PoolState(replicas, maxQueue, Indices(replicas), {}, [], 0, None, false,
              Counters(0, 0, 0, 0, 0, 0, seq(replicas, i => 0)), map[], [], multiset{})
  }

  function CountAdmission(c: Counters, index: nat, active: nat): Counters {
    c.(accepted := c.accepted + 1,
       workerRequests := if index < |c.workerRequests| then c.workerRequests[index := c.workerRequests[index] + 1]
                         else c.workerRequests,
       maxActive := Max(c.maxActive, active))
  }

  /** Lease a replica to a request of `tenant`. */
  function Admit(s: PoolState, tenant: Tenant, index: nat): PoolState {
    s.(available := s.available - {index},
       active := s.active + {index},
       lastTenant := tenant,
       counts := CountAdmission(s.counts, index, |s.active + {index}|),
       leases := s.leases + multiset{index})
  }

  function Enqueue(s: PoolState, tenant: Tenant): PoolState {
    s.(waiters := s.waiters + [Waiter(s.nextTicket, tenant)],
       nextTicket := s.nextTicket + 1,
       counts := s.counts.(maxQueued := Max(s.counts.maxQueued, |s.waiters| + 1)),
       fates := s.fates[s.nextTicket := Waiting])
  }

  /** Take a ticket out of the queue for the given reason. */
  function Leave(s: PoolState, ticket: nat, fate: Fate): PoolState {
    s.(waiters := WithoutTicket(s.waiters, ticket), fates := s.fates[ticket := fate])
  }

  function CountTimeout(s: PoolState): PoolState {
    s.(counts := s.counts.(timedOut := s.counts.timedOut + 1))
  }

  function Grant(s: PoolState, ticket: nat, preferred: Option<nat>): PoolState
    requires IsWaiting(s.waiters, ticket) && s.available != {}
  {
    var w := s.waiters[IndexOf(s.waiters, ticket)];
    var left := Leave(s, ticket, Granted);
    Admit(left.(grants := s.grants + [w]), w.tenant, Select(s.available, preferred))
  }

  function Step(s: PoolState, e: Event): (PoolState, Outcome) {
    match e
    case Arrive(tenant, preferred, cancelled) =>
      if cancelled then (s, RequestCancelled)
      else if s.closed then (s, SchedulerClosed)
      else if s.waiters != [] || s.available == {} then
        if |s.waiters| >= s.maxQueue then (s.(counts := s.counts.(rejected := s.counts.rejected + 1)), QueueFull)
        else (Enqueue(s, tenant), Queued(s.nextTicket))
      else
        var index := Select(s.available, preferred);
        (Admit(s, tenant, index), Lease(index))
    case Poll(ticket, choice, abandon, expired) =>
      if !IsWaiting(s.waiters, ticket) then (s, StillWaiting)
      else if abandon then (Leave(s, ticket, Cancelled), RequestCancelled)
      else if s.closed then (Leave(s, ticket, ClosedOut), SchedulerClosed)
      else if NextTicket(s.waiters, s.lastTenant) == Some(ticket) && s.available != {} then
        (Grant(s, ticket, choice), Lease(Select(s.available, choice)))
      else if expired then
        (CountTimeout(Leave(s, ticket, TimedOut)), QueueTimeout)
      else (s, StillWaiting)
    case Release(index) =>
      if index !in s.active then (s, NotActive)
      else (s.(active := s.active - {index}, available := s.available + {index},
               counts := s.counts.(completed := s.counts.completed + 1), leases := s.leases - multiset{index}), Done)
    case Close => (s.(closed := true), Done)
    case TryCloseIdle =>
      if s.active != {} || s.waiters != [] then (s, Busy) else (s.(closed := true), Done)
  }

  // ---------------------------------------------------------------- what a request is answered

  /** One replica became active: the one asked for if it was free, and otherwise the first free one. */
  ghost predicate LeaseMade(s: PoolState, t: PoolState, tenant: Tenant, preferred: Option<nat>, index: nat) {
    && IsFavoured(index, s.available, preferred)
    && t.available == s.available - {index} && t.active == s.active + {index} && t.lastTenant == tenant
  }

  ghost predicate NoLeaseMade(s: PoolState, t: PoolState) {
    t.available == s.available && t.active == s.active && t.lastTenant == s.lastTenant
  }

  /** A new request leases at once when a replica is free and nobody waits; else it waits if the queue has room. */
  ghost predicate ArrivalAnswered(s: PoolState, t: PoolState, tenant: Tenant, preferred: Option<nat>,
                                  cancelled: bool, o: Outcome)
  {
    var mustWait := s.waiters != [] || s.available == {};
    && (o == RequestCancelled <==> cancelled)
    && (o == SchedulerClosed <==> !cancelled && s.closed)
    && (o == QueueFull <==> !cancelled && !s.closed && mustWait && |s.waiters| >= s.maxQueue)
    && (o == Queued(s.nextTicket) <==> !cancelled && !s.closed && mustWait && |s.waiters| < s.maxQueue)
    && (o.Lease? <==> !cancelled && !s.closed && !mustWait)
    && (if o.Lease? then LeaseMade(s, t, tenant, preferred, o.index) else NoLeaseMade(s, t))
    && t.waiters == s.waiters + if o.Queued? then [Waiter(s.nextTicket, tenant)] else []
  }

  /** The waiter `w` leases a free replica when it is its turn, even after its deadline. */
  ghost predicate TurnAnswered(s: PoolState, t: PoolState, w: Waiter, preferred: Option<nat>, cancelled: bool,
                               expired: bool, o: Outcome)
  {
    && (o == RequestCancelled <==> cancelled)
    && (o == SchedulerClosed <==> !cancelled && s.closed)
    && (o.Lease? <==> !cancelled && !s.closed && NextTicket(s.waiters, s.lastTenant) == Some(w.ticket) &&
                      s.available != {})
    && (o == QueueTimeout <==> !cancelled && !s.closed && !o.Lease? && expired)
    && (o == StillWaiting <==> !cancelled && !s.closed && !o.Lease? && !expired)
    && (if o.Lease? then LeaseMade(s, t, w.tenant, preferred, o.index) else NoLeaseMade(s, t))
    && (o == StillWaiting ==> t == s)
  }

  lemma ArriveAnswers(s: PoolState, tenant: Tenant, preferred: Option<nat>, cancelled: bool)
    ensures var (t, o) := Step(s, Arrive(tenant, preferred, cancelled));
            ArrivalAnswered(s, t, tenant, preferred, cancelled, o)
  {
  }

  lemma PollAnswers(s: PoolState, w: Waiter, preferred: Option<nat>, cancelled: bool, expired: bool)
    requires IsWaiting(s.waiters, w.ticket) && s.waiters[IndexOf(s.waiters, w.ticket)] == w
    ensures var (t, o) := Step(s, Poll(w.ticket, preferred, cancelled, expired));
            TurnAnswered(s, t, w, preferred, cancelled, expired, o)
  {
  }

  /** The state after a run. */
  function Run(s: PoolState, es: seq<Event>): PoolState {
    if es == [] then s else Step(Run(s, es[..|es| - 1]), es[|es| - 1]).0
  }

  // ---------------------------------------------------------------- safety

  function Sum(xs: seq<nat>): nat {
    if xs == [] then 0 else xs[0] + Sum(xs[1..])
  }

  lemma {:induction false} SumIncrement(xs: seq<nat>, i: nat)
    requires i < |xs|
    ensures Sum(xs[i := xs[i] + 1]) == Sum(xs) + 1
  {
    if i > 0 {
      assert xs[i := xs[i] + 1][1..] == xs[1..][i - 1 := xs[1..][i - 1] + 1];
      SumIncrement(xs[1..], i - 1);
    } else {
      assert xs[i := xs[i] + 1][1..] == xs[1..];
    }
  }

  lemma {:induction false} SumZero(n: nat)
    ensures Sum(seq(n, i => 0)) == 0
  {
    if n > 0 {
      assert seq(n, i => 0)[1..] == seq(n - 1, i => 0);
      SumZero(n - 1);
    }
  }

  // ---------------------------------------------------------------- what the counters count

  /** What the steps of a run answered, in order. */
  ghost function Answers(s: PoolState, es: seq<Event>): (r: seq<Outcome>)
    ensures |r| == |es|
  {
    if es == [] then [] else Answers(s, es[..|es| - 1]) + [Step(Run(s, es[..|es| - 1]), es[|es| - 1]).1]
  }

  /** From `s` to `t`, where so many steps answered each outcome, the counters counted them. */
  ghost predicate Tallied(c: Counters, d: Counters, answers: multiset<Outcome>) {
    && d.rejected == c.rejected + answers[QueueFull]
    && d.timedOut == c.timedOut + answers[QueueTimeout]
    && |d.workerRequests| == |c.workerRequests|
    && forall i :: 0 <= i < |c.workerRequests| ==> d.workerRequests[i] == c.workerRequests[i] + answers[Lease(i)]
  }

  /** Over any run the counters count refusals, timeouts and the leases of each replica. */
  lemma {:induction false} CountersAreTallies(s: PoolState, es: seq<Event>)
    ensures Tallied(s.counts, Run(s, es).counts, multiset(Answers(s, es)))
  {
    if es != [] {
      var before := Run(s, es[..|es| - 1]);
      CountersAreTallies(s, es[..|es| - 1]);
      StepIsTallied(before, es[|es| - 1]);
    }
  }

  lemma StepIsTallied(s: PoolState, e: Event)
    ensures Tallied(s.counts, Step(s, e).0.counts, multiset{Step(s, e).1})
  {
    if Step(s, e).1.Lease? {
      LeaseIsTallied(s.counts, Step(s, e).1.index, |Step(s, e).0.active|);
      assert Step(s, e).0.counts == CountAdmission(s.counts, Step(s, e).1.index, |Step(s, e).0.active|);
    }
  }

  lemma LeaseIsTallied(c: Counters, index: nat, active: nat)
    ensures Tallied(c, CountAdmission(c, index, active), multiset{Lease(index)})
  {
  }

  ghost predicate WithinPeaks(s: PoolState, c: Counters) {
    |s.active| <= c.maxActive && |s.waiters| <= c.maxQueued
  }

  ghost predicate AllWithinPeaks(s: PoolState, es: seq<Event>, c: Counters) {
    forall k :: 0 <= k <= |es| ==> WithinPeaks(Run(s, es[..k]), c)
  }

  /** The peaks are those of the run: no state is beyond them, and one not reached in the run was there before it. */
  lemma {:induction false} PeaksAreReached(s: PoolState, es: seq<Event>) returns (a: nat, q: nat)
    requires WithinPeaks(s, s.counts)
    ensures AllWithinPeaks(s, es, Run(s, es).counts)
    ensures a <= |es| && Run(s, es).counts.maxActive == Max(s.counts.maxActive, |Run(s, es[..a]).active|)
    ensures q <= |es| && Run(s, es).counts.maxQueued == Max(s.counts.maxQueued, |Run(s, es[..q]).waiters|)
  {
    if es == [] {
      a, q := 0, 0;
    } else {
      var n := |es| - 1;
      a, q := PeaksAreReached(s, es[..n]);
      assert es[..n][..a] == es[..a] && es[..n][..q] == es[..q] && es[..|es|] == es && es[..n][..n] == es[..n];
      var before, t := Run(s, es[..n]), Run(s, es);
      assert WithinPeaks(Run(s, es[..n][..n]), before.counts);
      StepPeaks(before, es[n]);
      OneMoreWithinPeaks(s, es, t);
      a := if |t.active| > before.counts.maxActive then |es| else a;
      q := if |t.waiters| > before.counts.maxQueued then |es| else q;
    }
  }

  lemma OneMoreWithinPeaks(s: PoolState, es: seq<Event>, t: PoolState)
    requires es != [] && t == Run(s, es) && WithinPeaks(t, t.counts)
    requires AllWithinPeaks(s, es[..|es| - 1], Run(s, es[..|es| - 1]).counts)
    requires Run(s, es[..|es| - 1]).counts.maxActive <= t.counts.maxActive
    requires Run(s, es[..|es| - 1]).counts.maxQueued <= t.counts.maxQueued
    ensures AllWithinPeaks(s, es, t.counts)
  {
    forall k | 0 <= k <= |es|
      ensures WithinPeaks(Run(s, es[..k]), t.counts)
    {
      if k == |es| {
        assert es[..k] == es;
      } else {
        assert es[..|es| - 1][..k] == es[..k];
        assert WithinPeaks(Run(s, es[..|es| - 1][..k]), Run(s, es[..|es| - 1]).counts);
      }
    }
  }

  lemma StepPeaks(s: PoolState, e: Event)
    requires WithinPeaks(s, s.counts)
    ensures var t := Step(s, e).0;
            && t.counts.maxActive == Max(s.counts.maxActive, |t.active|)
            && t.counts.maxQueued == Max(s.counts.maxQueued, |t.waiters|)
  {
  }

  ghost predicate Sorted(waiters: seq<Waiter>) {
    forall i, j :: 0 <= i < j < |waiters| ==> waiters[i].ticket < waiters[j].ticket
  }

  /** Replicas are free or leased, never both, and no replica has two leases. */
  ghost predicate ReplicasPartitioned(s: PoolState) {
    && s.available !! s.active
    && s.available + s.active == Indices(s.replicas)
    && s.leases == multiset(s.active)
    && |s.counts.workerRequests| == s.replicas
  }

  /** The counters agree with each other and with the leases. */
  ghost predicate CountersAgree(s: PoolState) {
    && s.counts.accepted == s.counts.completed + |s.active|
    && s.counts.accepted == Sum(s.counts.workerRequests)
    && |s.active| <= s.counts.maxActive
    && |s.waiters| <= s.counts.maxQueued <= s.maxQueue
  }

  ghost function Expired(fates: map<nat, Fate>): set<nat> {
    set t | t in fates && fates[t] == TimedOut
  }

  /** Every ticket issued has one fate, and waits exactly when it is in the queue. */
  ghost predicate FatesMatch(waiters: seq<Waiter>, nextTicket: nat, fates: map<nat, Fate>) {
    && Sorted(waiters)
    && (forall w <- waiters :: w.ticket < nextTicket)
    && (forall t: nat :: t in fates <==> t < nextTicket)
    && (forall t <- fates :: fates[t] == Waiting <==> IsWaiting(waiters, t))
  }

  ghost predicate GrantsRecorded(grants: seq<Waiter>, fates: map<nat, Fate>) {
    forall g <- grants :: g.ticket in fates && fates[g.ticket] == Granted
  }

  /** Grants to one tenant are in ticket order, and no earlier request of the tenant is still waiting. */
  ghost predicate TenantOrder(grants: seq<Waiter>, waiters: seq<Waiter>) {
    && (forall i, j :: 0 <= i < j < |grants| && grants[i].tenant == grants[j].tenant ==>
          grants[i].ticket < grants[j].ticket)
    && (forall g <- grants, w <- waiters :: g.tenant == w.tenant ==> g.ticket < w.ticket)
  }

  ghost predicate TicketsAccounted(s: PoolState) {
    && FatesMatch(s.waiters, s.nextTicket, s.fates)
    && GrantsRecorded(s.grants, s.fates)
    && s.counts.timedOut == |Expired(s.fates)|
  }

  ghost predicate Inv(s: PoolState) {
    ReplicasPartitioned(s) && CountersAgree(s) && TicketsAccounted(s) && TenantOrder(s.grants, s.waiters)
  }

  lemma InitInv(replicas: nat, maxQueue: nat)
    ensures Inv(Init(replicas, maxQueue))
  {
    SumZero(replicas);
    assert Expired(Init(replicas, maxQueue).fates) == {};
  }

  lemma AdmitKeeps(s: PoolState, tenant: Tenant, index: nat)
    requires ReplicasPartitioned(s) && CountersAgree(s) && index in s.available
    ensures index in s.available + s.active
    ensures ReplicasPartitioned(Admit(s, tenant, index)) && CountersAgree(Admit(s, tenant, index))
  {
    SumIncrement(s.counts.workerRequests, index);
    MoveReplica(s.available, s.active, index);
  }

  lemma MoveReplica(source: set<nat>, target: set<nat>, index: nat)
    requires source !! target && index in source
    ensures (source - {index}) !! (target + {index})
    ensures (source - {index}) + (target + {index}) == source + target
    ensures multiset(target + {index}) == multiset(target) + multiset{index}
    ensures multiset(source - {index}) == multiset(source) - multiset{index}
    ensures |target + {index}| == |target| + 1 && |source - {index}| == |source| - 1
  {
  }

  /** What leaving the queue does to it. */
  lemma WithoutTicketIsSub(waiters: seq<Waiter>, ticket: nat)
    requires Sorted(waiters)
    ensures Sorted(WithoutTicket(waiters, ticket))
    ensures forall w :: w in WithoutTicket(waiters, ticket) <==> w in waiters && w.ticket != ticket
    ensures forall t: nat :: IsWaiting(WithoutTicket(waiters, ticket), t) <==> IsWaiting(waiters, t) && t != ticket
    ensures |WithoutTicket(waiters, ticket)| <= |waiters|
  {
    var r := WithoutTicket(waiters, ticket);
    forall t: nat ensures IsWaiting(r, t) <==> IsWaiting(waiters, t) && t != ticket {
      WaitingMeansInQueue(waiters, t);
      WaitingMeansInQueue(r, t);
    }
  }

  lemma WaitingMeansInQueue(waiters: seq<Waiter>, ticket: nat)
    ensures IsWaiting(waiters, ticket) <==> exists w :: w in waiters && w.ticket == ticket
  {
    if IsWaiting(waiters, ticket) {
      assert waiters[IndexOf(waiters, ticket)] in waiters;
    }
  }

  lemma LeaveFates(waiters: seq<Waiter>, nextTicket: nat, fates: map<nat, Fate>, ticket: nat, fate: Fate)
    requires FatesMatch(waiters, nextTicket, fates) && IsWaiting(waiters, ticket) && fate != Waiting
    ensures ticket in fates && fates[ticket] == Waiting
    ensures FatesMatch(WithoutTicket(waiters, ticket), nextTicket, fates[ticket := fate])
    ensures |Expired(fates[ticket := fate])| == |Expired(fates)| + if fate == TimedOut then 1 else 0
  {
    TicketHasFate(waiters, nextTicket, fates, ticket);
    ExpiredAfter(fates, ticket, fate);
    FatesAfter(waiters, nextTicket, fates, ticket, fate);
  }

  lemma TicketHasFate(waiters: seq<Waiter>, nextTicket: nat, fates: map<nat, Fate>, ticket: nat)
    requires FatesMatch(waiters, nextTicket, fates) && IsWaiting(waiters, ticket)
    ensures ticket in fates && fates[ticket] == Waiting
  {
    WaitingMeansInQueue(waiters, ticket);
  }

  lemma FatesAfter(waiters: seq<Waiter>, nextTicket: nat, fates: map<nat, Fate>, ticket: nat, fate: Fate)
    requires FatesMatch(waiters, nextTicket, fates) && ticket in fates && fate != Waiting
    ensures FatesMatch(WithoutTicket(waiters, ticket), nextTicket, fates[ticket := fate])
  {
    WithoutTicketIsSub(waiters, ticket);
  }

  lemma ExpiredAfter(fates: map<nat, Fate>, ticket: nat, fate: Fate)
    requires ticket in fates && fates[ticket] == Waiting
    ensures |Expired(fates[ticket := fate])| == |Expired(fates)| + if fate == TimedOut then 1 else 0
  {
    assert Expired(fates[ticket := fate]) == if fate == TimedOut then Expired(fates) + {ticket} else Expired(fates);
  }

  lemma LeaveKeeps(s: PoolState, ticket: nat, fate: Fate)
    requires Inv(s) && IsWaiting(s.waiters, ticket) && fate != Waiting && fate != Granted
    ensures var t := Leave(s, ticket, fate);
            Inv(if fate == TimedOut then CountTimeout(t) else t)
  {
    LeaveKeepsTickets(s, ticket, fate);
    WithoutTicketIsSub(s.waiters, ticket);
  }

  lemma LeaveKeepsTickets(s: PoolState, ticket: nat, fate: Fate)
    requires TicketsAccounted(s) && IsWaiting(s.waiters, ticket) && fate != Waiting && fate != Granted
    ensures var t := Leave(s, ticket, fate);
            TicketsAccounted(if fate == TimedOut then CountTimeout(t) else t)
  {
    LeaveFates(s.waiters, s.nextTicket, s.fates, ticket, fate);
  }

  lemma EnqueueFates(waiters: seq<Waiter>, nextTicket: nat, fates: map<nat, Fate>, tenant: Tenant)
    requires FatesMatch(waiters, nextTicket, fates)
    ensures FatesMatch(waiters + [Waiter(nextTicket, tenant)], nextTicket + 1, fates[nextTicket := Waiting])
    ensures Expired(fates[nextTicket := Waiting]) == Expired(fates)
  {
    NewcomerWaits(waiters, Waiter(nextTicket, tenant));
  }

  lemma NewcomerWaits(waiters: seq<Waiter>, w: Waiter)
    ensures forall k: nat :: IsWaiting(waiters + [w], k) <==> IsWaiting(waiters, k) || k == w.ticket
  {
    forall k: nat ensures IsWaiting(waiters + [w], k) <==> IsWaiting(waiters, k) || k == w.ticket {
      WaitingMeansInQueue(waiters, k);
      WaitingMeansInQueue(waiters + [w], k);
    }
  }

  lemma EnqueueKeeps(s: PoolState, tenant: Tenant)
    requires Inv(s) && |s.waiters| < s.maxQueue
    ensures Inv(Enqueue(s, tenant))
  {
    EnqueueFates(s.waiters, s.nextTicket, s.fates, tenant);
  }

  /** The waiter served next is in the queue, and no earlier waiter belongs to its tenant. */
  lemma NextIsFirstOfItsTenant(waiters: seq<Waiter>, last: Tenant, ticket: nat)
    requires Sorted(waiters) && NextTicket(waiters, last) == Some(ticket)
    ensures IsWaiting(waiters, ticket) && IndexOf(waiters, ticket) == NextIndex(waiters, last)
    ensures var g := waiters[NextIndex(waiters, last)];
            forall w <- waiters :: w.tenant == g.tenant ==> g.ticket <= w.ticket
  {
    var k := NextIndex(waiters, last);
    PassedOver(waiters, last);
    assert waiters[k] in waiters;
    WaitingMeansInQueue(waiters, ticket);
  }

  lemma GrantOrder(grants: seq<Waiter>, waiters: seq<Waiter>, last: Tenant, ticket: nat)
    requires Sorted(waiters) && NextTicket(waiters, last) == Some(ticket) && TenantOrder(grants, waiters)
    ensures TenantOrder(grants + [waiters[NextIndex(waiters, last)]], WithoutTicket(waiters, ticket))
  {
    var x := waiters[NextIndex(waiters, last)];
    NextIsFirstOfItsTenant(waiters, last, ticket);
    assert x in waiters && x.ticket == ticket;
    RemovalKeepsOrder(grants, waiters, x);
  }

  lemma RemovalKeepsOrder(grants: seq<Waiter>, waiters: seq<Waiter>, x: Waiter)
    requires Sorted(waiters) && TenantOrder(grants, waiters) && x in waiters
    requires forall w <- waiters :: w.tenant == x.tenant ==> x.ticket <= w.ticket
    ensures TenantOrder(grants + [x], WithoutTicket(waiters, x.ticket))
  {
    var rest := WithoutTicket(waiters, x.ticket);
    assert forall w <- rest :: w in waiters && w.ticket != x.ticket by {
      WithoutTicketIsSub(waiters, x.ticket);
    }
    OrderedAppend(grants, x);
    forall g <- grants + [x], w <- rest | g.tenant == w.tenant ensures g.ticket < w.ticket {
      assert g in grants || g == x;
    }
  }

  lemma OrderedAppend(grants: seq<Waiter>, x: Waiter)
    requires forall i, j :: 0 <= i < j < |grants| && grants[i].tenant == grants[j].tenant ==>
               grants[i].ticket < grants[j].ticket
    requires forall g <- grants :: g.tenant == x.tenant ==> g.ticket < x.ticket
    ensures var more := grants + [x];
            forall i, j :: 0 <= i < j < |more| && more[i].tenant == more[j].tenant ==> more[i].ticket < more[j].ticket
  {
    assert forall i :: 0 <= i < |grants| ==> grants[i] in grants;
  }

  lemma GrantKeeps(s: PoolState, ticket: nat, preferred: Option<nat>)
    requires Inv(s) && s.available != {} && NextTicket(s.waiters, s.lastTenant) == Some(ticket)
    ensures IsWaiting(s.waiters, ticket) && Inv(Grant(s, ticket, preferred))
  {
    NextIsFirstOfItsTenant(s.waiters, s.lastTenant, ticket);
    var w := s.waiters[IndexOf(s.waiters, ticket)];
    var mid := Leave(s, ticket, Granted).(grants := s.grants + [w]);
    LeaveToGrantKeeps(s, ticket, w, mid);
    AdmitKeeps(mid, w.tenant, Select(s.available, preferred));
  }

  /** The waiter served next leaves the queue, and its grant is on record. */
  lemma LeaveToGrantKeeps(s: PoolState, ticket: nat, w: Waiter, mid: PoolState)
    requires Inv(s) && NextTicket(s.waiters, s.lastTenant) == Some(ticket)
    requires IsWaiting(s.waiters, ticket) && w == s.waiters[IndexOf(s.waiters, ticket)]
    requires mid == Leave(s, ticket, Granted).(grants := s.grants + [w])
    ensures Inv(mid)
  {
    NextIsFirstOfItsTenant(s.waiters, s.lastTenant, ticket);
    GrantOrder(s.grants, s.waiters, s.lastTenant, ticket);
    GrantedTickets(s, ticket, w, mid);
    ShorterQueueAgrees(s, mid);
  }

  lemma GrantedTickets(s: PoolState, ticket: nat, w: Waiter, mid: PoolState)
    requires TicketsAccounted(s) && IsWaiting(s.waiters, ticket) && w == s.waiters[IndexOf(s.waiters, ticket)]
    requires mid == Leave(s, ticket, Granted).(grants := s.grants + [w])
    ensures TicketsAccounted(mid) && |mid.waiters| <= |s.waiters|
  {
    LeaveFates(s.waiters, s.nextTicket, s.fates, ticket, Granted);
    OneMoreGrantRecorded(s.grants, s.fates, w);
    WithoutTicketIsSub(s.waiters, ticket);
  }

  lemma OneMoreGrantRecorded(grants: seq<Waiter>, fates: map<nat, Fate>, w: Waiter)
    requires GrantsRecorded(grants, fates)
    ensures GrantsRecorded(grants + [w], fates[w.ticket := Granted])
  {
  }

  lemma ShorterQueueAgrees(s: PoolState, mid: PoolState)
    requires CountersAgree(s) && mid.counts == s.counts && mid.active == s.active && mid.maxQueue == s.maxQueue
    requires |mid.waiters| <= |s.waiters|
    ensures CountersAgree(mid)
  {
  }

  lemma ReleaseKeeps(s: PoolState, index: nat)
    requires Inv(s) && index in s.active
    ensures Inv(Step(s, Release(index)).0)
  {
    MoveReplica(s.active, s.available, index);
  }

  lemma ArriveKeeps(s: PoolState, e: Event)
    requires Inv(s) && e.Arrive?
    ensures Inv(Step(s, e).0)
  {
    if !e.cancelled && !s.closed {
      if s.waiters != [] || s.available == {} {
        if |s.waiters| < s.maxQueue {
          EnqueueKeeps(s, e.tenant);
        }
      } else {
        AdmitKeeps(s, e.tenant, Select(s.available, e.preferred));
      }
    }
  }

  lemma PollKeeps(s: PoolState, e: Event)
    requires Inv(s) && e.Poll?
    ensures Inv(Step(s, e).0)
  {
    if IsWaiting(s.waiters, e.ticket) {
      if e.abandon {
        LeaveKeeps(s, e.ticket, Cancelled);
      } else if s.closed {
        LeaveKeeps(s, e.ticket, ClosedOut);
      } else if NextTicket(s.waiters, s.lastTenant) == Some(e.ticket) && s.available != {} {
        GrantKeeps(s, e.ticket, e.choice);
      } else if e.expired {
        LeaveKeeps(s, e.ticket, TimedOut);
      }
    }
  }

  lemma StepKeeps(s: PoolState, e: Event)
    requires Inv(s)
    ensures Inv(Step(s, e).0)
  {
    match e
    case Arrive(_, _, _) => ArriveKeeps(s, e);
    case Poll(_, _, _, _) => PollKeeps(s, e);
    case Release(index) =>
      if index in s.active {
        ReleaseKeeps(s, index);
      }
    case Close =>
    case TryCloseIdle =>
  }

  /** Safety of every run. */
  lemma {:induction false} RunKeeps(s: PoolState, es: seq<Event>)
    requires Inv(s)
    ensures Inv(Run(s, es))
  {
    if es != [] {
      RunKeeps(s, es[..|es| - 1]);
      StepKeeps(Run(s, es[..|es| - 1]), es[|es| - 1]);
    }
  }

  // ---------------------------------------------------------------- after closing

  /** `t` grew out of the closed pool `s` without admitting, queueing or granting anything. */
  ghost predicate OnlyDrains(s: PoolState, t: PoolState) {
    && t.closed && t.counts.accepted == s.counts.accepted && t.grants == s.grants && t.nextTicket == s.nextTicket
    && t.leases <= s.leases
    && (forall w <- t.waiters :: w in s.waiters)
  }

  lemma ClosedStepDrains(s: PoolState, e: Event)
    requires Sorted(s.waiters) && s.closed
    ensures OnlyDrains(s, Step(s, e).0)
  {
    if e.Poll? {
      WithoutTicketIsSub(s.waiters, e.ticket);
    }
  }

  /** Once the pool is closed no run admits, queues or grants anything, and leases only run out. */
  lemma {:induction false} NothingAfterClose(s: PoolState, es: seq<Event>)
    requires Inv(s) && s.closed
    ensures OnlyDrains(s, Run(s, es))
  {
    if es != [] {
      var m := Run(s, es[..|es| - 1]);
      NothingAfterClose(s, es[..|es| - 1]);
      RunKeeps(s, es[..|es| - 1]);
      ClosedStepDrains(m, es[|es| - 1]);
    }
  }

  /** A successful idle close leaves a pool that no request, admitted or queued, ever uses again. */
  lemma IdleCloseIsFinal(s: PoolState, c: PoolState, es: seq<Event>)
    requires Inv(s) && Step(s, TryCloseIdle) == (c, Done)
    ensures Unused(s, Run(c, es))
  {
    ClosesIdly(s, c);
    ClosingKeeps(s, c);
    IdleStaysUnused(c, es);
    UnusedSince(s, c, Run(c, es));
  }

  lemma ClosesIdly(s: PoolState, c: PoolState)
    requires Step(s, TryCloseIdle) == (c, Done)
    ensures c == s.(closed := true) && c.active == {} && c.waiters == []
  {
  }

  lemma UnusedSince(s: PoolState, c: PoolState, t: PoolState)
    requires c.counts == s.counts && Unused(c, t)
    ensures Unused(s, t)
  {
  }

  lemma ClosingKeeps(s: PoolState, c: PoolState)
    requires Inv(s) && c == s.(closed := true)
    ensures Inv(c)
  {
  }

  lemma IdleStaysUnused(c: PoolState, es: seq<Event>)
    requires Inv(c) && c.closed && c.active == {} && c.waiters == []
    ensures Unused(c, Run(c, es))
  {
    NothingAfterClose(c, es);
    RunKeeps(c, es);
    ClosedAndIdle(c, Run(c, es));
  }

  lemma ClosedAndIdle(c: PoolState, t: PoolState)
    requires Inv(c) && OnlyDrains(c, t) && c.active == {} && c.waiters == [] && Inv(t)
    ensures Unused(c, t)
  {
    DrainedFromIdle(c, t);
  }

  /** Nobody holds or waits for a replica, and nobody was admitted since `s`. */
  ghost predicate Unused(s: PoolState, t: PoolState) {
    t.active == {} && t.waiters == [] && t.counts.accepted == s.counts.accepted == t.counts.completed
  }

  lemma DrainedFromIdle(c: PoolState, t: PoolState)
    requires OnlyDrains(c, t) && c.active == {} && c.waiters == [] && c.leases == multiset(c.active)
    requires t.leases == multiset(t.active) && t.counts.accepted == t.counts.completed + |t.active|
    ensures Unused(c, t)
  {
    assert forall i <- t.active :: i in t.leases;
    if t.waiters != [] {
      FirstIsInQueue(t.waiters);
    }
  }

  lemma FirstIsInQueue(waiters: seq<Waiter>)
    requires waiters != []
    ensures waiters[0] in waiters
  {
  }

  /** While a replica is free and someone waits, the next waiter can be served: a turn of its loop leases it. */
  lemma NextWaiterIsServed(s: PoolState, choice: Option<nat>, expired: bool)
    requires Inv(s) && !s.closed && s.waiters != [] && s.available != {}
    ensures var ticket := s.waiters[NextIndex(s.waiters, s.lastTenant)].ticket;
            var (t, o) := Step(s, Poll(ticket, choice, false, expired));
            o.Lease? && o.index in s.available && o.index in t.active && t.fates[ticket] == Granted
  {
    NextIsFirstOfItsTenant(s.waiters, s.lastTenant, s.waiters[NextIndex(s.waiters, s.lastTenant)].ticket);
  }

  // ---------------------------------------------------------------- fairness

  function CountBelow(ws: seq<Waiter>, t: nat): nat {
    if ws == [] then 0 else CountBelow(ws[..|ws| - 1], t) + if ws[|ws| - 1].ticket < t then 1 else 0
  }

  function CountAbove(ws: seq<Waiter>, t: nat): nat {
    if ws == [] then 0 else CountAbove(ws[..|ws| - 1], t) + if ws[|ws| - 1].ticket > t then 1 else 0
  }

  lemma {:induction false} CountSplits(a: seq<Waiter>, b: seq<Waiter>, t: nat)
    ensures CountBelow(a + b, t) == CountBelow(a, t) + CountBelow(b, t)
  {
    if b == [] {
      assert a + b == a;
    } else {
      assert (a + b)[..|a + b| - 1] == a + b[..|b| - 1];
      CountSplits(a, b[..|b| - 1], t);
    }
  }

  lemma CountWithout(ws: seq<Waiter>, ticket: nat, t: nat)
    ensures CountBelow(WithoutTicket(ws, ticket), t)
            == CountBelow(ws, t) - if IsWaiting(ws, ticket) && ticket < t then 1 else 0
  {
    var k := IndexOf(ws, ticket);
    if k < |ws| {
      assert ws == ws[..k] + ([ws[k]] + ws[k + 1..]);
      CountSplits(ws[..k], [ws[k]] + ws[k + 1..], t);
      CountSplits([ws[k]], ws[k + 1..], t);
      CountSplits(ws[..k], ws[k + 1..], t);
      assert [ws[k]][..0] == [];
    }
  }

  lemma {:induction false} CountAll(ws: seq<Waiter>, t: nat)
    requires forall w <- ws :: w.ticket != t
    ensures CountBelow(ws, t) + CountAbove(ws, t) == |ws|
  {
    if ws != [] {
      assert ws[|ws| - 1] in ws;
      CountAll(ws[..|ws| - 1], t);
    }
  }

  /** The position of a queued waiter is the number of smaller tickets in the queue. */
  lemma {:induction false} PositionIsCount(ws: seq<Waiter>, p: nat, n: nat)
    requires Sorted(ws) && p < |ws| && n <= |ws|
    ensures CountBelow(ws[..n], ws[p].ticket) == Min(n, p)
  {
    if n > 0 {
      PositionIsCount(ws, p, n - 1);
      assert ws[..n][..n - 1] == ws[..n - 1];
    }
  }

  /** Nothing was granted, and no one got ahead of `w`. */
  ghost predicate NoneServed(s: PoolState, t: PoolState, w: Waiter) {
    && t.grants == s.grants && t.lastTenant == s.lastTenant
    && CountBelow(t.waiters, w.ticket) <= CountBelow(s.waiters, w.ticket)
  }

  /**
   Another waiter `g` was served; and if it was behind `w`, then `w` and everyone
   else before `g` belong to the tenant served last.
   */
  ghost predicate OtherServed(s: PoolState, t: PoolState, w: Waiter, g: Waiter) {
    && g in s.waiters && g.ticket != w.ticket
    && t.grants == s.grants + [g] && t.lastTenant == g.tenant
    && CountBelow(t.waiters, w.ticket) == CountBelow(s.waiters, w.ticket) - (if g.ticket < w.ticket then 1 else 0)
    && (g.ticket > w.ticket ==>
          && g.tenant != s.lastTenant
          && forall v <- s.waiters :: v.ticket < g.ticket ==> v.tenant == s.lastTenant)
  }

  /** What one step can do to the queue around a waiter that keeps waiting. */
  lemma StepAround(s: PoolState, e: Event, w: Waiter) returns (granted: Option<Waiter>)
    requires Inv(s) && w in s.waiters && w in Step(s, e).0.waiters
    ensures granted.None? ==> NoneServed(s, Step(s, e).0, w)
    ensures granted.Some? ==> OtherServed(s, Step(s, e).0, w, granted.value)
    ensures forall v <- Step(s, e).0.waiters :: v in s.waiters || v.ticket > w.ticket
  {
    if e.Poll? {
      granted := PollAround(s, e, w);
    } else {
      granted := None;
      OtherStepAround(s, e, w);
    }
  }

  /** What one step did, seen from a waiter that goes on waiting: whom it served, and that newcomers are behind. */
  ghost predicate Around(s: PoolState, t: PoolState, w: Waiter, granted: Option<Waiter>) {
    && (granted.None? ==> NoneServed(s, t, w))
    && (granted.Some? ==> OtherServed(s, t, w, granted.value))
    && forall v <- t.waiters :: v in s.waiters || v.ticket > w.ticket
  }

  lemma PollAround(s: PoolState, e: Event, w: Waiter) returns (granted: Option<Waiter>)
    requires Inv(s) && e.Poll? && w in s.waiters && w in Step(s, e).0.waiters
    ensures Around(s, Step(s, e).0, w, granted)
  {
    granted := None;
    if IsWaiting(s.waiters, e.ticket) {
      LeaveAround(s, e.ticket, w);
      if !e.abandon && !s.closed && NextTicket(s.waiters, s.lastTenant) == Some(e.ticket) && s.available != {} {
        granted := Some(s.waiters[IndexOf(s.waiters, e.ticket)]);
        ServedAround(s, e.ticket, e.choice, w);
      }
    }
  }

  lemma OtherStepAround(s: PoolState, e: Event, w: Waiter)
    requires Inv(s) && !e.Poll? && w in s.waiters
    ensures Around(s, Step(s, e).0, w, None)
  {
    if e.Arrive? {
      EnqueueAround(s, e.tenant, w);
    }
  }

  lemma EnqueueAround(s: PoolState, tenant: Tenant, w: Waiter)
    requires Inv(s) && w in s.waiters
    ensures CountBelow(Enqueue(s, tenant).waiters, w.ticket) == CountBelow(s.waiters, w.ticket)
    ensures forall v <- Enqueue(s, tenant).waiters :: v in s.waiters || v.ticket > w.ticket
  {
    var last := [Waiter(s.nextTicket, tenant)];
    CountSplits(s.waiters, last, w.ticket);
    assert last[..0] == [];
  }

  lemma LeaveAround(s: PoolState, ticket: nat, w: Waiter)
    requires Inv(s) && IsWaiting(s.waiters, ticket)
    ensures forall v <- WithoutTicket(s.waiters, ticket) :: v in s.waiters && v.ticket != ticket
    ensures CountBelow(WithoutTicket(s.waiters, ticket), w.ticket)
            == CountBelow(s.waiters, w.ticket) - if ticket < w.ticket then 1 else 0
  {
    WithoutTicketIsSub(s.waiters, ticket);
    CountWithout(s.waiters, ticket, w.ticket);
  }

  lemma ServedAround(s: PoolState, ticket: nat, choice: Option<nat>, w: Waiter)
    requires Inv(s) && w in s.waiters && s.available != {} && NextTicket(s.waiters, s.lastTenant) == Some(ticket)
    requires IsWaiting(s.waiters, ticket) && ticket != w.ticket
    requires CountBelow(WithoutTicket(s.waiters, ticket), w.ticket)
             == CountBelow(s.waiters, w.ticket) - if ticket < w.ticket then 1 else 0
    ensures OtherServed(s, Grant(s, ticket, choice), w, s.waiters[IndexOf(s.waiters, ticket)])
  {
    NextIsFirstOfItsTenant(s.waiters, s.lastTenant, ticket);
    OvertakesOneTenant(s.waiters, s.lastTenant, ticket, w);
  }

  lemma OvertakesOneTenant(waiters: seq<Waiter>, last: Tenant, ticket: nat, w: Waiter)
    requires Sorted(waiters) && w in waiters && NextTicket(waiters, last) == Some(ticket)
    ensures ticket > w.ticket ==>
              && waiters[NextIndex(waiters, last)].tenant != last
              && forall v <- waiters :: v.ticket < ticket ==> v.tenant == last
  {
    PassedOver(waiters, last);
  }

  /** The grants made since `s0`. */
  function Since(s0: PoolState, s: PoolState): seq<Waiter> {
    if |s0.grants| <= |s.grants| then s.grants[|s0.grants|..] else []
  }

  /**
   The bypass argument.  Someone behind `w` is served only when `w` belongs to
   the tenant served last, and the next grant then goes to `w` or ahead of it: so
   grants behind never exceed grants ahead by more than one.
   */
  ghost predicate Bypassed(s0: PoolState, s: PoolState, w: Waiter, p: nat) {
    var since := Since(s0, s);
    && s0.grants <= s.grants
    && w in s.waiters
    && CountAbove(since, w.ticket) <= CountBelow(since, w.ticket) + (if s.lastTenant != w.tenant then 1 else 0)
    && CountBelow(since, w.ticket) + CountBelow(s.waiters, w.ticket) <= p
  }

  lemma BypassedByNone(s0: PoolState, s: PoolState, t: PoolState, w: Waiter, p: nat)
    requires Bypassed(s0, s, w, p) && NoneServed(s, t, w) && w in t.waiters
    ensures Bypassed(s0, t, w, p)
  {
  }

  lemma BypassedByOther(s0: PoolState, s: PoolState, t: PoolState, w: Waiter, p: nat, g: Waiter)
    requires Bypassed(s0, s, w, p) && OtherServed(s, t, w, g) && w in t.waiters
    ensures Bypassed(s0, t, w, p)
  {
    assert Since(s0, t) == Since(s0, s) + [g];
    assert Since(s0, t)[..|Since(s0, t)| - 1] == Since(s0, s);
  }

  lemma BypassedStep(s0: PoolState, s: PoolState, e: Event, w: Waiter, p: nat)
    requires Inv(s) && Bypassed(s0, s, w, p) && w in Step(s, e).0.waiters
    ensures Bypassed(s0, Step(s, e).0, w, p)
  {
    var granted := StepAround(s, e, w);
    if granted.Some? {
      BypassedByOther(s0, s, Step(s, e).0, w, p, granted.value);
    } else {
      BypassedByNone(s0, s, Step(s, e).0, w, p);
    }
  }

  /** Tickets do not come back: whoever waits after a step and is not new was waiting before it. */
  lemma WaitedBefore(s: PoolState, e: Event, w: Waiter)
    requires Sorted(s.waiters) && w in Step(s, e).0.waiters && w.ticket < s.nextTicket
    ensures w in s.waiters
  {
    match e
    case Arrive(tenant, _, _) => assert w in Enqueue(s, tenant).waiters ==> w in s.waiters;
    case Poll(ticket, _, _, _) => WithoutTicketIsSub(s.waiters, ticket);
    case Release(_) =>
    case Close =>
    case TryCloseIdle =>
  }

  lemma NextTicketGrows(s: PoolState, e: Event)
    ensures Step(s, e).0.nextTicket >= s.nextTicket
  {
  }

  lemma {:induction false} BypassedRun(s0: PoolState, es: seq<Event>, w: Waiter, p: nat)
    requires Inv(s0) && w in s0.waiters && CountBelow(s0.waiters, w.ticket) <= p
    requires w in Run(s0, es).waiters
    ensures Bypassed(s0, Run(s0, es), w, p)
  {
    if es != [] {
      var before := es[..|es| - 1];
      var s := Run(s0, before);
      RunKeeps(s0, before);
      RunTicketsGrow(s0, before);
      WaitedBefore(s, es[|es| - 1], w);
      BypassedRun(s0, before, w, p);
      BypassedStep(s0, s, es[|es| - 1], w, p);
    }
  }

  lemma {:induction false} RunTicketsGrow(s: PoolState, es: seq<Event>)
    ensures Run(s, es).nextTicket >= s.nextTicket
  {
    if es != [] {
      RunTicketsGrow(s, es[..|es| - 1]);
      NextTicketGrows(Run(s, es[..|es| - 1]), es[|es| - 1]);
    }
  }

  /** While someone waits, one step admits a request only by granting a ticket: no newcomer gets a lease directly. */
  lemma AdmitsOnlyByGrant(s: PoolState, e: Event)
    requires s.waiters != []
    ensures Step(s, e).0.counts.accepted - s.counts.accepted == |Step(s, e).0.grants| - |s.grants|
  {
  }

  /** Over any run, as long as one request waits, the leases are the queue grants. */
  lemma {:induction false} NobodyBarges(s0: PoolState, es: seq<Event>, w: Waiter)
    requires Inv(s0) && w in s0.waiters && w in Run(s0, es).waiters
    ensures Run(s0, es).counts.accepted - s0.counts.accepted == |Run(s0, es).grants| - |s0.grants|
  {
    if es != [] {
      var before := es[..|es| - 1];
      RunKeeps(s0, before);
      RunTicketsGrow(s0, before);
      WaitedBefore(Run(s0, before), es[|es| - 1], w);
      NobodyBarges(s0, before, w);
      AdmitsOnlyByGrant(Run(s0, before), es[|es| - 1]);
    }
  }

  /**
   Bounded bypass: with `p` waiters ahead, at most `2p + 1` queue grants are made while `w` keeps waiting,
   and no other request is admitted at all.
   */
  lemma BoundedBypass(s0: PoolState, es: seq<Event>, p: nat)
    requires Inv(s0) && p < |s0.waiters|
    requires s0.waiters[p] in Run(s0, es).waiters
    ensures s0.grants <= Run(s0, es).grants
    ensures |Run(s0, es).grants| - |s0.grants| <= 2 * p + 1
    ensures Run(s0, es).counts.accepted - s0.counts.accepted == |Run(s0, es).grants| - |s0.grants|
  {
    BypassIsBounded(s0, es, p);
    NobodyBarges(s0, es, s0.waiters[p]);
  }

  lemma BypassIsBounded(s0: PoolState, es: seq<Event>, p: nat)
    requires Inv(s0) && p < |s0.waiters|
    requires s0.waiters[p] in Run(s0, es).waiters
    ensures s0.grants <= Run(s0, es).grants
    ensures |Run(s0, es).grants| - |s0.grants| <= 2 * p + 1
  {
    var w := s0.waiters[p];
    PositionIsCount(s0.waiters, p, |s0.waiters|);
    assert s0.waiters[..|s0.waiters|] == s0.waiters;
    BypassedRun(s0, es, w, p);
    var s := Run(s0, es);
    RunKeeps(s0, es);
    var since := Since(s0, s);
    forall g <- since ensures g.ticket != w.ticket {
      assert g in s.grants;
      WaitingMeansInQueue(s.waiters, w.ticket);
    }
    CountAll(since, w.ticket);
  }

  /**
   The bound, for a waiter that is served: at most `2p + 1` grants
   go to others between its place at `p` and its own.
   */
  lemma BoundedBypassUntilServed(s0: PoolState, es: seq<Event>, e: Event, p: nat)
    requires Inv(s0) && p < |s0.waiters|
    requires s0.waiters[p] in Run(s0, es).waiters
    requires var s := Run(s0, es); Step(s, e).0.grants == s.grants + [s0.waiters[p]]
    ensures var t := Run(s0, es + [e]);
            t.grants[|t.grants| - 1] == s0.waiters[p] && |t.grants| - 1 - |s0.grants| <= 2 * p + 1
  {
    BoundedBypass(s0, es, p);
    assert (es + [e])[..|es + [e]| - 1] == es;
  }

  // ---------------------------------------------------------------- one tenant's burst

  /**
   Everyone ahead of `w` belongs to the tenant `x`; and once
   somebody was served, `w` is next.
   */
  ghost predicate BurstAhead(s0: PoolState, s: PoolState, w: Waiter, x: Tenant) {
    && s0.grants <= s.grants
    && w in s.waiters && w.tenant != x
    && (forall v <- s.waiters :: v.ticket < w.ticket ==> v.tenant == x)
    && |s.grants| - |s0.grants| <= 1
    && (|s.grants| - |s0.grants| == 1 ==>
          && s.lastTenant != w.tenant
          && (s.lastTenant == x || forall v <- s.waiters :: v.ticket >= w.ticket))
  }

  lemma NextInBurst(s: PoolState, w: Waiter, x: Tenant, ticket: nat)
    requires Inv(s) && w in s.waiters && w.tenant != x
    requires forall v <- s.waiters :: v.ticket < w.ticket ==> v.tenant == x
    requires s.lastTenant != w.tenant && (s.lastTenant == x || forall v <- s.waiters :: v.ticket >= w.ticket)
    requires NextTicket(s.waiters, s.lastTenant) == Some(ticket)
    ensures ticket == w.ticket
  {
    var k := NextIndex(s.waiters, s.lastTenant);
    PassedOver(s.waiters, s.lastTenant);
    assert s.waiters[k] in s.waiters;
    var j :| 0 <= j < |s.waiters| && s.waiters[j] == w;
    assert s.waiters[k].ticket < w.ticket || k >= j;
  }

  lemma BurstStep(s0: PoolState, s: PoolState, e: Event, w: Waiter, x: Tenant)
    requires Inv(s) && BurstAhead(s0, s, w, x) && w in Step(s, e).0.waiters
    ensures BurstAhead(s0, Step(s, e).0, w, x)
  {
    var granted := StepAround(s, e, w);
    if granted.Some? {
      if |s.grants| - |s0.grants| == 1 {
        GrantIsNext(s, e, granted.value);
        NextInBurst(s, w, x, granted.value.ticket);
      } else {
        FirstOfBurst(s0, s, Step(s, e).0, w, x, granted.value);
      }
    }
  }

  lemma FirstOfBurst(s0: PoolState, s: PoolState, t: PoolState, w: Waiter, x: Tenant, g: Waiter)
    requires BurstAhead(s0, s, w, x) && OtherServed(s, t, w, g) && |s.grants| == |s0.grants| && w in t.waiters
    requires forall v <- t.waiters :: v in s.waiters || v.ticket > w.ticket
    ensures BurstAhead(s0, t, w, x)
  {
  }

  /** Whoever a step serves is the next waiter. */
  lemma GrantIsNext(s: PoolState, e: Event, g: Waiter)
    requires Step(s, e).0.grants == s.grants + [g]
    ensures NextTicket(s.waiters, s.lastTenant) == Some(g.ticket)
  {
    assert |Step(s, e).0.grants| == |s.grants| + 1;
    assert e.Poll?;
    assert Step(s, e).0.grants[|s.grants|] == s.waiters[IndexOf(s.waiters, e.ticket)];
  }

  lemma {:induction false} BurstRun(s0: PoolState, es: seq<Event>, w: Waiter, x: Tenant)
    requires Inv(s0) && w in s0.waiters && w.tenant != x
    requires forall v <- s0.waiters :: v.ticket < w.ticket ==> v.tenant == x
    requires w in Run(s0, es).waiters
    ensures BurstAhead(s0, Run(s0, es), w, x)
  {
    if es != [] {
      var before := es[..|es| - 1];
      var s := Run(s0, before);
      RunKeeps(s0, before);
      RunTicketsGrow(s0, before);
      WaitedBefore(s, es[|es| - 1], w);
      BurstRun(s0, before, w, x);
      BurstStep(s0, s, es[|es| - 1], w, x);
    }
  }

  /** However long one tenant's burst ahead of a waiter of another tenant, at most one queue grant precedes it. */
  lemma BurstDelaysByOne(s0: PoolState, es: seq<Event>, p: nat, x: Tenant)
    requires Inv(s0) && p < |s0.waiters| && s0.waiters[p].tenant != x
    requires forall i :: 0 <= i < p ==> s0.waiters[i].tenant == x
    requires s0.waiters[p] in Run(s0, es).waiters
    ensures |Run(s0, es).grants| - |s0.grants| <= 1
  {
    BurstRun(s0, es, s0.waiters[p], x);
  }

  /** Two requests of one tenant are never served out of ticket order, in any run of a new pool. */
  lemma TenantsAreServedInOrder(replicas: nat, maxQueue: nat, es: seq<Event>, i: nat, j: nat)
    requires var g := Run(Init(replicas, maxQueue), es).grants; i < j < |g| && g[i].tenant == g[j].tenant
    ensures var g := Run(Init(replicas, maxQueue), es).grants; g[i].ticket < g[j].ticket
  {
    InitInv(replicas, maxQueue);
    RunKeeps(Init(replicas, maxQueue), es);
  }

  // ---------------------------------------------------------------- what fairness does not promise

  /** A queue of `n` requests of `a`, then `n` of `c`, then one of another tenant. */
  ghost predicate TwoBursts(ws: seq<Waiter>, n: nat, a: Tenant, c: Tenant) {
    && |ws| == 2 * n + 1
    && (forall i :: 0 <= i < n ==> ws[i].tenant == a)
    && (forall i :: n <= i < 2 * n ==> ws[i].tenant == c)
    && ws[2 * n].tenant != a && ws[2 * n].tenant != c
  }

  lemma FirstOtherIs(ws: seq<Waiter>, last: Tenant, i: nat, k: nat)
    requires i <= k < |ws| && ws[k].tenant != last
    requires forall j :: i <= j < k ==> ws[j].tenant == last
    ensures FirstOther(ws, last, i) == k
    decreases k - i
  {
  }

  lemma NamedTenant(ws: seq<Waiter>, i: nat, j: nat)
    requires i < |ws| && j < |ws| && ws[i].tenant != ws[j].tenant
    ensures !AllAnonymous(ws)
  {
    assert ws[i] in ws && ws[j] in ws;
  }

  function RemoveAt(ws: seq<Waiter>, k: nat): (r: seq<Waiter>)
    requires k < |ws|
    ensures |r| == |ws| - 1
  {
    ws[..k] + ws[k + 1..]
  }

  /** The order in which a queue is served when nothing else happens to it. */
  function Served(ws: seq<Waiter>, last: Tenant): (r: seq<Waiter>)
    ensures |r| == |ws|
    decreases |ws|
  {
    if ws == [] then []
    else
      var k := NextIndex(ws, last);
      [ws[k]] + Served(RemoveAt(ws, k), ws[k].tenant)
  }

  /** Two turns of serving: first the waiter at `j`, then the one at `k` of what is left. */
  ghost predicate TwoTurns(ws: seq<Waiter>, last: Tenant, j: nat, k: nat, rest: seq<Waiter>) {
    && j < |ws| && NextIndex(ws, last) == j
    && k < |ws| - 1 && NextIndex(RemoveAt(ws, j), ws[j].tenant) == k
    && rest == RemoveAt(RemoveAt(ws, j), k)
  }

  lemma ServedTwo(ws: seq<Waiter>, last: Tenant, j: nat, k: nat, rest: seq<Waiter>, i: nat)
    requires TwoTurns(ws, last, j, k, rest) && 2 <= i < |ws|
    ensures Served(ws, last)[i] == Served(rest, RemoveAt(ws, j)[k].tenant)[i - 2]
  {
  }

  lemma TwoBurstsTurn(ws: seq<Waiter>, n: nat, a: Tenant, c: Tenant, last: Tenant) returns (rest: seq<Waiter>)
    requires TwoBursts(ws, n, a, c) && a != c && last != a && n > 0
    ensures TwoTurns(ws, last, 0, n - 1, rest) && RemoveAt(ws, 0)[n - 1].tenant == c
    ensures TwoBursts(rest, n - 1, a, c) && rest[2 * (n - 1)] == ws[2 * n]
  {
    FirstOtherIs(ws, last, 0, 0);
    var ws1 := RemoveAt(ws, 0);
    FirstOtherIs(ws1, a, 0, n - 1);
    NamedTenant(ws1, n - 1, 2 * n - 1);
    rest := RemoveAt(ws1, n - 1);
    WithoutHeads(ws, n, rest);
  }

  /** What is left when the heads of two bursts have gone. */
  lemma WithoutHeads(ws: seq<Waiter>, n: nat, rest: seq<Waiter>)
    requires 0 < n && |ws| == 2 * n + 1 && rest == RemoveAt(RemoveAt(ws, 0), n - 1)
    ensures |rest| == 2 * n - 1
    ensures forall i :: 0 <= i < n - 1 ==> rest[i] == ws[i + 1]
    ensures forall i :: n - 1 <= i < 2 * n - 1 ==> rest[i] == ws[i + 2]
  {
  }

  /** The bursts alternate, and the third tenant is served after both whole bursts. */
  lemma {:induction false} TwoBurstsOrder(ws: seq<Waiter>, n: nat, a: Tenant, c: Tenant, last: Tenant)
    requires TwoBursts(ws, n, a, c) && a != c && last != a
    ensures Served(ws, last)[2 * n] == ws[2 * n]
    decreases n
  {
    if n > 0 {
      var rest := TwoBurstsTurn(ws, n, a, c, last);
      ServedTwo(ws, last, 0, n - 1, rest, 2 * n);
      TwoBurstsOrder(rest, n - 1, a, c, c);
    }
  }

  /** One tenant's `n` requests, then another's `n`. */
  ghost predicate Halves(ws: seq<Waiter>, n: nat, x: Tenant, c: Tenant) {
    |ws| == 2 * n && forall i :: 0 <= i < |ws| ==> ws[i].tenant == if i < n then x else c
  }

  lemma HalvesTurn(ws: seq<Waiter>, n: nat, x: Tenant, c: Tenant) returns (rest: seq<Waiter>)
    requires Halves(ws, n, x, c) && x != c && n > 1
    ensures TwoTurns(ws, x, n, 0, rest) && RemoveAt(ws, n)[0].tenant == x
    ensures Halves(rest, n - 1, x, c) && rest[n - 2] == ws[n - 1]
  {
    FirstOtherIs(ws, x, 0, n);
    NamedTenant(ws, n - 1, n);
    var ws1 := RemoveAt(ws, n);
    FirstOtherIs(ws1, c, 0, 0);
    rest := RemoveAt(ws1, 0);
  }

  /** The tenants alternate, so the last of the first half is served last but one of them all. */
  lemma {:induction false} HalvesOrder(ws: seq<Waiter>, p: nat, x: Tenant, c: Tenant)
    requires Halves(ws, p + 1, x, c) && x != c
    ensures Served(ws, x)[2 * p + 1] == ws[p]
    decreases p
  {
    if p > 0 {
      var rest := HalvesTurn(ws, p + 1, x, c);
      ServedTwo(ws, x, p + 1, 0, rest, 2 * p + 1);
      HalvesOrder(rest, p - 1, x, c);
    } else {
      LastOfHalves(ws, x, c);
    }
  }

  lemma LastOfHalves(ws: seq<Waiter>, x: Tenant, c: Tenant)
    requires Halves(ws, 1, x, c) && x != c
    ensures Served(ws, x)[1] == ws[0]
  {
    FirstOtherIs(ws, x, 0, 1);
    NamedTenant(ws, 0, 1);
    assert Served(ws, x)[1] == Served(RemoveAt(ws, 1), c)[0];
  }

  // ---------------------------------------------------------------- turns of the queue as runs of the pool

  lemma {:induction false} RunTwice(s: PoolState, a: seq<Event>, b: seq<Event>)
    ensures Run(s, a + b) == Run(Run(s, a), b)
  {
    if b == [] {
      assert a + b == a;
    } else {
      assert (a + b)[..|a + b| - 1] == a + b[..|b| - 1];
      RunTwice(s, a, b[..|b| - 1]);
    }
  }

  lemma RunOne(s: PoolState, e: Event)
    ensures Run(s, [e]) == Step(s, e).0
  {
    assert [e][..0] == [];
    assert Run(s, [e][..0]) == s;
  }

  /** An open pool with replicas, in a state a run can reach. */
  ghost predicate Serving(s: PoolState) {
    Inv(s) && !s.closed && s.replicas > 0
  }

  /** The same queue, about to be served in the same way. */
  ghost predicate SameQueue(s: PoolState, t: PoolState) {
    t.waiters == s.waiters && t.lastTenant == s.lastTenant && t.grants == s.grants && t.maxQueue == s.maxQueue
  }

  /** If no replica is free, one can be given back. */
  lemma FreeReplica(s: PoolState) returns (es: seq<Event>)
    requires Serving(s)
    ensures Serving(Run(s, es)) && SameQueue(s, Run(s, es)) && Run(s, es).available != {}
  {
    if s.available != {} {
      es := [];
    } else {
      assert 0 in s.available + s.active;
      es := [Release(0)];
      RunOne(s, Release(0));
      StepKeeps(s, Release(0));
    }
  }

  /** The next waiter, and nobody else, has been served. */
  ghost predicate Turned(s: PoolState, t: PoolState)
    requires s.waiters != []
  {
    var k := NextIndex(s.waiters, s.lastTenant);
    && t.grants == s.grants + [s.waiters[k]]
    && t.waiters == RemoveAt(s.waiters, k)
    && t.lastTenant == s.waiters[k].tenant
    && t.maxQueue == s.maxQueue
  }

  lemma IndexOfNth(ws: seq<Waiter>, k: nat)
    requires Sorted(ws) && k < |ws|
    ensures IndexOf(ws, ws[k].ticket) == k
  {
  }

  lemma PollTurns(s: PoolState) returns (e: Event)
    requires Serving(s) && s.waiters != [] && s.available != {}
    ensures Serving(Step(s, e).0) && Turned(s, Step(s, e).0)
  {
    var ticket := s.waiters[NextIndex(s.waiters, s.lastTenant)].ticket;
    e := Poll(ticket, None, false, false);
    GrantTurns(s, ticket);
    StepKeeps(s, e);
    assert Step(s, e).0 == Grant(s, ticket, None);
  }

  lemma GrantTurns(s: PoolState, ticket: nat)
    requires Sorted(s.waiters) && s.waiters != [] && s.available != {}
    requires ticket == s.waiters[NextIndex(s.waiters, s.lastTenant)].ticket
    ensures IsWaiting(s.waiters, ticket) && Turned(s, Grant(s, ticket, None))
  {
    IndexOfNth(s.waiters, NextIndex(s.waiters, s.lastTenant));
  }

  /** The next waiter can always be served: some run does just that. */
  lemma NextTurn(s: PoolState) returns (es: seq<Event>)
    requires Serving(s) && s.waiters != []
    ensures Serving(Run(s, es)) && Turned(s, Run(s, es))
  {
    var free := FreeReplica(s);
    var poll := PollTurns(Run(s, free));
    es := free + [poll];
    RunTwice(s, free, [poll]);
    RunOne(Run(s, free), poll);
  }

  /** Serving a queue to its end is a run of the pool. */
  lemma {:induction false} ServedIsARun(s: PoolState) returns (es: seq<Event>)
    requires Serving(s)
    ensures Run(s, es).grants == s.grants + Served(s.waiters, s.lastTenant)
    decreases |s.waiters|
  {
    if s.waiters == [] {
      es := [];
      assert s.grants + [] == s.grants;
    } else {
      var first := NextTurn(s);
      var rest := ServedIsARun(Run(s, first));
      es := first + rest;
      RunTwice(s, first, rest);
      FirstServed(s, Run(s, first));
    }
  }

  lemma FirstServed(s: PoolState, t: PoolState)
    requires s.waiters != [] && Turned(s, t)
    ensures t.grants + Served(t.waiters, t.lastTenant) == s.grants + Served(s.waiters, s.lastTenant)
  {
  }

  /** Since `s`, exactly `i` grants were made before the one to `w`. */
  ghost predicate GrantedAfter(s: PoolState, t: PoolState, i: nat, w: Waiter) {
    s.grants <= t.grants && |s.grants| + i < |t.grants| && t.grants[|s.grants| + i] == w
  }

  lemma NthGrant(s: PoolState, t: PoolState, order: seq<Waiter>, i: nat)
    requires t.grants == s.grants + order && i < |order|
    ensures GrantedAfter(s, t, i, order[i])
  {
  }

  /**
   Service is not round robin over three tenants.  Of two bursts and a third tenant behind them, a run of the
   pool serves the third tenant only after both whole bursts, of any length.
   */
  lemma TwoBurstsGoFirst(s: PoolState, n: nat, a: Tenant, c: Tenant) returns (es: seq<Event>)
    requires Serving(s) && TwoBursts(s.waiters, n, a, c) && a != c && s.lastTenant != a
    ensures GrantedAfter(s, Run(s, es), 2 * n, s.waiters[2 * n])
  {
    TwoBurstsOrder(s.waiters, n, a, c, s.lastTenant);
    es := ServedIsARun(s);
    NthGrant(s, Run(s, es), Served(s.waiters, s.lastTenant), 2 * n);
  }

  /**
   The bypass bound is reached, for every number `p` of waiters ahead: behind `p` requests of its own tenant, which
   was served last, and before `p + 1` of another tenant, a run makes exactly `2p + 1` grants to others first.
   */
  lemma BypassBoundIsTight(s: PoolState, p: nat, x: Tenant, c: Tenant) returns (es: seq<Event>)
    requires Serving(s) && Halves(s.waiters, p + 1, x, c) && x != c && s.lastTenant == x
    ensures GrantedAfter(s, Run(s, es), 2 * p + 1, s.waiters[p])
  {
    HalvesOrder(s.waiters, p, x, c);
    es := ServedIsARun(s);
    NthGrant(s, Run(s, es), Served(s.waiters, x), 2 * p + 1);
  }

  // ---------------------------------------------------------------- every queue can arise

  /** One replica, leased to a request of `first`, and behind it a queue of the given tenants. */
  ghost predicate Lined(s: PoolState, first: Tenant, tenants: seq<Tenant>, maxQueue: nat) {
    && Serving(s) && s.maxQueue == maxQueue && s.available == {} && s.lastTenant == first
    && |s.waiters| == |tenants| && forall i :: 0 <= i < |tenants| ==> s.waiters[i].tenant == tenants[i]
  }

  lemma FirstLease(first: Tenant, maxQueue: nat)
    ensures Lined(Run(Init(1, maxQueue), [Arrive(first, None, false)]), first, [], maxQueue)
  {
    var s, e := Init(1, maxQueue), Arrive(first, None, false);
    InitInv(1, maxQueue);
    RunOne(s, e);
    StepKeeps(s, e);
    assert Indices(1) == {0};
  }

  lemma JoinLine(s: PoolState, first: Tenant, tenants: seq<Tenant>, x: Tenant, maxQueue: nat) returns (t: PoolState)
    requires Lined(s, first, tenants, maxQueue) && |tenants| < maxQueue
    ensures t == Step(s, Arrive(x, None, false)).0 && Lined(t, first, tenants + [x], maxQueue)
  {
    t := Step(s, Arrive(x, None, false)).0;
    StepKeeps(s, Arrive(x, None, false));
  }

  lemma SplitLast(tenants: seq<Tenant>)
    requires tenants != []
    ensures tenants == tenants[..|tenants| - 1] + [tenants[|tenants| - 1]]
  {
  }

  lemma {:induction false} LineGrows(s: PoolState, first: Tenant, tenants: seq<Tenant>, maxQueue: nat)
    returns (es: seq<Event>, t: PoolState)
    requires Lined(s, first, [], maxQueue) && |tenants| <= maxQueue
    ensures t == Run(s, es) && Lined(t, first, tenants, maxQueue)
  {
    if tenants == [] {
      es, t := [], s;
    } else {
      var n := |tenants| - 1;
      var before, mid := LineGrows(s, first, tenants[..n], maxQueue);
      t := JoinLine(mid, first, tenants[..n], tenants[n], maxQueue);
      SplitLast(tenants);
      es := before + [Arrive(tenants[n], None, false)];
      RunTwice(s, before, [Arrive(tenants[n], None, false)]);
      RunOne(mid, Arrive(tenants[n], None, false));
    }
  }

  /** In a new pool any tenants may come to wait in any order, after any tenant was served last. */
  lemma AnyQueueArises(first: Tenant, tenants: seq<Tenant>, maxQueue: nat) returns (es: seq<Event>)
    requires |tenants| <= maxQueue
    ensures Lined(Run(Init(1, maxQueue), es), first, tenants, maxQueue)
  {
    var s, lease := Init(1, maxQueue), [Arrive(first, None, false)];
    FirstLease(first, maxQueue);
    var more, t := LineGrows(Run(s, lease), first, tenants, maxQueue);
    es := lease + more;
    RunTwice(s, lease, more);
  }

  // ---------------------------------------------------------------- exactly when at most one grant comes first

  /** Nobody, or one single other tenant, is ahead of the waiter at `p`. */
  ghost predicate OneBurstAhead(ws: seq<Waiter>, p: nat)
    requires p < |ws|
  {
    p == 0 || exists x :: x != ws[p].tenant && AllOf(ws[..p], x)
  }

  ghost predicate AllOf(ws: seq<Waiter>, x: Tenant) {
    forall i :: 0 <= i < |ws| ==> ws[i].tenant == x
  }

  lemma FirstTurnIsNotFor(ws: seq<Waiter>, last: Tenant, p: nat)
    requires p < |ws| && !OneBurstAhead(ws, p)
    ensures NextIndex(ws, last) != p
  {
    PassedOver(ws, last);
    if NextIndex(ws, last) == p {
      assert AllOf(ws[..p], last);
    }
  }

  /** The place of the waiter at `p` once the one at `k` has left. */
  function PlaceAfter(p: nat, k: nat): nat
    requires k != p
  {
    if k < p then p - 1 else p
  }

  /** If the waiter is next after one turn, then it is alone with requests of the tenant just served. */
  lemma SecondTurn(ws: seq<Waiter>, last: Tenant, p: nat, k: nat, rest: seq<Waiter>)
    requires p < |ws| && !OneBurstAhead(ws, p) && k == NextIndex(ws, last) && k != p && rest == RemoveAt(ws, k)
    requires NextIndex(rest, ws[k].tenant) == PlaceAfter(p, k)
    ensures AllOf(rest, ws[k].tenant)
  {
    var y := ws[k].tenant;
    PassedOver(ws, last);
    PassedOver(rest, y);
    if PlaceAfter(p, k) > 0 {
      assert rest[0].tenant == y;
      if k < p {
        assert k == 0;
        forall i | 0 <= i < p
          ensures ws[i].tenant == y
        {
          assert i > 0 ==> rest[i - 1] == ws[i];
        }
        assert AllOf(ws[..p], y);
      }
    } else {
      AloneAfterTurn(ws, last, rest, y);
    }
  }

  lemma AloneAfterTurn(ws: seq<Waiter>, last: Tenant, rest: seq<Waiter>, y: Tenant)
    requires |ws| > 1 && !OneBurstAhead(ws, 1) && rest == RemoveAt(ws, 0) && y == ws[0].tenant
    requires NextIndex(rest, y) == 0
    ensures AllOf(rest, y)
  {
    if ws[1].tenant != y {
      assert AllOf(ws[..1], y);
    }
    assert rest[0] == ws[1];
    assert forall i :: 0 <= i < |rest| ==> rest[i] in rest;
  }

  /** A newcomer of another tenant is served before such requests. */
  lemma NewcomerIsNext(ws: seq<Waiter>, y: Tenant, late: Waiter)
    requires AllOf(ws, y) && late.tenant != y && ws != []
    ensures NextIndex(ws + [late], y) == |ws|
  {
    FirstOtherIs(ws + [late], y, 0, |ws|);
    assert ws[0] in ws + [late] && late in ws + [late];
  }

  /** Two grants were made to others while the waiter at `p` waited. */
  ghost predicate PassedTwice(s: PoolState, t: PoolState, p: nat)
    requires p < |s.waiters|
  {
    s.waiters[p] in t.waiters && |t.grants| == |s.grants| + 2
  }

  /** After a turn that was not the waiter's own, it still waits, at its new place. */
  lemma StillWaits(s: PoolState, t: PoolState, p: nat)
    requires s.waiters != [] && Turned(s, t) && p < |s.waiters| && NextIndex(s.waiters, s.lastTenant) != p
    ensures var q := PlaceAfter(p, NextIndex(s.waiters, s.lastTenant));
            q < |t.waiters| && t.waiters[q] == s.waiters[p] && |t.grants| == |s.grants| + 1
  {
  }

  /** A newcomer of another tenant joins the queue behind requests of one tenant, and is next. */
  lemma NewcomerJoins(s: PoolState, c: Tenant) returns (e: Event)
    requires Serving(s) && s.waiters != [] && |s.waiters| < s.maxQueue && AllOf(s.waiters, s.lastTenant) &&
      c != s.lastTenant
    ensures var t := Step(s, e).0;
            && Serving(t) && t.grants == s.grants && s.waiters < t.waiters
            && NextIndex(t.waiters, t.lastTenant) == |s.waiters|
  {
    e := Arrive(c, None, false);
    StepKeeps(s, e);
    NewcomerIsNext(s.waiters, s.lastTenant, Waiter(s.nextTicket, c));
  }

  /** From a state where the waiter at `q` is not next, one more turn passes it. */
  lemma PassOnce(s: PoolState, q: nat) returns (es: seq<Event>)
    requires Serving(s) && q < |s.waiters| && NextIndex(s.waiters, s.lastTenant) != q
    ensures s.waiters[q] in Run(s, es).waiters && |Run(s, es).grants| == |s.grants| + 1
  {
    es := NextTurn(s);
    StillWaits(s, Run(s, es), q);
  }

  /** From a state where the waiter is behind, or alone with, requests of the tenant served last, a run passes it. */
  lemma PassAgain(s: PoolState, q: nat) returns (es: seq<Event>)
    requires Serving(s) && q < |s.waiters| < s.maxQueue
    requires NextIndex(s.waiters, s.lastTenant) == q ==> AllOf(s.waiters, s.lastTenant)
    ensures s.waiters[q] in Run(s, es).waiters && |Run(s, es).grants| == |s.grants| + 1
  {
    if NextIndex(s.waiters, s.lastTenant) != q {
      es := PassOnce(s, q);
    } else {
      var other := if s.lastTenant == None then Some("") else None;
      var e := NewcomerJoins(s, other);
      var t := Step(s, e).0;
      var more := PassOnce(t, q);
      es := [e] + more;
      RunTwice(s, [e], more);
      RunOne(s, e);
    }
  }

  /** Otherwise, whoever else is ahead of the waiter, some run makes two grants to others while it waits. */
  lemma TwoGrantsFirst(s: PoolState, p: nat) returns (es: seq<Event>)
    requires Serving(s) && p < |s.waiters| && !OneBurstAhead(s.waiters, p)
    ensures PassedTwice(s, Run(s, es), p)
  {
    var k := NextIndex(s.waiters, s.lastTenant);
    FirstTurnIsNotFor(s.waiters, s.lastTenant, p);
    var first := NextTurn(s);
    var t := Run(s, first);
    StillWaits(s, t, p);
    var q := PlaceAfter(p, k);
    if NextIndex(t.waiters, t.lastTenant) == q {
      SecondTurn(s.waiters, s.lastTenant, p, k, t.waiters);
    }
    var second := PassAgain(t, q);
    es := first + second;
    RunTwice(s, first, second);
  }

  /** If the waiter at `p` still waits after the run, at most one grant was made. */
  ghost predicate AtMostOneGrant(s0: PoolState, es: seq<Event>, p: nat)
    requires p < |s0.waiters|
  {
    s0.waiters[p] in Run(s0, es).waiters ==> |Run(s0, es).grants| - |s0.grants| <= 1
  }

  lemma AllAhead(ws: seq<Waiter>, p: nat, x: Tenant)
    requires p <= |ws| && AllOf(ws[..p], x)
    ensures forall i :: 0 <= i < p ==> ws[i].tenant == x
  {
    assert forall i :: 0 <= i < p ==> ws[..p][i] == ws[i];
  }

  lemma OneBurstIsPassed(s0: PoolState, es: seq<Event>, p: nat)
    requires Inv(s0) && p < |s0.waiters| && OneBurstAhead(s0.waiters, p)
    ensures AtMostOneGrant(s0, es, p)
  {
    if s0.waiters[p] in Run(s0, es).waiters {
      if p == 0 {
        BoundedBypass(s0, es, 0);
      } else {
        var x :| x != s0.waiters[p].tenant && AllOf(s0.waiters[..p], x);
        AllAhead(s0.waiters, p, x);
        BurstDelaysByOne(s0, es, p, x);
      }
    }
  }

  /**
   Exactly when rotation protects a waiter: at most one grant precedes its own, in every run, if and only if nobody
   or only one single other tenant is ahead of it.
   */
  lemma AtMostOneGrantIff(s0: PoolState, p: nat)
    requires Serving(s0) && p < |s0.waiters|
    ensures OneBurstAhead(s0.waiters, p) <==> forall es :: AtMostOneGrant(s0, es, p)
  {
    if OneBurstAhead(s0.waiters, p) {
      forall es ensures AtMostOneGrant(s0, es, p) {
        OneBurstIsPassed(s0, es, p);
      }
    } else {
      var es := TwoGrantsFirst(s0, p);
      TwoIsNotOne(s0, es, p);
    }
  }

  lemma TwoIsNotOne(s0: PoolState, es: seq<Event>, p: nat)
    requires p < |s0.waiters| && PassedTwice(s0, Run(s0, es), p)
    ensures !AtMostOneGrant(s0, es, p)
  {
  }

  // ---------------------------------------------------------------- the pool

  class ReplicaPool {
    const replicas: nat
    const maxQueue: nat
    var available: set<nat>
    var active: set<nat>
    var waiters: seq<Waiter>
    var nextTicket: nat
    var lastTenant: Tenant
    var closed: bool
    var accepted: nat
    var completed: nat
    var rejected: nat
    var timedOut: nat
    var maxActive: nat
    var maxQueued: nat
    var workerRequests: seq<nat>
    ghost var fates: map<nat, Fate>
    ghost var grants: seq<Waiter>
    ghost var leases: multiset<nat>

    /** The value of the pool, on which `Step` is defined. */
    ghost function State(): PoolState
      reads this
    {
      PoolState(replicas, maxQueue, available, active, waiters, nextTicket, lastTenant, closed, Counts(),
                fates, grants, leases)
    }

    ghost function Counts(): Counters
      reads this
    {
      Counters(accepted, completed, rejected, timedOut, maxActive, maxQueued, workerRequests)
    }

    /** The pool is created only for at least one resource and a queue bound that is not negative. */
    constructor (replicas: nat, maxQueue: nat)
      requires replicas > 0
      ensures State() == Init(replicas, maxQueue)
    {
      this.replicas, this.maxQueue := replicas, maxQueue;
      available, active, waiters := Indices(replicas), {}, [];
      nextTicket, lastTenant, closed := 0, None, false;
      accepted, completed, rejected, timedOut, maxActive, maxQueued := 0, 0, 0, 0, 0, 0;
      workerRequests := seq(replicas, i => 0);
      fates, grants, leases := map[], [], multiset{};
    }

    method NextWaiterTicket() returns (ticket: Option<nat>)
      ensures ticket == NextTicket(waiters, lastTenant)
    {
      if waiters == [] {
        return None;
      }
      if AllAnonymous(waiters) {
        return Some(waiters[0].ticket);
      }
      for i := 0 to |waiters|
        invariant FirstOther(waiters, lastTenant, 0) == FirstOther(waiters, lastTenant, i)
      {
        if waiters[i].tenant != lastTenant {
          return Some(waiters[i].ticket);
        }
      }
      return Some(waiters[0].ticket);
    }

    method RemoveWaiter(ticket: nat)
      modifies this`waiters
      ensures waiters == WithoutTicket(old(waiters), ticket)
    {
      for i := 0 to |waiters|
        invariant waiters == old(waiters)
        invariant IndexOf(waiters, ticket) == IndexFrom(waiters, ticket, i)
      {
        if waiters[i].ticket == ticket {
          waiters := waiters[..i] + waiters[i + 1..];
          return;
        }
      }
    }

    method LeaveQueue(ticket: nat, ghost fate: Fate)
      modifies this`waiters, this`fates
      ensures State() == Leave(old(State()), ticket, fate)
    {
      RemoveWaiter(ticket);
      fates := fates[ticket := fate];
    }

    /** The common end of both ways to a lease. */
    method TakeReplica(tenant: Tenant, index: nat)
      requires index in available
      modifies this
      ensures State() == Admit(old(State()), tenant, index)
    {
      MoveReplica(index);
      lastTenant := tenant;
      CountLease(index);
    }

    method MoveReplica(index: nat)
      modifies this`available, this`active, this`leases
      ensures available == old(available) - {index} && active == old(active) + {index}
      ensures leases == old(leases) + multiset{index}
    {
      available, active := available - {index}, active + {index};
      RecordLease(index);
    }

    ghost method RecordLease(index: nat)
      modifies this`leases
      ensures leases == old(leases) + multiset{index}
    {
      leases := leases + multiset{index};
    }

    method CountLease(index: nat)
      modifies this`accepted, this`workerRequests, this`maxActive
      ensures Counts() == CountAdmission(old(Counts()), index, |active|)
    {
      accepted := accepted + 1;
      if index < |workerRequests| {
        workerRequests := workerRequests[index := workerRequests[index] + 1];
      }
      maxActive := Max(maxActive, |active|);
    }

    /** The first lock section of `acquire`: fail, lease at once, or join the queue. */
    method Arrive(tenant: Tenant, preferred: Option<nat>, cancelled: bool) returns (o: Outcome)
      modifies this
      ensures (State(), o) == Step(old(State()), Event.Arrive(tenant, preferred, cancelled))
      ensures ArrivalAnswered(old(State()), State(), tenant, preferred, cancelled, o)
    {
      ArriveAnswers(State(), tenant, preferred, cancelled);
      if cancelled {
        return RequestCancelled;
      }
      if closed {
        return SchedulerClosed;
      }
      if waiters != [] || available == {} {
        if |waiters| >= maxQueue {
          rejected := rejected + 1;
          return QueueFull;
        }
        var ticket := nextTicket;
        nextTicket := nextTicket + 1;
        waiters := waiters + [Waiter(ticket, tenant)];
        maxQueued := Max(maxQueued, |waiters|);
        fates := fates[ticket := Waiting];
        return Queued(ticket);
      }
      var index := Select(available, preferred);
      TakeReplica(tenant, index);
      return Lease(index);
    }

    /** One turn of the waiting loop of the request that holds `ticket`. */
    method Poll(ticket: nat, tenant: Tenant, preferred: Option<nat>, cancelled: bool, expired: bool)
      returns (o: Outcome)
      requires IsWaiting(waiters, ticket) && waiters[IndexOf(waiters, ticket)] == Waiter(ticket, tenant)
      modifies this
      ensures (State(), o) == Step(old(State()), Event.Poll(ticket, preferred, cancelled, expired))
      ensures TurnAnswered(old(State()), State(), Waiter(ticket, tenant), preferred, cancelled, expired, o)
    {
      PollAnswers(State(), Waiter(ticket, tenant), preferred, cancelled, expired);
      if cancelled {
        LeaveQueue(ticket, Cancelled);
        return RequestCancelled;
      }
      if closed {
        LeaveQueue(ticket, ClosedOut);
        return SchedulerClosed;
      }
      var next := NextWaiterTicket();
      if next == Some(ticket) && available != {} {
        LeaveQueue(ticket, Granted);
        grants := grants + [Waiter(ticket, tenant)];
        var index := Select(available, preferred);
        TakeReplica(tenant, index);
        return Lease(index);
      }
      if expired {
        LeaveQueue(ticket, TimedOut);
        timedOut := timedOut + 1;
        return QueueTimeout;
      }
      return StillWaiting;
    }

    method Release(index: nat) returns (o: Outcome)
      modifies this
      ensures (State(), o) == Step(old(State()), Event.Release(index))
      ensures o == if index in old(active) then Done else NotActive
      ensures index !in active && active == old(active) - {index}
      ensures available == old(available) + if o == Done then {index} else {}
    {
      if index !in active {
        return NotActive;
      }
      active, available := active - {index}, available + {index};
      completed := completed + 1;
      leases := leases - multiset{index};
      return Done;
    }

    method Close() returns (o: Outcome)
      modifies this
      ensures (State(), o) == Step(old(State()), Event.Close)
      ensures closed
    {
      closed := true;
      return Done;
    }

    method TryCloseIdle() returns (o: Outcome)
      modifies this
      ensures (State(), o) == Step(old(State()), Event.TryCloseIdle)
      ensures o == if old(active) == {} && old(waiters) == [] then Done else Busy
      ensures closed == (old(closed) || o == Done)
    {
      if active != {} || waiters != [] {
        return Busy;
      }
      closed := true;
      return Done;
    }

    method IsIdle() returns (idle: bool)
      ensures idle <==> Step(State(), Event.TryCloseIdle).1 == Done
    {
      idle := active == {} && waiters == [];
    }
  }
}
