/**
 The host pool: each request reserves the host with the least expected delay,
 fails over to another host when one fails before any output, and never replays
 output.  Selection is proved balanced, and optimal, over a burst of reservations;
 failover is proved safe over every interleaving of requests.

 Times and scores are exact reals.  A host's lower-cased name only breaks ties, so
 an integer stands for its place in the order of names.
 */
module Routing {
  import opened Wrappers

  type HostId = string

  datatype Probe = Probe(
    host: HostId,
    nameOrder: int,
    online: bool,
    supportsModel: bool,
    modelLoaded: bool,
    roundTrip: real,
    service: real,
    active: int,
    queued: int,
    replicas: int)

  // ---------------------------------------------------------------- the score

  function RMax(a: real, b: real): real {
    if a <= b then b else a
  }

  ghost function RMin(a: real, b: real): real {
    if a <= b then a else b
  }

  /** The time a host needs for one request, at least 50 milliseconds. */
  function ServiceTime(p: Probe): (r: real)
    ensures r >= 0.05
  {
    RMax(0.05, p.service)
  }

  function Replicas(p: Probe): (n: int)
    ensures n >= 1
  {
    Max(1, p.replicas)
  }

  /** Requests the next one has to wait for, when `reserved` requests already hold a reservation. */
  function Ahead(p: Probe, reserved: int): nat {
    var demandAhead := Max(0, p.queued) + Max(0, reserved);
    var activeOverCapacity := Max(0, p.active - Replicas(p) + 1);
    demandAhead + activeOverCapacity
  }

  /** The time the requests ahead take. */
  function QueueDelay(p: Probe, reserved: int): real {
    Shared(Ahead(p, reserved), ServiceTime(p), Replicas(p))
  }

  /** The time for a number of requests of equal length, shared by the replicas. */
  function Shared(requests: nat, service: real, replicas: int): real
    requires replicas > 0
  {
    requests as real * service / replicas as real
  }

  /** The expected delay of the next request on the host. */
  function Score(p: Probe, reserved: int): real {
    var coldPenalty := if p.modelLoaded then 0.0 else RMax(2.0, ServiceTime(p) * 4.0);
    RMax(0.0, p.roundTrip) + ServiceTime(p) + QueueDelay(p, reserved) + coldPenalty
  }

  /** Each further reservation delays the next request by one service time over the replicas. */
  lemma ScoreStep(p: Probe, reserved: nat)
    ensures Score(p, reserved + 1) == Score(p, reserved) + ServiceTime(p) / Replicas(p) as real
    ensures Score(p, reserved + 1) > Score(p, reserved)
  {
    assert Ahead(p, reserved + 1) == Ahead(p, reserved) + 1;
    OneMoreAhead(Ahead(p, reserved) as real, ServiceTime(p), Replicas(p) as real);
  }

  lemma OneMoreAhead(ahead: real, service: real, n: real)
    requires service > 0.0 && n > 0.0
    ensures (ahead + 1.0) * service / n == ahead * service / n + service / n
    ensures service / n > 0.0
  {
    assert (ahead + 1.0) * service == ahead * service + service;
  }

  lemma {:induction false} ScoreGrows(p: Probe, r: nat, s: nat)
    requires r <= s
    ensures Score(p, r) <= Score(p, s)
    ensures r < s ==> Score(p, r) < Score(p, s)
    decreases s - r
  {
    if r < s {
      ScoreStep(p, r);
      ScoreGrows(p, r + 1, s);
    }
  }

  // ---------------------------------------------------------------- what makes a host the better choice

  /** The first host is no worse in any respect. */
  ghost predicate NoWorse(p: Probe, r: nat, q: Probe, s: nat) {
    && p.roundTrip <= q.roundTrip && p.service <= q.service && p.replicas >= q.replicas
    && p.queued <= q.queued && p.active <= q.active && r <= s && (q.modelLoaded ==> p.modelLoaded)
  }

  /** Where the first host is no worse, it is better in a respect that counts. */
  ghost predicate Better(p: Probe, r: nat, q: Probe, s: nat) {
    || (p.roundTrip < q.roundTrip && q.roundTrip > 0.0)
    || (p.service < q.service && q.service > 0.05)
    || (p.queued < q.queued && q.queued > 0)
    || (p.active < q.active && q.active >= q.replicas >= 1)
    || r < s
    || (p.modelLoaded && !q.modelLoaded)
  }

  /** A host that is no worse in any respect has no larger expected delay, and a smaller one when it is better. */
  lemma BetterHostIsQuicker(p: Probe, r: nat, q: Probe, s: nat)
    requires NoWorse(p, r, q, s)
    ensures Score(p, r) <= Score(q, s)
    ensures Better(p, r, q, s) ==> Score(p, r) < Score(q, s)
  {
    QueueIsNoLonger(p, r, q, s);
  }

  lemma QueueIsNoLonger(p: Probe, r: nat, q: Probe, s: nat)
    requires NoWorse(p, r, q, s)
    ensures QueueDelay(p, r) <= QueueDelay(q, s)
    ensures Ahead(p, r) < Ahead(q, s) ==> QueueDelay(p, r) < QueueDelay(q, s)
  {
    FewerAhead(p, r, q, s);
    SharedGrows(Ahead(p, r), ServiceTime(p), Replicas(p), Ahead(q, s), ServiceTime(q), Replicas(q));
  }

  lemma FewerAhead(p: Probe, r: nat, q: Probe, s: nat)
    requires NoWorse(p, r, q, s)
    ensures Ahead(p, r) <= Ahead(q, s)
    ensures p.queued < q.queued && q.queued > 0 ==> Ahead(p, r) < Ahead(q, s)
    ensures p.active < q.active && q.active >= q.replicas >= 1 ==> Ahead(p, r) < Ahead(q, s)
    ensures r < s ==> Ahead(p, r) < Ahead(q, s)
  {
  }

  lemma SharedGrows(a: nat, x: real, m: int, b: nat, y: real, n: int)
    requires a <= b && 0.0 < x <= y && m >= n > 0
    ensures Shared(a, x, m) <= Shared(b, y, n)
    ensures a < b ==> Shared(a, x, m) < Shared(b, y, n)
  {
    ShareGrows(a as real, x, m as real, b as real, y, n as real);
  }

  /** The time for more requests, each longer, shared by fewer replicas, is no smaller. */
  lemma ShareGrows(a: real, x: real, m: real, b: real, y: real, n: real)
    requires 0.0 <= a <= b && 0.0 < x <= y && m >= n > 0.0
    ensures a * x / m <= b * y / n
    ensures a < b ==> a * x / m < b * y / n
  {
    ProductGrows(a, x, b, y);
    FewerShares(a * x, m, n);
    SharesGrow(a * x, b * y, n);
  }

  lemma ProductGrows(a: real, x: real, b: real, y: real)
    requires 0.0 <= a <= b && 0.0 < x <= y
    ensures 0.0 <= a * x <= b * y
    ensures a < b ==> a * x < b * y
  {
    ScaledGrows(0.0, a, x);
    ScaledGrows(a, b, x);
    ScaledGrows(x, y, b);
    assert x * b == b * x && y * b == b * y;
  }

  lemma ScaledGrows(a: real, b: real, k: real)
    requires a <= b && k >= 0.0
    ensures a * k <= b * k
    ensures a < b && k > 0.0 ==> a * k < b * k
  {
  }

  lemma FewerShares(x: real, m: real, n: real)
    requires x >= 0.0 && m >= n > 0.0
    ensures x / m <= x / n
  {
    var shared, larger := x / m, x / n;
    assert shared * m == x && larger * n == x;
    ScaledGrows(n, m, shared);
    assert shared * n <= larger * n;
    if shared > larger {
      ScaledGrows(larger, shared, n);
    }
  }

  lemma SharesGrow(x: real, y: real, n: real)
    requires x <= y && n > 0.0
    ensures x / n <= y / n && (x < y ==> x / n < y / n)
  {
  }

  /** Loading the model costs at least two seconds, and at least four times the service time. */
  lemma ColdHostIsSlower(p: Probe, q: Probe, reserved: nat)
    requires p.modelLoaded && q == p.(modelLoaded := false)
    ensures Score(q, reserved) - Score(p, reserved) >= 2.0 && Score(q, reserved) - Score(p, reserved) >= 4.0 * p.service
  {
    assert QueueDelay(p, reserved) == QueueDelay(q, reserved);
  }

  /**
   How many requests ahead outweigh loading the model elsewhere: a warm host of one replica, with `n` more ahead than an
   otherwise equal cold one, is the quicker exactly while they take less than two seconds or four of them.
   */
  lemma WaitingBeatsLoadingIff(p: Probe, q: Probe, n: nat)
    requires p.modelLoaded && q == p.(modelLoaded := false) && p.replicas == 1 && p.service >= 0.05
    ensures Score(p, n) < Score(q, 0) <==> n as real * p.service < 2.0 || n < 4
  {
    EachAheadCounts(p, n);
    assert QueueDelay(p, 0) == QueueDelay(q, 0);
    FourOrMore(n as real, p.service);
    assert Score(q, 0) - Score(p, 0) == RMax(2.0, p.service * 4.0);
  }

  lemma FourOrMore(n: real, x: real)
    requires x > 0.0
    ensures n * x < x * 4.0 <==> n < 4.0
  {
    if n < 4.0 {
      assert (4.0 - n) * x > 0.0;
    } else {
      assert (n - 4.0) * x >= 0.0;
    }
  }

  lemma {:induction false} EachAheadCounts(p: Probe, n: nat)
    requires p.replicas == 1 && p.service >= 0.05
    ensures Score(p, n) == Score(p, 0) + n as real * p.service
  {
    if n > 0 {
      EachAheadCounts(p, n - 1);
      ScoreStep(p, n - 1);
      WholeShare(p.service);
      assert n as real * p.service == (n - 1) as real * p.service + p.service;
    }
  }

  lemma WholeShare(x: real)
    ensures x / 1.0 == x
  {
  }

  /** As many more requests ahead as there are replicas cost one service time more. */
  lemma FullTurn(p: Probe, reserved: nat)
    ensures Score(p, reserved + Replicas(p)) == Score(p, reserved) + ServiceTime(p)
  {
    assert Ahead(p, reserved + Replicas(p)) == Ahead(p, reserved) + Replicas(p);
    OneMoreEach(Ahead(p, reserved) as real, ServiceTime(p), Replicas(p) as real);
  }

  lemma OneMoreEach(ahead: real, service: real, n: real)
    requires n > 0.0
    ensures (ahead + n) * service / n == ahead * service / n + service
  {
    assert (ahead + n) * service == ahead * service + n * service;
    assert n * service / n == service;
  }

  /** What a host cannot mean counts as the least it can mean. */
  lemma OddMeasuresAreClamped(p: Probe, reserved: nat)
    ensures p.roundTrip <= 0.0 ==> Score(p, reserved) == Score(p.(roundTrip := 0.0), reserved)
    ensures p.service <= 0.05 ==> Score(p, reserved) == Score(p.(service := 0.05), reserved)
    ensures p.queued <= 0 ==> Score(p, reserved) == Score(p.(queued := 0), reserved)
    ensures p.replicas <= 1 ==> Score(p, reserved) == Score(p.(replicas := 1), reserved)
  {
    assert p.queued <= 0 ==> Ahead(p, reserved) == Ahead(p.(queued := 0), reserved);
    assert p.replicas <= 1 ==> Ahead(p, reserved) == Ahead(p.(replicas := 1), reserved);
    assert Ahead(p, reserved) == Ahead(p.(roundTrip := 0.0), reserved) == Ahead(p.(service := 0.05), reserved);
  }

  /** Requests in service count only once every replica has one. */
  lemma FreeReplicasDoNotWait(p: Probe, q: Probe, reserved: nat)
    requires q == p.(active := q.active) && p.active < p.replicas && q.active < p.replicas
    ensures Score(p, reserved) == Score(q, reserved)
  {
    assert Ahead(p, reserved) == Ahead(q, reserved);
  }

  /** A request queued, or in service when every replica is taken, delays the next one like a reserved one. */
  lemma AllAheadCountAlike(p: Probe, q: Probe, reserved: nat)
    requires || (p.queued >= 0 && q == p.(queued := p.queued + 1))
             || (p.active >= p.replicas - 1 >= 0 && q == p.(active := p.active + 1))
    ensures Score(q, reserved) == Score(p, reserved + 1)
  {
    assert Ahead(q, reserved) == Ahead(p, reserved + 1);
  }

  /** Between idle, loaded hosts the round trip and the time of one request add up. */
  lemma IdleHostsCompare(p: Probe, q: Probe)
    requires p.modelLoaded && p.queued <= 0 && p.active < Replicas(p) && p.roundTrip >= 0.0 && p.service >= 0.05
    requires q.modelLoaded && q.queued <= 0 && q.active < Replicas(q) && q.roundTrip >= 0.0 && q.service >= 0.05
    ensures Score(p, 0) < Score(q, 0) <==> p.roundTrip + p.service < q.roundTrip + q.service
  {
    NothingToWaitFor(p.service, Replicas(p) as real);
    NothingToWaitFor(q.service, Replicas(q) as real);
  }

  lemma NothingToWaitFor(service: real, n: real)
    requires n > 0.0
    ensures 0.0 * service / n == 0.0
  {
  }

  // ---------------------------------------------------------------- greedy selection

  /** A candidate host with the reservations it holds when the decision is made. */
  datatype Contender = Contender(probe: Probe, reserved: nat) {
    function Delay(): real {
      Score(probe, reserved)
    }

    /** This one sorts before the other: by expected delay, then by name. */
    predicate Before(other: Contender) {
      Delay() < other.Delay() || (Delay() == other.Delay() && probe.nameOrder < other.probe.nameOrder)
    }
  }

  /** The first, among the first `k` candidates, that no other one is before. */
  function Pick(cs: seq<Contender>, k: nat): (i: nat)
    requires 1 <= k <= |cs|
    ensures i < k
  {
    if k == 1 then 0
    else
      var i := Pick(cs, k - 1);
      if cs[k - 1].Before(cs[i]) then k - 1 else i
  }

  lemma {:induction false} PickIsBest(cs: seq<Contender>, k: nat)
    requires 1 <= k <= |cs|
    ensures forall j :: 0 <= j < k ==> cs[Pick(cs, k)].Delay() <= cs[j].Delay()
    ensures forall j :: 0 <= j < k ==> !cs[j].Before(cs[Pick(cs, k)])
    ensures forall j :: 0 <= j < Pick(cs, k) ==> cs[Pick(cs, k)].Before(cs[j])
  {
    if k > 1 {
      PickIsBest(cs, k - 1);
    }
  }

  /** A host is never picked when another one is no worse in any respect and better in one. */
  lemma WorseHostIsNotPicked(cs: seq<Contender>, i: nat, j: nat)
    requires i < |cs| && j < |cs| && NoWorse(cs[i].probe, cs[i].reserved, cs[j].probe, cs[j].reserved)
    requires Better(cs[i].probe, cs[i].reserved, cs[j].probe, cs[j].reserved)
    ensures Pick(cs, |cs|) != j
  {
    PickIsBest(cs, |cs|);
    BetterHostIsQuicker(cs[i].probe, cs[i].reserved, cs[j].probe, cs[j].reserved);
  }

  /** Of hosts that are equally quick, the first by name is picked. */
  lemma TiesGoByName(cs: seq<Contender>, i: nat)
    requires i < |cs| && cs[i].probe.nameOrder < cs[Pick(cs, |cs|)].probe.nameOrder
    ensures Score(cs[i].probe, cs[i].reserved) > Score(cs[Pick(cs, |cs|)].probe, cs[Pick(cs, |cs|)].reserved)
  {
    PickIsBest(cs, |cs|);
  }

  /** Take one more reservation at the chosen host. */
  function Reserve(cs: seq<Contender>): seq<Contender>
    requires cs != []
  {
    var i := Pick(cs, |cs|);
    cs[i := cs[i].(reserved := cs[i].reserved + 1)]
  }

  function Burst(cs: seq<Contender>, n: nat): (r: seq<Contender>)
    requires cs != []
    ensures |r| == |cs|
  {
    if n == 0 then cs else Reserve(Burst(cs, n - 1))
  }

  /** The last reservation at any host was no worse a choice than any host is now. */
  ghost predicate Balanced(cs: seq<Contender>) {
    forall i, j :: 0 <= i < |cs| && 0 <= j < |cs| && cs[i].reserved > 0 ==>
      Score(cs[i].probe, cs[i].reserved - 1) <= cs[j].Delay()
  }

  lemma ReserveKeepsBalance(cs: seq<Contender>)
    requires cs != [] && Balanced(cs)
    ensures Balanced(Reserve(cs))
  {
    var k := Pick(cs, |cs|);
    PickIsBest(cs, |cs|);
    var after := Reserve(cs);
    forall i, j | 0 <= i < |after| && 0 <= j < |after| && after[i].reserved > 0
      ensures Score(after[i].probe, after[i].reserved - 1) <= after[j].Delay()
    {
      ScoreGrows(cs[j].probe, cs[j].reserved, after[j].reserved);
      assert cs[j].Delay() <= after[j].Delay();
      assert i != k ==> Score(cs[i].probe, cs[i].reserved - 1) <= cs[j].Delay();
    }
  }

  /** `now` is what `n` reservations over the fixed probes of `cs` should have led to. */
  ghost predicate FairlyPlaced(cs: seq<Contender>, now: seq<Contender>, n: nat) {
    Balanced(now) && SameProbes(cs, now) && Total(now) == Total(cs) + n
  }

  lemma ReserveStep(cs: seq<Contender>, now: seq<Contender>, n: nat)
    requires now != [] && FairlyPlaced(cs, now, n)
    ensures FairlyPlaced(cs, Reserve(now), n + 1)
  {
    ReserveKeepsBalance(now);
    ReserveAddsOne(now);
  }

  /** Every burst of reservations over fixed probes stays balanced. */
  lemma {:induction false} BurstIsBalanced(cs: seq<Contender>, n: nat)
    requires cs != [] && Balanced(cs)
    ensures FairlyPlaced(cs, Burst(cs, n), n)
  {
    if n > 0 {
      BurstIsBalanced(cs, n - 1);
      ReserveStep(cs, Burst(cs, n - 1), n - 1);
    }
  }

  ghost predicate SameProbes(a: seq<Contender>, b: seq<Contender>) {
    |a| == |b| && forall i :: 0 <= i < |a| ==> a[i].probe == b[i].probe
  }

  function Total(cs: seq<Contender>): nat {
    if cs == [] then 0 else Total(cs[..|cs| - 1]) + cs[|cs| - 1].reserved
  }

  lemma {:induction false} TotalUpdate(cs: seq<Contender>, i: nat)
    requires i < |cs|
    ensures Total(cs[i := cs[i].(reserved := cs[i].reserved + 1)]) == Total(cs) + 1
  {
    var after := cs[i := cs[i].(reserved := cs[i].reserved + 1)];
    var n := |cs| - 1;
    if i == n {
      assert after[..n] == cs[..n];
    } else {
      assert after[..n] == cs[..n][i := cs[..n][i].(reserved := cs[..n][i].reserved + 1)];
      TotalUpdate(cs[..n], i);
    }
  }

  lemma ReserveAddsOne(cs: seq<Contender>)
    requires cs != []
    ensures Total(Reserve(cs)) == Total(cs) + 1
  {
    TotalUpdate(cs, Pick(cs, |cs|));
  }

  /** Two hosts whose expected delay is the same at every number of reservations. */
  ghost predicate SameDelays(p: Probe, q: Probe) {
    Score(p, 0) == Score(q, 0) && ServiceTime(p) / Replicas(p) as real == ServiceTime(q) / Replicas(q) as real
  }

  /** Hosts that measure alike are such hosts, whatever their names. */
  lemma AlikeHostsHaveSameDelays(p: Probe, q: Probe)
    requires q == p.(host := q.host, nameOrder := q.nameOrder)
    ensures SameDelays(p, q)
  {
    assert Ahead(p, 0) == Ahead(q, 0);
  }

  /** Such hosts never differ by more than one reservation. */
  lemma EqualHostsDifferByOne(cs: seq<Contender>, i: nat, j: nat)
    requires Balanced(cs) && i < |cs| && j < |cs|
    requires SameDelays(cs[i].probe, cs[j].probe)
    ensures cs[i].reserved <= cs[j].reserved + 1
  {
    if cs[i].reserved > cs[j].reserved + 1 {
      EqualScores(cs[i].probe, cs[j].probe, cs[j].reserved);
      ScoreGrows(cs[i].probe, cs[j].reserved, cs[i].reserved - 1);
    }
  }

  lemma {:induction false} EqualScores(p: Probe, q: Probe, r: nat)
    requires SameDelays(p, q)
    ensures Score(p, r) == Score(q, r)
  {
    if r > 0 {
      EqualScores(p, q, r - 1);
      ScoreStep(p, r - 1);
      ScoreStep(q, r - 1);
    }
  }

  lemma {:induction false} TotalAtLeast(cs: seq<Contender>, k: nat)
    requires forall i :: 0 <= i < |cs| ==> cs[i].reserved >= k
    ensures Total(cs) >= |cs| * k
    ensures (exists i :: 0 <= i < |cs| && cs[i].reserved > k) ==> Total(cs) > |cs| * k
  {
    if cs != [] {
      TotalAtLeast(cs[..|cs| - 1], k);
      assert |cs| * k == (|cs| - 1) * k + k;
    }
  }

  lemma {:induction false} TotalZero(cs: seq<Contender>)
    requires forall i :: 0 <= i < |cs| ==> cs[i].reserved == 0
    ensures Total(cs) == 0
  {
    if cs != [] {
      TotalZero(cs[..|cs| - 1]);
    }
  }

  /** While there are no more requests than equal idle hosts, no host takes two of them. */
  lemma FirstRequestsTakeDistinctHosts(cs: seq<Contender>, n: nat)
    requires cs != [] && n <= |cs|
    requires forall i :: 0 <= i < |cs| ==> cs[i].reserved == 0
    requires forall i, j :: 0 <= i < |cs| && 0 <= j < |cs| ==> SameDelays(cs[i].probe, cs[j].probe)
    ensures Total(Burst(cs, n)) == n
    ensures forall i :: 0 <= i < |cs| ==> Burst(cs, n)[i].reserved <= 1
  {
    TotalZero(cs);
    BurstIsBalanced(cs, n);
    var after := Burst(cs, n);
    forall i | 0 <= i < |cs|
      ensures after[i].reserved <= 1
    {
      if after[i].reserved > 1 {
        AllAtLeastOne(after, i);
        TotalAtLeast(after, 1);
      }
    }
  }

  lemma AllAtLeastOne(cs: seq<Contender>, i: nat)
    requires Balanced(cs) && i < |cs| && cs[i].reserved > 1
    requires forall i, j :: 0 <= i < |cs| && 0 <= j < |cs| ==> SameDelays(cs[i].probe, cs[j].probe)
    ensures forall j :: 0 <= j < |cs| ==> cs[j].reserved >= 1
  {
    forall j | 0 <= j < |cs|
      ensures cs[j].reserved >= 1
    {
      EqualHostsDifferByOne(cs, i, j);
    }
  }

  /** Some host of `b` holds more than in `a`, when it holds less elsewhere and the totals agree. */
  lemma {:induction false} SomeoneHoldsMore(a: seq<Contender>, b: seq<Contender>, i: nat)
    requires |a| == |b| && i < |a| && b[i].reserved < a[i].reserved && Total(a) <= Total(b)
    ensures exists j :: 0 <= j < |a| && a[j].reserved < b[j].reserved
  {
    var n := |a| - 1;
    if a[n].reserved >= b[n].reserved {
      if forall j :: 0 <= j < n ==> a[j].reserved >= b[j].reserved {
        Dominated(a[..n], b[..n]);
        if i < n {
          SomeoneHoldsMore(a[..n], b[..n], i);
        }
      }
    }
  }

  lemma {:induction false} Dominated(a: seq<Contender>, b: seq<Contender>)
    requires |a| == |b| && forall j :: 0 <= j < |a| ==> a[j].reserved >= b[j].reserved
    ensures Total(a) >= Total(b)
  {
    if a != [] {
      Dominated(a[..|a| - 1], b[..|b| - 1]);
    }
  }

  /** The reservation taken last at this host: it met at most the delay of the one taken last at the other. */
  ghost predicate PlacedNoWorse(c: Contender, d: Contender) {
    c.reserved > 0 ==> d.reserved > 0 && Score(c.probe, c.reserved - 1) <= Score(d.probe, d.reserved - 1)
  }

  /**
   Greedy selection is optimal: however else the same number of requests is spread over the same
   hosts, some request there is placed with at least the delay of the worst placed one here.
   */
  lemma BurstIsOptimal(cs: seq<Contender>, n: nat, other: seq<Contender>, i: nat)
    requires cs != [] && Balanced(cs) && i < |cs|
    requires SameProbes(cs, other) && Total(other) == Total(cs) + n
    ensures exists j :: 0 <= j < |other| && PlacedNoWorse(Burst(cs, n)[i], other[j])
  {
    BurstIsBalanced(cs, n);
    BalancedIsOptimal(Burst(cs, n), other, i);
  }

  lemma BalancedIsOptimal(cs: seq<Contender>, other: seq<Contender>, i: nat)
    requires Balanced(cs) && SameProbes(cs, other) && Total(cs) == Total(other) && i < |cs|
    ensures exists j :: 0 <= j < |other| && PlacedNoWorse(cs[i], other[j])
  {
    if other[i].reserved >= cs[i].reserved {
      SameHostFurther(cs[i], other[i]);
    } else {
      SomeoneHoldsMore(cs, other, i);
      var j :| 0 <= j < |cs| && cs[j].reserved < other[j].reserved;
      OtherHostFurther(cs, other, i, j);
    }
  }

  lemma OtherHostFurther(cs: seq<Contender>, other: seq<Contender>, i: nat, j: nat)
    requires Balanced(cs) && i < |cs| && j < |cs| == |other| && cs[i].reserved > 0
    requires cs[j].probe == other[j].probe && cs[j].reserved < other[j].reserved
    ensures PlacedNoWorse(cs[i], other[j])
  {
    assert Score(cs[i].probe, cs[i].reserved - 1) <= cs[j].Delay();
    ScoreGrows(cs[j].probe, cs[j].reserved, other[j].reserved - 1);
  }

  lemma SameHostFurther(c: Contender, d: Contender)
    requires c.probe == d.probe && c.reserved <= d.reserved
    ensures PlacedNoWorse(c, d)
  {
    if c.reserved > 0 {
      ScoreGrows(c.probe, c.reserved - 1, d.reserved - 1);
    }
  }
}
