/** Runs that end with the exception, for either censor. An agent gets its proxy blocked, and
    gets the other one at once; when that is blocked as well before the next rejuvenation, the
    client that arrives next finds no proxy. */
module SimulationFailures {
  import opened Addresses
  import opened Lists
  import opened SimulationTables
  import opened SimulationHolders
  import opened DeferredAcceptance
  import opened SimulationMarkets
  import opened SimulationJudging
  import opened SimulationMatches
  import opened SimulationSteps
  import opened SimulationTraces

  // ----- Distances -----

  /** Distances up to which a client that asked for few proxies is worth a proxy. */
  const FAR := 30.0

  ghost predicate Near(u: Setup) {
    forall x, y :: x in ProxyPlaces(u) && y in ClientPlaces(u) ==> u.distance(x, y) <= FAR
  }

  const WORLD_SIZE := 20000.0
  const CENSORED_REGION_SIZE := 1000.0

  predicate Within(x: Location, size: real) {
    -size <= x.latitude <= size && -size <= x.longitude <= size
  }

  /** Proxies are created in the world, clients in the censored region. */
  ghost predicate InWorld(u: Setup) {
    && (forall x :: x in ProxyPlaces(u) ==> Within(x, WORLD_SIZE / 2.0))
    && (forall y :: y in ClientPlaces(u) ==> Within(y, CENSORED_REGION_SIZE))
  }

  /** The distance in the plane, in units of the censored region. */
  ghost predicate IsNormalizedDistance(x: Location, y: Location, d: real) {
    var a, b := x.latitude - y.latitude, x.longitude - y.longitude;
    d >= 0.0 && (d * CENSORED_REGION_SIZE) * (d * CENSORED_REGION_SIZE) == a * a + b * b
  }

  lemma {:induction false} SquareUpTo(a: real, bound: real)
    requires -bound <= a <= bound
    ensures a * a <= bound * bound
  {
    var p, q := bound - a, bound + a;
    assert p * q >= 0.0;
    assert p * q == bound * bound - a * a;
  }

  lemma {:induction false} SquareGrows(a: real, bound: real)
    requires 0.0 <= bound < a
    ensures a * a > bound * bound
  {
    var d := a - bound;
    assert d * d > 0.0 && d * bound >= 0.0;
    assert a * a == bound * bound + 2.0 * (d * bound) + d * d;
  }

  lemma {:induction false} RootUpTo(a: real, bound: real)
    requires 0.0 <= bound && a * a <= bound * bound
    ensures a <= bound
  {
    if a > bound {
      SquareGrows(a, bound);
    }
  }

  /** No client of the program is farther than 15.6 from a proxy. */
  lemma {:induction false} WorldDistance(x: Location, y: Location, d: real)
    requires Within(x, WORLD_SIZE / 2.0) && Within(y, CENSORED_REGION_SIZE) && IsNormalizedDistance(x, y, d)
    ensures d <= 15.6
  {
    SquareUpTo(x.latitude - y.latitude, 11000.0);
    SquareUpTo(x.longitude - y.longitude, 11000.0);
    RootUpTo(d * CENSORED_REGION_SIZE, 15600.0);
  }

  /** The program's own distance and places are near enough. */
  lemma {:induction false} WorldIsNear(u: Setup)
    requires InWorld(u)
    requires forall x, y :: x in ProxyPlaces(u) && y in ClientPlaces(u) ==> IsNormalizedDistance(x, y, u.distance(x, y))
    ensures Near(u)
  {
    hide ProxyPlaces, ClientPlaces, Within, IsNormalizedDistance;
    forall x, y | x in ProxyPlaces(u) && y in ClientPlaces(u) ensures u.distance(x, y) <= FAR {
      WorldDistance(x, y, u.distance(x, y));
    }
  }

  // ----- What an agent is worth -----

  /** What is known of an agent's row. */
  ghost predicate HasRow(t: Tables, c: Ip, requests: int, known: int, created: int) {
    c in t.clients && t.clients[c] == Client(c, true, false, requests, known, created, t.clients[c].location)
  }

  /** A client that was not flagged, and asked for few proxies. */
  ghost predicate Calm(row: Client, n: int, now: int) {
    !row.flagged && row.requestCount <= n && row.knownBlocked <= n && row.creationTime <= now
  }

  /** Such a client is worth every proxy. */
  lemma {:induction false} ClientIsWorthy(u: Setup, t: Tables, sc: Scene, hit: seq<Client>, c: Ip, n: nat, now: int)
    requires IsScene(sc, t.proxies, t.clients, t.assignments, u.distance, hit, now) && Near(u) && InPlaces(u, t)
    requires Copies(t.clients, hit) && Listed(hit, c) > 0 && c in t.clients && Calm(t.clients[c], 5, now)
    requires BlockedUsage(t.assignments, t.proxies, c) <= 160
    ensures c in Standing(sc, n)
  {
    hide Copies, Consistent, Current, BlockedUsage, ProxyPlaces, ClientPlaces;
    CopiesAreRows(t.clients, hit);
    ListedIsHit(hit, c);
    var i :| 0 <= i < |hit| && hit[i].ip == c;
    UnflaggedRow(t.clients, hit, i);
    assert c in Unflagged(hit);
    var j := LastCopyFrom(hit, i);
    CurrentRow(t.clients, hit, j);
    LeastUtility(t.clients[c], BlockedUsage(t.assignments, t.proxies, c), now);
    forall k: nat | k < |t.proxies| ensures Worth(sc.w, t.proxies[k], c) >= CLIENT_UTILITY_THRESHOLD {
      hide GeneralUtility;
      assert u.distance(t.proxies[k].location, t.clients[c].location) <= FAR;
    }
  }

  lemma {:induction false} LeastUtility(c: Client, usage: int, now: int)
    requires usage <= 160 && Calm(c, 5, now)
    ensures GeneralUtility(c, usage, now) >= -175.0
  {
  }

  lemma {:induction false} UnflaggedRow(clients: map<Ip, Client>, hit: seq<Client>, i: nat)
    requires Copies(clients, hit) && i < |hit|
    ensures hit[i].ip in clients && hit[i].flagged == clients[hit[i].ip].flagged
  {
  }

  lemma {:induction false} CurrentRow(clients: map<Ip, Client>, hit: seq<Client>, j: nat)
    requires Current(clients, hit) && IsLastCopy(hit, j)
    ensures hit[j].ip in clients && hit[j] == clients[hit[j].ip]
  {
  }

  // ----- Who is placed -----

  /** The market has no more clients than there are. */
  lemma {:induction false} MarketSize(sc: Scene, m: Market, clients: map<Ip, Client>, hit: seq<Client>)
    requires IsMarket(sc, m) && sc.people == hit && Copies(clients, hit)
    ensures m.clientPrefs.Keys <= Unflagged(hit) && |m.clientPrefs| <= |clients|
  {
    hide ProxySide, RanksAll, ByProxyUtility, Worth;
    StandingKnown(sc);
    SomeUnflagged(clients, hit);
    assert |m.clientPrefs| == |m.clientPrefs.Keys| && |clients| == |clients.Keys|;
    SubsetBySize(m.clientPrefs.Keys, clients.Keys);
  }

  lemma {:induction false} SomeUnflagged(clients: map<Ip, Client>, hit: seq<Client>)
    requires Copies(clients, hit)
    ensures Unflagged(hit) <= clients.Keys
  {
  }

  /** Only listed clients are placed, at proxies that were free. */
  lemma {:induction false} PlacedAreListed(t: Tables, served: Tables, sc: Scene, m: Market, results: Matching,
      distance: (Location, Location) -> real, hit: seq<Client>, now: int, a: Assignment)
    requires Serving(t, served, sc, m, results, distance, hit, now) && Copies(t.clients, hit) && Distinct(t.proxies)
    requires Assigned(served.proxies, results, now, a)
    ensures Listed(hit, a.client) > 0 && a.proxy.id < |t.proxies| && Free(t.proxies[a.proxy.id])
  {
    hide Copies, IsMarket, ClientOptimal, Blocks, Sorted, NoDup, CountedUp, FlagRows, AssignedAll, Listed;
    SceneIs(sc, t.proxies, t.clients, t.assignments, distance, hit, now);
    MarketSize(sc, m, t.clients, hit);
    var p := served.proxies[a.proxy.id].ip;
    assert Feasible(m, results) && p in m.capacities;
    assert a.client in Unflagged(hit);
    ListedIsHit(hit, a.client);
    var k := RowOf(sc, m, p);
    assert t.proxies[a.proxy.id].ip == p;
  }

  /** A listed agent is placed, at one proxy, if some proxy has room for everybody. */
  lemma {:induction false} AgentServed(u: Setup, t: Tables, served: Tables, sc: Scene, m: Market, results: Matching,
      hit: seq<Client>, now: int, c: Ip, free: nat, requests: int, known: int, created: int)
      returns (k: nat)
    requires Serving(t, served, sc, m, results, u.distance, hit, now) && Near(u) && InPlaces(u, t)
    requires Copies(t.clients, hit) && Listed(hit, c) > 0 && HasRow(t, c, requests, known, created)
    requires BlockedUsage(t.assignments, t.proxies, c) <= 160
    requires created <= now && requests <= 5 && known <= 5
    requires free < |t.proxies| && Free(t.proxies[free]) && |t.clients| <= t.proxies[free].capacity
    requires Distinct(t.proxies)
    ensures k < |t.proxies| && Free(t.proxies[k])
    ensures forall p :: Placed(results, c, p) <==> p == t.proxies[k].ip
    ensures HasRow(served, c, requests + 1, known, created)
  {
    hide Copies, BestStable, IsScene, IsMarket, NoDup, BlockedUsage;
    hide Standing, AssignedAll, Applied, Listed, InPlaces, Near;
    SceneIs(sc, t.proxies, t.clients, t.assignments, u.distance, hit, now);
    ClientIsWorthy(u, t, sc, hit, c, |t.proxies|, now);
    MarketSize(sc, m, t.clients, hit);
    InMarket(sc, m, c);
    NobodyLeftOut(sc, m, results, free, c);
    k := WhereServed(t, sc, m, results, c);
    assert IsPlaced(results, c) && c !in Unflagged(hit) - m.clientPrefs.Keys;
  }

  lemma {:induction false} InMarket(sc: Scene, m: Market, c: Ip)
    requires IsMarket(sc, m) && c in Standing(sc, |sc.proxies|)
    ensures c in m.clientPrefs
  {
    hide ProxySide, Standing;
  }

  lemma {:induction false} WhereServed(t: Tables, sc: Scene, m: Market, results: Matching, c: Ip) returns (k: nat)
    requires IsMarket(sc, m) && BestStable(m, results) && IsPlaced(results, c) && sc.proxies == t.proxies
    ensures k < |t.proxies| && Free(t.proxies[k])
    ensures forall p :: Placed(results, c, p) <==> p == t.proxies[k].ip
  {
    hide IsMarket, ClientOptimal, Sorted, Blocks, NoDup;
    var p :| Placed(results, c, p);
    assert Feasible(m, results) && p in m.capacities;
    k := RowOf(sc, m, p);
  }

  // ----- Where the agents are -----

  /** The assignments of agents are exactly these. */
  ghost predicate AgentOnly(t: Tables, l: set<Assignment>) {
    forall a :: a in t.assignments && IsAgent(t, a.client) <==> a in l
  }

  /** Two open proxies, of which an agent holds one. */
  ghost predicate Tagged(t: Tables, c: Ip, k: nat, time: int, requests: int, known: int, created: int) {
    && |t.proxies| == 2 && k < 2 && AllOpen(t.proxies)
    && AgentOnly(t, {Assignment(Row(k), c, time)}) && HasRow(t, c, requests, known, created)
  }

  /** One of two proxies is blocked, and the agent that held it holds the other. */
  ghost predicate Split(t: Tables, c: Ip, k: nat, time: int, later: int, requests: int, known: int, created: int) {
    && |t.proxies| == 2 && k < 2 && t.proxies[k].isBlocked && !t.proxies[1 - k].isBlocked
    && AgentOnly(t, {Assignment(Row(k), c, time), Assignment(Row(1 - k), c, later)})
    && HasRow(t, c, requests, known, created)
  }

  /** Every open proxy was assigned to an agent at time `last` or before. */
  ghost predicate Doomed(t: Tables, last: int) {
    |t.proxies| == 2 && forall k: nat :: k < 2 && !t.proxies[k].isBlocked ==> Known(t, k, last)
  }

  ghost predicate Known(t: Tables, k: nat, last: int) {
    exists a :: a in t.assignments && a.proxy == Row(k) && IsAgent(t, a.client) && a.time <= last
  }

  /** The agent's proxy became known to the censor long enough ago. */
  ghost predicate Due(t: Tables, optimal: bool, now: int, a: Assignment) {
    && a.proxy.Row? && a.proxy.id < |t.proxies| && !t.proxies[a.proxy.id].isBlocked
    && (optimal ==> a.time < now - 2)
  }

  lemma {:induction false} NoneDue(x: Passage, optimal: bool, l: set<Assignment>)
    requires Targeted(x, optimal) && AgentOnly(x.before, l) && forall a :: a in l ==> !Due(x.before, optimal, x.now, a)
    ensures x.log.targets == []
  {
    if x.log.targets != [] {
      SomeTarget(x.log.targets);
    }
  }

  lemma {:induction false} SomeTarget(targets: seq<nat>)
    requires targets != []
    ensures exists k: nat :: k in targets
  {
    assert targets[0] in targets;
  }

  lemma {:induction false} OneDue(x: Passage, optimal: bool, l: set<Assignment>, a: Assignment)
    requires Targeted(x, optimal) && AgentOnly(x.before, l) && AllActive(x.before.proxies)
    requires a in l && Due(x.before, optimal, x.now, a)
    requires forall b :: b in l && b.proxy != a.proxy ==> !Due(x.before, optimal, x.now, b)
    ensures x.log.targets == [a.proxy.id]
  {
    assert IsTarget(x.before, optimal, a.proxy.id, x.now);
    TargetsOf(x.log.targets, a.proxy.id);
  }

  lemma {:induction false} TargetsOf(targets: seq<nat>, n: nat)
    requires Ascending(targets) && forall k: nat :: k in targets <==> k == n
    ensures targets == [n]
  {
    assert n in targets;
    TwoIn(targets);
  }

  lemma {:induction false} TwoIn<T>(l: seq<T>)
    requires NoDup(l)
    ensures |l| < 2 || exists x, y :: x in l && y in l && x != y
  {
    if |l| >= 2 {
      assert l[0] in l && l[1] in l && l[0] != l[1];
    }
  }

  // ----- Steps of the runs -----

  /** The assignment of the client that arrives. */
  ghost function Arrived(x: Passage): Assignment
    requires x.lastClient >= -1
  {
    Assignment(if x.k < |x.after.proxies| then Row(x.k) else NoProxy, ClientIp(x.lastClient + 1), x.now)
  }

  ghost predicate AgentArrives(x: Passage) {
    NewClient(x.now) && x.chance.isAgent
  }

  /** An agent that arrives joins those that are there. */
  lemma {:induction false} ArrivalAgents(x: Passage, l: set<Assignment>)
    requires Passes(x) && AgentOnly(x.served, l) && x.lastClient >= -1
    requires ClientIp(x.lastClient + 1) !in x.before.clients
    ensures AgentOnly(x.after, if AgentArrives(x) then l + {Arrived(x)} else l)
  {
    hide Passes, Sound, ClientIp, NewClient, Joined, Assigned;
    ClientsAfter(x);
    AgentsAfter(x);
    AssignmentsAdded(x);
    ServedIsSound(x);
    var added := x.after.assignments[|x.served.assignments|..];
    assert x.after.assignments == x.served.assignments + added;
    forall a ensures a in x.after.assignments && IsAgent(x.after, a.client) <==>
      a in l || (AgentArrives(x) && a == Arrived(x)) {
      assert a in added <==> NewClient(x.now) && a == Arrived(x);
    }
  }

  lemma {:induction false} RowsAfter(x: Passage)
    requires Passes(x) && x.lastClient >= -1 && ClientIp(x.lastClient + 1) !in x.before.clients
    ensures forall c, requests, known, created :: HasRow(x.served, c, requests, known, created) ==>
      HasRow(x.after, c, requests, known, created)
    ensures AgentArrives(x) ==> HasRow(x.after, ClientIp(x.lastClient + 1), 1, 0, x.now)
  {
    hide Passes, ClientIp, NewClient;
    ClientsAfter(x);
  }

  /** The first open proxy goes to the client that arrives, if there are few clients. */
  lemma {:induction false} FirstOpen(x: Passage, k: nat)
    requires Passes(x) && NewClient(x.now) && k < |x.served.proxies| && !x.served.proxies[k].isBlocked
    requires |x.before.clients| < MAX_PROXY_CAPACITY && forall j :: 0 <= j < k ==> x.served.proxies[j].isBlocked
    ensures x.k == k
  {
    hide Passes, Sound, NewClient, ClientIp, Joined;
    ClientsAfter(x);
    ServedIsSound(x);
    OpenHasRoom(x.served, k);
    FirstFree(x, k);
  }

  lemma {:induction false} FirstFree(x: Passage, k: nat)
    requires Passes(x) && NewClient(x.now) && k < |x.served.proxies| && Free(x.served.proxies[k])
    requires forall j :: 0 <= j < k ==> x.served.proxies[j].isBlocked
    ensures x.k == k
  {
    hide Serving, Blocking, Rejuvenation, Sound, NextProxyIp, ClientIp, NewClient;
    var grown := Grown(x.served.proxies, x.lastProxy, x.chance, x.now);
    assert Free(grown[k]) && forall j :: 0 <= j < k ==> !Free(grown[j]);
  }

  /** Nothing is due: the agents stay where they are, and an agent that arrives gets the first proxy. */
  lemma {:induction false} IdleStep(u: Setup, x: Passage, l: set<Assignment>)
    requires Passes(x) && Ready(u, x.before, x.now) && x.lastClient == (x.now + 3) / 4 - 1
    requires |x.before.clients| < MAX_PROXY_CAPACITY && AllOpen(x.before.proxies) && AgentOnly(x.before, l)
    requires x.log.targets == []
    ensures AllOpen(x.after.proxies)
    ensures |x.after.proxies| == |x.before.proxies| + (if x.now % NEW_PROXY_INTERVAL == 0 then 1 else 0)
    ensures AgentOnly(x.after,
      if AgentArrives(x) then l + {Assignment(Row(0), ClientIp(x.lastClient + 1), x.now)} else l)
    ensures AgentArrives(x) ==> HasRow(x.after, ClientIp(x.lastClient + 1), 1, 0, x.now)
    ensures forall c, requests, known, created :: HasRow(x.before, c, requests, known, created) ==>
      HasRow(x.after, c, requests, known, created)
  {
    hide Passes, Sound, InPlaces, NewClient, ClientIp, HasRow, AgentOnly;
    NothingHit(x);
    ProxiesAfter(x);
    RowsAfter(x);
    SameTables(x.before, x.served, l);
    ArrivalAgents(x, l);
    if AgentArrives(x) {
      FirstOpen(x, 0);
    }
  }

  lemma {:induction false} SameTables(before: Tables, after: Tables, l: set<Assignment>)
    requires after.clients == before.clients && after.assignments == before.assignments && AgentOnly(before, l)
    ensures AgentOnly(after, l)
    ensures forall c, requests, known, created :: HasRow(before, c, requests, known, created) ==>
      HasRow(after, c, requests, known, created)
  {
    assert forall c :: IsAgent(after, c) <==> IsAgent(before, c);
  }

  // ----- The agent moves -----

  /** An agent that was assigned once used that proxy until it was blocked. */
  lemma {:induction false} UsedOnce(were: seq<Proxy>, proxies: seq<Proxy>, assignments: seq<Assignment>, a: Assignment)
    requires Single(were, assignments) && Live(were, a) && |were| == |proxies|
    requires forall b :: b in assignments ==> b.proxy.Row? && b.proxy.id < |proxies|
    requires forall b :: b in assignments && b.client == a.client ==> b == a
    requires proxies[a.proxy.id].blockedAt - a.time <= 160
    ensures BlockedUsage(assignments, proxies, a.client) <= 160
  {
    if assignments != [] {
      var n := |assignments| - 1;
      var init, last := assignments[..n], assignments[n];
      assert assignments == init + [last];
      if last.client == a.client {
        NeverUsed(proxies, init, a.client);
      } else {
        UsedOnce(were, proxies, init, a);
      }
    }
  }

  lemma {:induction false} NeverUsed(proxies: seq<Proxy>, assignments: seq<Assignment>, c: Ip)
    requires forall b :: b in assignments ==> b.proxy.Row? && b.proxy.id < |proxies|
    requires forall b :: b in assignments && b.client == c ==> !proxies[b.proxy.id].isBlocked
    ensures BlockedUsage(assignments, proxies, c) == 0
  {
    if assignments != [] {
      var n := |assignments| - 1;
      assert assignments == assignments[..n] + [assignments[n]];
      NeverUsed(proxies, assignments[..n], c);
    }
  }

  /** Only clients of the blocked proxy are listed, its agent among them. */
  lemma {:induction false} AgentListed(x: Passage, k: nat, a: Assignment, l: set<Assignment>)
    requires Passes(x) && x.log.targets == [k] && AgentOnly(x.before, l) && a in l && a.proxy == Row(k)
    requires forall b :: b in l ==> b.client == a.client
    ensures Listed(x.log.hit, a.client) == 1
    ensures forall c :: c != a.client && IsAgent(x.before, c) ==> Listed(x.log.hit, c) == 0
    ensures forall requests, known, created :: HasRow(x.before, a.client, requests, known, created) ==>
      HasRow(x.log.blocked, a.client, requests, known + 1, created)
  {
    hide Serving, Copies, Arrival, Rejuvenation, Sound;
    OneTarget(x.before.assignments, k);
  }

  lemma {:induction false} MovedPlaces(u: Setup, x: Passage)
    requires Passes(x) && InPlaces(u, x.before)
    ensures InPlaces(u, x.log.moved) && x.log.moved.clients == x.log.blocked.clients
  {
    hide Serving, Copies, Arrival, Sound, ProxyPlaces, ClientPlaces, Survivors, MigrationIp, Times, Listed;
    forall k | 0 <= k < |x.before.proxies| ensures x.log.moved.proxies[k].location == x.before.proxies[k].location {
      if x.moves {
        assert Rejuvenated(x.log.blocked.proxies[k], x.log.moved.proxies[k], x.held);
      }
    }
  }

  /** The only agent that is listed is placed: all assignments of agents are those that stay, and its new one. */
  lemma {:induction false} OnlyMove(x: Passage, c: Ip, k: nat, l: set<Assignment>, stay: set<Assignment>)
    requires Passes(x) && Sound(x.before) && AgentOnly(x.before, l) && IsAgent(x.before, c)
    requires NewClient(x.now) ==> x.lastClient >= -1 && ClientIp(x.lastClient + 1) !in x.before.clients
    requires forall a :: a in stay <==> a in l && !Reset(x, a)
    requires forall d :: d != c && IsAgent(x.before, d) ==> Listed(x.log.hit, d) == 0
    requires k < |x.served.proxies| && forall p :: Placed(x.log.results, c, p) <==> p == x.served.proxies[k].ip
    ensures AgentOnly(x.served, stay + {Assignment(Row(k), c, x.now)})
  {
    hide Passes, Sound, Reset, IsAgent, Assigned, NewClient, ClientIp;
    ActiveBefore(x);
    AssignmentsAfter(x);
    AgentsAfter(x);
    DistinctMoved(x);
    forall a | Assigned(x.served.proxies, x.log.results, x.now, a) && IsAgent(x.served, a.client)
      ensures a == Assignment(Row(k), c, x.now)
    {
      AgentIsC(x, c, k, a);
    }
    IsAssigned(x, c, k);
  }

  lemma {:induction false} ActiveBefore(x: Passage)
    requires Sound(x.before)
    ensures AllActive(x.before.proxies)
  {
  }

  lemma {:induction false} IsAssigned(x: Passage, c: Ip, k: nat)
    requires k < |x.served.proxies| && Placed(x.log.results, c, x.served.proxies[k].ip)
    ensures Assigned(x.served.proxies, x.log.results, x.now, Assignment(Row(k), c, x.now))
  {
  }

  lemma {:induction false} AgentIsC(x: Passage, c: Ip, k: nat, a: Assignment)
    requires Passes(x) && Distinct(x.log.moved.proxies)
    requires k < |x.served.proxies| && forall p :: Placed(x.log.results, c, p) <==> p == x.served.proxies[k].ip
    requires Assigned(x.served.proxies, x.log.results, x.now, a) && IsAgent(x.before, a.client)
    requires forall d :: d != c && IsAgent(x.before, d) ==> Listed(x.log.hit, d) == 0
    ensures a == Assignment(Row(k), c, x.now)
  {
    hide Passes, Serving, Sound, Copies, Listed;
    ServedIsServed(x);
    ServedIsSound(x);
    PlacedAreListed(x.log.moved, x.served, x.log.scene, x.log.market, x.log.results, x.distance, x.log.hit, x.now, a);
  }

  lemma {:induction false} NoArrival(x: Passage)
    requires Passes(x) && 0 < x.now < 100 && !NewClient(x.now)
    ensures x.after == x.served
  {
    hide Serving, Blocking, Rejuvenation, Sound, NextProxyIp, ClientIp;
  }

  lemma {:induction false} MovedSize(x: Passage)
    requires Passes(x)
    ensures |x.log.moved.clients| == |x.before.clients|
  {
    hide Serving, Copies, Arrival, Sound, Survivors, Rejuvenated, Restarted, Listed, Times, Learned;
    LearnedKeeps(x.before.clients, x.before.assignments, x.log.targets);
    assert |x.log.moved.clients.Keys| == |x.log.moved.clients| && |x.before.clients.Keys| == |x.before.clients|;
  }

  /** If one of two open proxies is blocked, the other one has room for everybody. */
  lemma {:induction false} OtherIsFree(x: Passage, k: nat)
    requires Passes(x) && Sound(x.before) && !x.moves && |x.before.proxies| == 2 && AllOpen(x.before.proxies)
    requires k < 2 && x.log.targets == [k] && 2 * |x.before.clients| <= MAX_PROXY_CAPACITY
    ensures |x.log.moved.proxies| == 2 && x.log.moved.proxies[k].isBlocked
    ensures Free(x.log.moved.proxies[1 - k]) && |x.log.moved.clients| <= x.log.moved.proxies[1 - k].capacity
  {
    hide Passes, Sound;
    ActiveBefore(x);
    OpenHasRoom(x.before, 1 - k);
    MovedSize(x);
    OneBlocked(x, k);
  }

  lemma {:induction false} OneBlocked(x: Passage, k: nat)
    requires Passes(x) && !x.moves && x.log.targets == [k] && k < |x.before.proxies|
    ensures x.log.moved.proxies == x.before.proxies[k := BlockedAt(x.before.proxies[k], x.now)]
    ensures x.log.moved.assignments == x.before.assignments
  {
    hide Serving, Copies, Arrival, Sound, Listed, Times, Learned;
  }

  lemma {:induction false} UsageSoFar(x: Passage, a: Assignment)
    requires Passes(x) && Sound(x.before) && !x.moves && Live(x.before.proxies, a) && x.log.targets == [a.proxy.id]
    requires x.now - a.time <= 160 && forall b :: b in x.before.assignments && b.client == a.client ==> b == a
    requires forall b :: b in x.log.moved.assignments ==> b.proxy.Row? && b.proxy.id < |x.log.moved.proxies|
    ensures BlockedUsage(x.log.moved.assignments, x.log.moved.proxies, a.client) <= 160
  {
    hide Passes, Conserved, BlockedUsage;
    OneBlocked(x, a.proxy.id);
    UsedOnce(x.before.proxies, x.log.moved.proxies, x.before.assignments, a);
  }

  lemma {:induction false} MovedRows(x: Passage)
    requires Passes(x)
    ensures forall b :: b in x.log.moved.assignments ==> b.proxy.Row? && b.proxy.id < |x.log.moved.proxies|
  {
    hide Passes, Sound, Assigned;
    ServedIsSound(x);
    AssignmentsAdded(x);
    DistinctMoved(x);
  }

  /** Without rejuvenation, the agent's proxy is blocked, and the agent gets the other one. */
  lemma {:induction false} MoveStep(u: Setup, x: Passage, c: Ip, k: nat, time: int, requests: int, known: int,
      created: int)
    requires Passes(x) && Ready(u, x.before, x.now) && x.distance == u.distance && Near(u)
    requires !x.moves && 0 < x.now < 100 && !NewClient(x.now) && 2 * |x.before.clients| <= MAX_PROXY_CAPACITY
    requires Tagged(x.before, c, k, time, requests, known, created) && x.log.targets == [k]
    requires x.now - time <= 160 && created <= x.now && requests <= 5 && known <= 4
    ensures Split(x.after, c, k, time, x.now, requests + 1, known + 1, created)
  {
    hide Passes, Sound, InPlaces, NewClient, AgentOnly, Listed, Serving, Copies, Near, ClientIp, BlockedUsage, Distinct;
    ActiveBefore(x);
    var a := Assignment(Row(k), c, time);
    AgentListed(x, k, a, {a});
    MovedPlaces(u, x);
    ServedIsServed(x);
    DistinctMoved(x);
    OtherIsFree(x, k);
    MovedRows(x);
    AgentsAreThere(x.before, {a});
    UsageSoFar(x, a);
    var j := AgentServed(u, x.log.moved, x.served, x.log.scene, x.log.market, x.log.results, x.log.hit, x.now, c, 1 - k,
      requests, known + 1, created);
    assert j == 1 - k;
    OnlyMove(x, c, j, {a}, {a});
    assert {a} + {Assignment(Row(j), c, x.now)} == {a, Assignment(Row(1 - k), c, x.now)};
    NoArrival(x);
    BlockedAfter(x);
  }

  // ----- Rejuvenation -----

  /** A blocked proxy that is rejuvenated has all its room again. */
  lemma {:induction false} RoomAgain(x: Passage, k: nat)
    requires Passes(x) && Sound(x.before) && x.moves && k < |x.before.proxies|
    requires x.before.proxies[k].isBlocked || k in x.log.targets
    ensures |x.log.moved.proxies| == |x.before.proxies|
    ensures Free(x.log.moved.proxies[k]) && x.log.moved.proxies[k].capacity == MAX_PROXY_CAPACITY
  {
    hide Serving, Copies, Arrival, Conserved, Linked, Single, Listed, Times, Learned, Survivors, MigrationIp;
    assert Rejuvenated(x.log.blocked.proxies[k], x.log.moved.proxies[k], x.held);
  }

  lemma {:induction false} MovedOpen(x: Passage)
    requires Passes(x) && x.moves && AllActive(x.before.proxies)
    ensures AllOpen(x.log.moved.proxies)
  {
    hide Serving, Copies, Arrival, Sound, Listed, Times, Learned, Survivors, MigrationIp;
    forall k | 0 <= k < |x.log.moved.proxies| ensures !x.log.moved.proxies[k].isBlocked {
      assert Rejuvenated(x.log.blocked.proxies[k], x.log.moved.proxies[k], x.held);
    }
  }

  lemma {:induction false} AllReset(x: Passage)
    requires Sound(x.before) && x.moves && |x.before.proxies| == 2
    requires forall k :: 0 <= k < 2 ==> x.before.proxies[k].isBlocked || k in x.log.targets
    ensures forall a :: a in x.before.assignments ==> Reset(x, a)
  {
    hide Conserved, Single;
  }

  lemma {:induction false} OpenIsUsedNow(x: Passage, c: Ip)
    requires AllOpen(x.log.moved.proxies)
    requires forall b :: b in x.log.moved.assignments ==> b.proxy.Row? && b.proxy.id < |x.log.moved.proxies|
    ensures BlockedUsage(x.log.moved.assignments, x.log.moved.proxies, c) == 0
  {
    NeverUsed(x.log.moved.proxies, x.log.moved.assignments, c);
  }

  /** With rejuvenation, the agent's other proxy is blocked as well, all assignments go, and the
      agent gets one of both proxies again. */
  lemma {:induction false} ComeBackStep(u: Setup, x: Passage, c: Ip, k: nat, time: int, later: int, requests: int,
      known: int, created: int)
      returns (j: nat)
    requires Passes(x) && Ready(u, x.before, x.now) && x.distance == u.distance && Near(u)
    requires x.moves && 0 < x.now < 100 && !NewClient(x.now) && |x.before.clients| <= MAX_PROXY_CAPACITY
    requires Split(x.before, c, k, time, later, requests, known, created) && x.log.targets == [1 - k]
    requires created <= x.now && requests <= 5 && known <= 4
    ensures Tagged(x.after, c, j, x.now, requests + 1, known + 1, created)
  {
    hide Passes, Sound, InPlaces, NewClient, AgentOnly, Listed, Serving, Copies, Near, ClientIp, BlockedUsage, Distinct;
    hide Reset;
    ActiveBefore(x);
    var a, b := Assignment(Row(k), c, time), Assignment(Row(1 - k), c, later);
    AgentListed(x, 1 - k, b, {a, b});
    MovedPlaces(u, x);
    ServedIsServed(x);
    DistinctMoved(x);
    RoomAgain(x, k);
    MovedSize(x);
    MovedRows(x);
    MovedOpen(x);
    OpenIsUsedNow(x, c);
    j := AgentServed(u, x.log.moved, x.served, x.log.scene, x.log.market, x.log.results, x.log.hit, x.now, c, k,
      requests,
      known + 1, created);
    AllReset(x);
    AgentsAreThere(x.before, {a, b});
    OnlyMove(x, c, j, {a, b}, {});
    assert {} + {Assignment(Row(j), c, x.now)} == {Assignment(Row(j), c, x.now)};
    NoArrival(x);
    BlockedAfter(x);
  }

  lemma {:induction false} AgentsAreThere(t: Tables, l: set<Assignment>)
    requires AgentOnly(t, l)
    ensures forall a :: a in l ==> a in t.assignments && IsAgent(t, a.client)
    ensures forall a :: a in t.assignments && IsAgent(t, a.client) ==> a in l
  {
  }

  /** With rejuvenation, the first proxy is open again, and the agent that arrives gets it, while
      the other agent has not been found out. */
  lemma {:induction false} ReopenStep(u: Setup, x: Passage, c: Ip, time: int, later: int, requests: int, known: int,
      created: int)
    requires Passes(x) && Ready(u, x.before, x.now) && x.lastClient == (x.now + 3) / 4 - 1
    requires x.moves && 0 < x.now < 100 && AgentArrives(x) && |x.before.clients| < MAX_PROXY_CAPACITY
    requires Split(x.before, c, 0, time, later, requests, known, created) && x.log.targets == [] && later <= x.now
    ensures Doomed(x.after, x.now)
  {
    hide Passes, Sound, InPlaces, NewClient, AgentOnly, ClientIp, HasRow, Assigned, IsAgent;
    ActiveBefore(x);
    BlockedAfter(x);
    ProxiesAfter(x);
    FirstOpen(x, 0);
    var a, b := Assignment(Row(0), c, time), Assignment(Row(1), c, later);
    AgentsAreThere(x.before, {a, b});
    OldAssignments(x);
    AssignmentsAdded(x);
    AgentsAfter(x);
    var d := Arrived(x);
    assert x.after.assignments == x.served.assignments + [d];
    assert d in x.after.assignments && IsAgent(x.after, d.client);
    assert b in x.after.assignments && IsAgent(x.after, b.client);
  }

  // ----- No way out -----

  lemma {:induction false} DoomedStep(u: Setup, x: Passage, last: int)
    requires Passes(x) && Ready(u, x.before, x.now) && x.lastClient == (x.now + 3) / 4 - 1
    requires !x.moves && 0 < x.now < 100 && Doomed(x.before, last)
    ensures Doomed(x.after, last)
  {
    hide Passes, Sound, InPlaces, ClientIp, NewClient, IsAgent;
    ActiveBefore(x);
    BlockedAfter(x);
    ProxiesAfter(x);
    OldAssignments(x);
    forall k: nat | k < 2 && !x.after.proxies[k].isBlocked ensures Known(x.after, k, last) {
      assert Known(x.before, k, last);
      var a :| a in x.before.assignments && a.proxy == Row(k) && IsAgent(x.before, a.client) && a.time <= last;
      assert !Reset(x, a);
    }
  }

  lemma {:induction false} SplitIsDoomed(t: Tables, c: Ip, k: nat, time: int, later: int, requests: int, known: int,
      created: int)
    requires Split(t, c, k, time, later, requests, known, created)
    ensures Doomed(t, later)
  {
    var a := Assignment(Row(1 - k), c, later);
    assert a in t.assignments && IsAgent(t, a.client);
  }

  /** The client that arrives finds no proxy. */
  lemma {:induction false} LastStep(u: Setup, x: Passage, last: int)
    requires Passes(x) && Targeted(x, u.optimal) && Ready(u, x.before, x.now)
    requires !x.moves && 0 < x.now < 100 && NewClient(x.now)
    requires Doomed(x.before, last) && (u.optimal ==> last < x.now - 2)
    ensures Stuck(x)
  {
    hide Passes, Sound, InPlaces, ClientIp, NewClient;
    ActiveBefore(x);
    BlockedAfter(x);
    forall k: nat | k < 2 ensures x.served.proxies[k].isBlocked {
      if !x.before.proxies[k].isBlocked {
        assert Known(x.before, k, last);
        assert IsTarget(x.before, u.optimal, k, x.now);
      }
    }
    NoneFree(x);
  }

  lemma {:induction false} NoneFree(x: Passage)
    requires Passes(x) && 0 < x.now < 100 && NewClient(x.now)
    requires forall k :: 0 <= k < |x.served.proxies| ==> x.served.proxies[k].isBlocked
    ensures Stuck(x)
  {
    hide Serving, Blocking, Rejuvenation, Sound, NextProxyIp, ClientIp;
  }

  // ----- The runs -----

  /** When the first agent arrives, and when the client that finds no proxy. */
  function FirstAgent(u: Setup): nat
    requires u.interval > 0
  {
    if u.optimal then (if u.interval > 8 then 0 else 4 * u.interval - 4)
    else if u.interval == 3 then 4
    else 0
  }

  function FailStep(u: Setup): nat
    requires u.interval > 0
  {
    FirstAgent(u) + (if u.optimal then 8 else 4)
  }

  /** Proxies are not rejuvenated whenever a client arrives, places are near, and the clients that
      arrive first are no agents up to some time, and an agent then. The censor that waits needs
      two agents if the interval is short. */
  ghost predicate Fails(u: Setup) {
    && u.interval > 0 && 4 % u.interval != 0 && (u.optimal ==> u.interval != 3) && Near(u)
    && |u.chances| > FailStep(u)
    && (forall i :: 0 <= i < FirstAgent(u) && NewClient(i) ==> !u.chances[i].isAgent)
    && u.chances[FirstAgent(u)].isAgent
    && (u.optimal && u.interval <= 8 ==> u.chances[FirstAgent(u) + 4].isAgent)
  }

  /** How such a run stands at the start of each step. */
  ghost predicate Stage(u: Setup, t: Tables, now: nat)
    requires u.interval > 0
  {
    var s := FirstAgent(u);
    var c := ClientIp(s / 4);
    if now <= s then AllOpen(t.proxies) && |t.proxies| == (if now == 0 then 1 else 2) && AgentOnly(t, {})
    else if now <= s + (if u.optimal then 3 else 1) then Tagged(t, c, 0, s, 1, 0, s)
    else if u.optimal then
      if u.interval > 8 then Doomed(t, s + 3)
      else if now == s + 4 then Split(t, c, 0, s, s + 3, 2, 1, s)
      else Doomed(t, s + 4)
    else if u.interval != 3 then Doomed(t, s + 1)
    else if now == 6 then Split(t, c, 0, 4, 5, 2, 1, 4)
    else if now == 7 then exists k: nat :: Tagged(t, c, k, 6, 3, 2, 4)
    else Doomed(t, 7)
  }

  lemma {:induction false} SmallRemainder(n: nat, m: nat)
    requires 0 < n < m
    ensures n % m == n
  {
  }

  /** When proxies are rejuvenated after the first agent came. */
  lemma {:induction false} WhenMoved(u: Setup, now: nat)
    requires u.interval > 0 && 4 % u.interval != 0 && (u.optimal ==> u.interval != 3)
    requires FirstAgent(u) < now <= FailStep(u)
    ensures u.interval == 3 || u.interval > 4
    ensures now % u.interval == 0 <==>
      if u.optimal then u.interval <= 8 && now == FirstAgent(u) + 4 else u.interval == 3 && now == 6
  {
    var m := u.interval;
    assert m != 1 && m != 2 && m != 4;
    if m > 8 || (m > 4 && !u.optimal) {
      SmallRemainder(now, m);
    }
  }

  lemma {:induction false} StageNext(u: Setup, x: Passage)
    requires Fails(u) && x.now < FailStep(u) && IsPassage(u, x, x.now) && Ready(u, x.before, x.now)
    requires Stage(u, x.before, x.now)
    ensures Stage(u, x.after, x.now + 1)
  {
    if x.now <= FirstAgent(u) {
      QuietNext(u, x);
    } else {
      WhenMoved(u, x.now);
      if u.optimal {
        WaitingNext(u, x);
      } else {
        AggressiveNext(u, x);
      }
    }
  }

  lemma {:induction false} QuietIs(u: Setup, x: Passage)
    requires Fails(u) && x.now <= FirstAgent(u) && IsPassage(u, x, x.now) && Ready(u, x.before, x.now)
    requires Stage(u, x.before, x.now)
    ensures u.interval > 0 && Passes(x) && Targeted(x, u.optimal) && x.lastClient == (x.now + 3) / 4 - 1
    ensures AllOpen(x.before.proxies) && AgentOnly(x.before, {}) && |x.before.clients| < MAX_PROXY_CAPACITY
    ensures |x.before.proxies| == (if x.now == 0 then 1 else 2) && x.now < 100
    ensures AgentArrives(x) <==> x.now == FirstAgent(u)
    ensures AgentArrives(x) ==> x.lastClient + 1 == FirstAgent(u) / 4
  {
    hide Passes, Sound, InPlaces, Near, Targeted, AgentOnly;
  }

  lemma {:induction false} QuietStage(u: Setup, t: Tables, now: nat)
    requires u.interval > 0 && now <= FirstAgent(u) && AllOpen(t.proxies) && |t.proxies| == 2
    requires now < FirstAgent(u) ==> AgentOnly(t, {})
    requires now == FirstAgent(u) ==>
      AgentOnly(t, {Assignment(Row(0), ClientIp(now / 4), now)}) && HasRow(t, ClientIp(now / 4), 1, 0, now)
    ensures Stage(u, t, now + 1)
  {
    hide ClientIp, HasRow, AgentOnly;
  }

  /** Before the first agent. */
  lemma {:induction false} QuietNext(u: Setup, x: Passage)
    requires Fails(u) && x.now <= FirstAgent(u) && IsPassage(u, x, x.now) && Ready(u, x.before, x.now)
    requires Stage(u, x.before, x.now)
    ensures Stage(u, x.after, x.now + 1)
  {
    hide Fails, IsPassage, Passes, Ready, Targeted, Stage, ClientIp, HasRow, AgentOnly, AgentArrives, FirstAgent;
    QuietIs(u, x);
    NoneDue(x, u.optimal, {});
    IdleStep(u, x, {});
    var a := Assignment(Row(0), ClientIp(x.lastClient + 1), x.now);
    assert {} + {a} == {a};
    QuietStage(u, x.after, x.now);
  }

  /** The censor that does not wait. */
  lemma {:induction false} AggressiveNext(u: Setup, x: Passage)
    requires Fails(u) && !u.optimal && FirstAgent(u) < x.now < FailStep(u)
    requires IsPassage(u, x, x.now) && Ready(u, x.before, x.now)
    requires x.moves <==> u.interval == 3 && x.now == 6
    requires Stage(u, x.before, x.now)
    ensures Stage(u, x.after, x.now + 1)
  {
    hide Passes, Sound, InPlaces, ClientIp, Near, HasRow, AgentOnly;
    ActiveBefore(x);
    var s := FirstAgent(u);
    var c := ClientIp(s / 4);
    if x.now == s + 1 {
      var a := Assignment(Row(0), c, s);
      OneDue(x, false, {a}, a);
      MoveStep(u, x, c, 0, s, 1, 0, s);
      SplitIsDoomed(x.after, c, 0, s, x.now, 2, 1, s);
    } else if u.interval != 3 {
      DoomedStep(u, x, s + 1);
    } else if x.now == 6 {
      var a, b := Assignment(Row(0), c, 4), Assignment(Row(1), c, 5);
      OneDue(x, false, {a, b}, b);
      var k := ComeBackStep(u, x, c, 0, 4, 5, 2, 1, 4);
    } else {
      var k: nat :| Tagged(x.before, c, k, 6, 3, 2, 4);
      var a := Assignment(Row(k), c, 6);
      OneDue(x, false, {a}, a);
      MoveStep(u, x, c, k, 6, 3, 2, 4);
      SplitIsDoomed(x.after, c, k, 6, 7, 4, 3, 4);
    }
  }

  /** The censor that waits. */
  lemma {:induction false} WaitingNext(u: Setup, x: Passage)
    requires Fails(u) && u.optimal && FirstAgent(u) < x.now < FailStep(u)
    requires IsPassage(u, x, x.now) && Ready(u, x.before, x.now)
    requires x.moves <==> u.interval <= 8 && x.now == FirstAgent(u) + 4
    requires Stage(u, x.before, x.now)
    ensures Stage(u, x.after, x.now + 1)
  {
    hide Passes, Sound, InPlaces, ClientIp, Near, HasRow, AgentOnly;
    ActiveBefore(x);
    var s := FirstAgent(u);
    var c := ClientIp(s / 4);
    var a, b := Assignment(Row(0), c, s), Assignment(Row(1), c, s + 3);
    if x.now < s + 3 {
      NoneDue(x, true, {a});
      IdleStep(u, x, {a});
    } else if x.now == s + 3 {
      OneDue(x, true, {a}, a);
      MoveStep(u, x, c, 0, s, 1, 0, s);
      SplitIsDoomed(x.after, c, 0, s, x.now, 2, 1, s);
    } else if u.interval > 8 {
      DoomedStep(u, x, s + 3);
    } else if x.now == s + 4 {
      NoneDue(x, true, {a, b});
      ReopenStep(u, x, c, s, s + 3, 2, 1, s);
    } else {
      DoomedStep(u, x, s + 4);
    }
  }

  /** How such a run stands, at every step. */
  lemma {:induction false} StageAt(u: Setup, trace: seq<Passage>, i: nat)
    requires Fails(u) && IsRun(u, trace) && Kept(u, trace) && i < |trace| && i <= FailStep(u)
    ensures Stage(u, trace[i].before, i)
  {
    hide Fails, Passes, Targeted, Stage, Ready, Renames, HeldIn;
    if i == 0 {
      StageZero(u);
    } else {
      StageAt(u, trace, i - 1);
      assert Follows(trace, i) && Ready(u, trace[i - 1].before, i - 1);
      FailsAtAll(u);
      StageNext(u, trace[i - 1]);
    }
  }

  lemma {:induction false} FailsAtAll(u: Setup)
    requires Fails(u)
    ensures u.interval > 0 && |u.chances| > FailStep(u)
  {
  }

  lemma {:induction false} StageZero(u: Setup)
    requires u.interval > 0
    ensures Stage(u, Start(u), 0)
  {
  }

  lemma {:induction false} StageLast(u: Setup, x: Passage)
    requires Fails(u) && x.now == FailStep(u) && IsPassage(u, x, x.now) && Ready(u, x.before, x.now)
    requires Stage(u, x.before, x.now)
    ensures Stuck(x)
  {
    hide Passes, Targeted, Ready, Near, HasRow, Tagged, Split, Doomed, AgentOnly;
    WhenMoved(u, x.now);
    var last := if u.optimal then FirstAgent(u) + (if u.interval > 8 then 3 else 4)
      else if u.interval == 3 then 7 else FirstAgent(u) + 1;
    LastStep(u, x, last);
  }

  /** Such a run ends with the exception, at step `FailStep` at the latest. */
  lemma {:induction false} RunFails(u: Setup, trace: seq<Passage>)
    requires Fails(u) && IsRun(u, trace) && Kept(u, trace)
    ensures |trace| <= FailStep(u) + 1
    ensures |trace| == FailStep(u) + 1 ==> Stuck(trace[FailStep(u)])
  {
    hide Fails, Passes, Targeted, Stage, Ready, Renames, HeldIn, Stuck;
    FailsAtAll(u);
    var n := FailStep(u);
    if |trace| > n {
      StageAt(u, trace, n);
      if |trace| > n + 1 {
        NotTheLast(u, trace, n);
      }
      StageLast(u, trace[n]);
    }
  }

  lemma {:induction false} NotTheLast(u: Setup, trace: seq<Passage>, i: nat)
    requires IsRun(u, trace) && i + 1 < |trace|
    ensures !Stuck(trace[i])
  {
    hide Passes, Targeted, Stuck;
    assert Follows(trace, i + 1);
  }
}
