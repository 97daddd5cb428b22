/** The censor that waits, with proxies rejuvenated every three steps: a run that ends with the
    exception at step 160. All clients move together from proxy to proxy behind two agents. Once
    the agents part, the other two of three proxies are blocked at once, and the last one has
    exactly as many places as there are clients. */
module SimulationCrowds {
  import opened Addresses
  import opened Lists
  import opened SimulationTables
  import opened SimulationHolders
  import opened DeferredAcceptance
  import opened SimulationMarkets
  import opened SimulationJudging
  import opened SimulationMatches
  import opened SimulationSteps
  import opened SimulationTraces
  import opened SimulationFailures

  // ----- First choices -----

  /** The client ranks a proxy of more utility higher. */
  lemma {:induction false} BetterRow(sc: Scene, m: Market, c: Ip, k: nat, l: nat)
    requires IsMarket(sc, m) && c in m.clientPrefs && Distinct(sc.proxies) && k != l
    requires k < |sc.proxies| && Free(sc.proxies[k]) && l < |sc.proxies| && Free(sc.proxies[l])
    requires c in sc.w.places && MoreUseful(sc, c, k, l)
    ensures Prefers(m.clientPrefs[c], sc.proxies[k].ip, sc.proxies[l].ip)
  {
    hide NoDup, ProxySide, Standing, RanksAll, ProxyUtility;
    AvailableIsListed(sc, m, c, k);
    AvailableIsListed(sc, m, c, l);
    var ranking, p, q := m.clientPrefs[c], sc.proxies[k].ip, sc.proxies[l].ip;
    assert p != q;
    if IndexOf(ranking, q) < IndexOf(ranking, p) {
      RankedRows(sc, m, c, l, k);
    }
  }

  lemma {:induction false} RankedRows(sc: Scene, m: Market, c: Ip, l: nat, k: nat)
    requires IsMarket(sc, m) && c in m.clientPrefs && k < |sc.proxies| && l < |sc.proxies| && c in sc.w.places
    requires Prefers(m.clientPrefs[c], sc.proxies[l].ip, sc.proxies[k].ip)
    ensures RowComesFirst(sc.proxies, sc.assignments, sc.w.distance, sc.w.places[c], l, k)
  {
    hide NoDup, ProxySide, Standing, RanksAll, ProxyUtility, RowComesFirst;
  }

  ghost predicate MoreUseful(sc: Scene, c: Ip, k: nat, l: nat)
    requires k < |sc.proxies| && l < |sc.proxies| && c in sc.w.places
  {
    ProxyUtility(sc.proxies, sc.assignments, sc.w.distance, k, sc.w.places[c]) >
      ProxyUtility(sc.proxies, sc.assignments, sc.w.distance, l, sc.w.places[c])
  }

  /** A client gets the available proxy of most utility, if that has room for everybody. */
  lemma {:induction false} FirstChoice(sc: Scene, m: Market, results: Matching, c: Ip, k: nat)
    requires IsMarket(sc, m) && BestStable(m, results) && c in m.clientPrefs && Distinct(sc.proxies)
    requires k < |sc.proxies| && Free(sc.proxies[k]) && |m.clientPrefs| <= sc.proxies[k].capacity
    requires c in sc.w.places
    requires forall l: nat :: l < |sc.proxies| && Free(sc.proxies[l]) && l != k ==> MoreUseful(sc, c, k, l)
    ensures forall p :: Placed(results, c, p) <==> p == sc.proxies[k].ip
  {
    hide ClientOptimal, ByWorth, ByProxyUtility, Worth, Sorted, NoDup, Elems, Standing, WellFormed;
    var ip := sc.proxies[k].ip;
    assert Offered(sc, k, m.proxyPrefs, m.capacities);
    MarketIsWellFormed(sc, m);
    AvailableIsListed(sc, m, c, k);
    IsAcceptable(m, c, ip);
    forall q | Placed(results, c, q) && q != ip ensures Prefers(m.clientPrefs[c], ip, q) {
      InCapacities(m, results, c, q);
      var l := RowOf(sc, m, q);
      BetterRow(sc, m, c, k, l);
    }
    hide IsMarket, MoreUseful, Offered;
    if !Placed(results, c, ip) {
      RoomBlocks(m, results, c, ip);
    }
  }

  lemma {:induction false} IsAcceptable(m: Market, c: Ip, ip: Ip)
    requires WellFormed(m) && c in m.clientPrefs && ip in m.clientPrefs[c]
    ensures Acceptable(m, c, ip)
  {
    hide NoDup;
  }

  lemma {:induction false} InCapacities(m: Market, results: Matching, c: Ip, q: Ip)
    requires BestStable(m, results) && Placed(results, c, q)
    ensures q in m.capacities
  {
    hide ClientOptimal, Sorted, Blocks, NoDup;
    assert Feasible(m, results);
  }

  /** A proxy with room for everybody blocks a matching in which someone prefers it. */
  lemma {:induction false} RoomBlocks(m: Market, results: Matching, c: Ip, ip: Ip)
    requires BestStable(m, results) && c in m.clientPrefs && ip in m.clientPrefs[c] && Acceptable(m, c, ip)
    requires |m.clientPrefs| <= m.capacities[ip]
    requires forall q :: Placed(results, c, q) && q != ip ==> Prefers(m.clientPrefs[c], ip, q)
    ensures Placed(results, c, ip)
  {
    hide ClientOptimal, Sorted, NoDup, Prefers;
    assert Feasible(m, results);
    if !Placed(results, c, ip) {
      hide Feasible;
      RoomForOne(m, results, c, ip);
    }
  }

  lemma {:induction false} RoomForOne(m: Market, results: Matching, c: Ip, ip: Ip)
    requires Feasible(m, results) && c in m.clientPrefs && ip in m.clientPrefs[c] && Acceptable(m, c, ip)
    requires |m.clientPrefs| <= m.capacities[ip] && !Placed(results, c, ip)
    requires forall q :: Placed(results, c, q) && q != ip ==> Prefers(m.clientPrefs[c], ip, q)
    ensures Blocks(m, results, c, ip)
  {
    hide NoDup, Prefers;
    FullOfOthers(m, results, ip, c);
  }

  // ----- Where everybody is -----

  ghost predicate Camps(t: Tables, c: Ip, k: nat) {
    k < |t.proxies| && !t.proxies[k].isBlocked &&
    exists a :: a in t.assignments && a.client == c && a.proxy == Row(k)
  }

  /** Every client is at the open proxy that the map says, and at no other one. */
  ghost predicate Camp(t: Tables, spot: map<Ip, nat>) {
    && spot.Keys == t.clients.Keys && (forall a :: a in t.assignments ==> a.time >= 0)
    && (forall a :: a in t.assignments && Live(t.proxies, a) ==> a.client in spot && a.proxy == Row(spot[a.client]))
    && (forall c :: c in spot ==> Camps(t, c, spot[c]))
  }

  ghost predicate AllCalm(t: Tables, n: nat, now: int) {
    forall c :: c in t.clients ==> Calm(t.clients[c], n, now)
  }

  /** The agents, and since when they are where they are. */
  ghost predicate Agents(t: Tables, spot: map<Ip, nat>, times: map<Ip, int>) {
    && (forall c :: IsAgent(t, c) <==> c in times)
    && (forall c :: c in times ==> c in spot && Assignment(Row(spot[c]), c, times[c]) in t.assignments)
  }

  ghost predicate BlockedAre(t: Tables, blocked: set<nat>) {
    forall k: nat :: k < |t.proxies| ==> (t.proxies[k].isBlocked <==> k in blocked)
  }

  ghost predicate State(t: Tables, spot: map<Ip, nat>, times: map<Ip, int>, blocked: set<nat>, n: nat, now: int) {
    Camp(t, spot) && Agents(t, spot, times) && BlockedAre(t, blocked) && AllCalm(t, n, now)
  }

  // ----- Nobody is due -----

  /** What the censor blocks. */
  lemma {:induction false} TargetsAre(t: Tables, spot: map<Ip, nat>, times: map<Ip, int>, now: int, k: nat)
    requires Sound(t) && Camp(t, spot) && Agents(t, spot, times)
    ensures IsTarget(t, true, k, now) <==> exists c :: c in times && spot[c] == k && times[c] < now - 2
  {
    hide Conserved, Distinct, Single;
    if IsTarget(t, true, k, now) {
      var a :| a in t.assignments && a.proxy == Row(k) && IsAgent(t, a.client) && a.time < now - 2;
      var b := Assignment(Row(spot[a.client]), a.client, times[a.client]);
      assert Live(t.proxies, a) && Camps(t, a.client, spot[a.client]);
      SingleUnique(t.proxies, t.assignments, a, b);
    }
    if c :| c in times && spot[c] == k && times[c] < now - 2 {
      assert Camps(t, c, k);
      assert IsAgent(t, Assignment(Row(k), c, times[c]).client);
    }
  }

  lemma {:induction false} NobodyDue(x: Passage, spot: map<Ip, nat>, times: map<Ip, int>)
    requires Targeted(x, true) && Sound(x.before) && Camp(x.before, spot) && Agents(x.before, spot, times)
    requires forall c :: c in times ==> times[c] >= x.now - 2
    ensures x.log.targets == []
  {
    hide Sound, Camp, Agents, IsTarget;
    if x.log.targets != [] {
      SomeTarget(x.log.targets);
      var k: nat :| k in x.log.targets;
      TargetsAre(x.before, spot, times, x.now, k);
    }
  }

  /** A step in which nobody is due leaves everybody where they are; rejuvenation opens what was blocked. */
  lemma {:induction false} RestServed(x: Passage, spot: map<Ip, nat>, times: map<Ip, int>, blocked: set<nat>, n: nat)
    requires Passes(x) && Sound(x.before) && x.log.targets == []
    requires State(x.before, spot, times, blocked, n, x.now)
    ensures State(x.served, spot, times, if x.moves then {} else blocked, n, x.now)
  {
    hide Passes, Sound, Assigned, Serving;
    SoundIs(x.before);
    NobodyHit(x);
    BlockedAfter(x);
    AssignmentsMoved(x);
    RestCamp(x, spot);
    SoundIs(x.served);
  }

  lemma {:induction false} SoundIs(t: Tables)
    ensures Sound(t) ==> AllActive(t.proxies) && Distinct(t.proxies) && Conserved(t.proxies, t.assignments)
    ensures Sound(t) ==> Single(t.proxies, t.assignments)
    ensures Sound(t) ==> forall a :: a in t.assignments ==> a.proxy.Row? && a.proxy.id < |t.proxies|
    ensures Sound(t) ==> forall a :: a in t.assignments ==> a.client in t.clients
  {
  }

  lemma {:induction false} RestCamp(x: Passage, spot: map<Ip, nat>)
    requires Camp(x.before, spot) && x.served.clients == x.before.clients
    requires |x.served.proxies| == |x.before.proxies| && x.log.targets == []
    requires forall k :: 0 <= k < |x.before.proxies| ==>
      x.served.proxies[k].isBlocked == (!x.moves && x.before.proxies[k].isBlocked)
    requires forall a :: a in x.served.assignments <==> a in x.before.assignments && !Reset(x, a)
    ensures Camp(x.served, spot)
  {
    forall c | c in spot ensures Camps(x.served, c, spot[c]) {
      assert Camps(x.before, c, spot[c]);
      var a :| a in x.before.assignments && a.client == c && a.proxy == Row(spot[c]);
      assert a in x.served.assignments;
    }
  }

  // ----- Arrivals -----

  /** What arrivals make of the tables: perhaps one more proxy, and one client more, at proxy `k`. */
  ghost predicate Grows(before: Tables, after: Tables, k: nat, row: Client, now: int) {
    && |before.proxies| <= |after.proxies|
    && (forall j :: 0 <= j < |before.proxies| ==> after.proxies[j].isBlocked == before.proxies[j].isBlocked)
    && (forall j :: |before.proxies| <= j < |after.proxies| ==> !after.proxies[j].isBlocked)
    && k < |before.proxies| && !before.proxies[k].isBlocked && row.ip !in before.clients
    && after.clients == before.clients[row.ip := row]
    && after.assignments == before.assignments + [Assignment(Row(k), row.ip, now)]
  }

  lemma {:induction false} GrownCamp(before: Tables, after: Tables, spot: map<Ip, nat>, k: nat, row: Client, now: int)
    requires Camp(before, spot) && Grows(before, after, k, row, now) && now >= 0
    requires forall a :: a in before.assignments ==> a.proxy.Row? && a.proxy.id < |before.proxies|
    requires forall a :: a in before.assignments ==> a.client in before.clients
    ensures Camp(after, spot[row.ip := k])
  {
    var more := spot[row.ip := k];
    forall c | c in more ensures Camps(after, c, more[c]) {
      if c == row.ip {
        assert Assignment(Row(k), row.ip, now) in after.assignments;
      } else {
        assert Camps(before, c, spot[c]);
        var a :| a in before.assignments && a.client == c && a.proxy == Row(spot[c]);
        assert a in after.assignments;
      }
    }
    forall a | a in after.assignments && Live(after.proxies, a)
      ensures a.client in more && a.proxy == Row(more[a.client]) {
      if a in before.assignments {
        assert Live(before.proxies, a);
      }
    }
  }

  lemma {:induction false} GrownAgents(before: Tables, after: Tables, spot: map<Ip, nat>, times: map<Ip, int>, k: nat,
      row: Client, now: int)
    requires Agents(before, spot, times) && Grows(before, after, k, row, now) && spot.Keys == before.clients.Keys
    ensures Agents(after, spot[row.ip := k], if row.isCensorAgent then times[row.ip := now] else times)
  {
    assert Assignment(Row(k), row.ip, now) in after.assignments;
    assert row.ip !in spot && !IsAgent(before, row.ip);
  }

  lemma {:induction false} GrownCalm(before: Tables, after: Tables, k: nat, row: Client, now: int, n: nat)
    requires AllCalm(before, n, now) && Grows(before, after, k, row, now) && Calm(row, n, now)
    ensures AllCalm(after, n, now + 1)
  {
  }

  lemma {:induction false} GrownBlocked(before: seq<Proxy>, after: Tables, blocked: set<nat>)
    requires |before| <= |after.proxies| && forall b :: b in blocked ==> b < |before|
    requires forall j: nat :: j < |before| ==> (before[j].isBlocked <==> j in blocked)
    requires forall j :: 0 <= j < |before| ==> after.proxies[j].isBlocked == before[j].isBlocked
    requires forall j :: |before| <= j < |after.proxies| ==> !after.proxies[j].isBlocked
    ensures BlockedAre(after, blocked)
  {
  }

  lemma {:induction false} ArrivalGrows(x: Passage, k: nat)
    requires Passes(x) && NewClient(x.now) && x.lastClient >= -1
    requires ClientIp(x.lastClient + 1) !in x.before.clients
    requires x.k == k && k < |x.served.proxies| && !x.served.proxies[k].isBlocked
    ensures var ip := ClientIp(x.lastClient + 1);
      Grows(x.served, x.after, k, Client(ip, x.chance.isAgent, false, 1, 0, x.now, x.chance.clientLocation), x.now)
  {
    hide Passes, ClientIp, NewClient, Assigned;
    ProxiesAfter(x);
    ClientsAfter(x);
    AssignmentsAdded(x);
    assert x.after.assignments == x.served.assignments + x.after.assignments[|x.served.assignments|..];
  }

  /** A client that arrives joins. */
  lemma {:induction false} Joins(x: Passage, spot: map<Ip, nat>, times: map<Ip, int>, blocked: set<nat>, n: nat, k: nat)
    requires Passes(x) && NewClient(x.now) && x.lastClient >= -1
    requires ClientIp(x.lastClient + 1) !in x.before.clients
    requires State(x.served, spot, times, blocked, n, x.now) && n >= 1
    requires forall b :: b in blocked ==> b < |x.served.proxies|
    requires x.k == k && k < |x.served.proxies| && !x.served.proxies[k].isBlocked
    ensures State(x.after, spot[ClientIp(x.lastClient + 1) := k],
      if AgentArrives(x) then times[ClientIp(x.lastClient + 1) := x.now] else times, blocked, n, x.now + 1)
  {
    var row := Client(ClientIp(x.lastClient + 1), x.chance.isAgent, false, 1, 0, x.now, x.chance.clientLocation);
    ArrivalGrows(x, k);
    ServedIsSound(x);
    ProxiesAfter(x);
    hide Passes, ClientIp, NewClient, Sound, Camps, Agents, AllCalm, Grows;
    GrownCamp(x.served, x.after, spot, k, row, x.now);
    GrownAgents(x.served, x.after, spot, times, k, row, x.now);
    GrownCalm(x.served, x.after, k, row, x.now, n);
    GrownBlocked(x.served.proxies, x.after, blocked);
  }

  lemma {:induction false} NobodyJoins(x: Passage, spot: map<Ip, nat>, times: map<Ip, int>, blocked: set<nat>, n: nat)
    requires Passes(x) && !NewClient(x.now) && x.now % 100 != 0
    requires State(x.served, spot, times, blocked, n, x.now)
    ensures State(x.after, spot, times, blocked, n, x.now + 1)
  {
    hide Serving, Blocking, Rejuvenation, Sound, NextProxyIp, ClientIp, NewClient, Camp, Agents, BlockedAre;
    assert x.after == x.served;
  }

  // ----- Everybody moves -----

  /** Without rejuvenation, blocking is all that comes before the requests. */
  lemma {:induction false} OnlyBlocked(x: Passage)
    requires Passes(x) && !x.moves
    ensures |x.log.moved.proxies| == |x.before.proxies| && x.log.moved.assignments == x.before.assignments
    ensures forall k :: 0 <= k < |x.before.proxies| ==>
      x.log.moved.proxies[k] ==
      if k in x.log.targets then BlockedAt(x.before.proxies[k], x.now) else x.before.proxies[k]
    ensures x.log.moved.clients == Learned(x.before.clients, x.before.assignments, x.log.targets)
    ensures forall c :: Listed(x.log.hit, c) == Times(x.before.assignments, x.log.targets, c)
  {
    hide Serving, Copies, Arrival, Sound, Listed, Times, Learned;
  }

  /** An open proxy at which nobody is has all its room. */
  lemma {:induction false} EmptyRow(t: Tables, spot: map<Ip, nat>, k: nat)
    requires Sound(t) && AllOpen(t.proxies) && Camp(t, spot) && k < |t.proxies|
    requires forall c :: c in spot ==> spot[c] != k
    ensures AssignedTo(t.assignments, k) == {} && t.proxies[k].capacity == MAX_PROXY_CAPACITY
  {
    forall a | a in t.assignments ensures a.client in spot && a.proxy == Row(spot[a.client]) {
      assert Live(t.proxies, a);
    }
    CountIsClients(t.proxies, t.assignments, k);
  }

  /** A client that is at one proxy learns of one that is blocked. */
  lemma {:induction false} LearnsOnce(assignments: seq<Assignment>, ids: seq<nat>, c: Ip, k: nat)
    requires Ascending(ids) && forall a :: a in assignments && a.client == c ==> a.proxy == Row(k)
    ensures Times(assignments, ids, c) <= if k in ids then 1 else 0
  {
    if ids != [] {
      var n := |ids| - 1;
      assert ids == ids[..n] + [ids[n]];
      LearnsOnce(assignments, ids[..n], c, k);
    }
  }

  /** The client's one assignment. */
  lemma {:induction false} OneAssignment(t: Tables, spot: map<Ip, nat>, c: Ip) returns (a: Assignment)
    requires Sound(t) && AllOpen(t.proxies) && Camp(t, spot) && c in spot
    ensures a in t.assignments && a.client == c && a.proxy == Row(spot[c]) && Live(t.proxies, a) && a.time >= 0
    ensures forall b :: b in t.assignments && b.client == c ==> b == a
  {
    assert Camps(t, c, spot[c]);
    a :| a in t.assignments && a.client == c && a.proxy == Row(spot[c]);
    forall b | b in t.assignments && b.client == c ensures b == a {
      assert Live(t.proxies, b);
      SingleUnique(t.proxies, t.assignments, a, b);
    }
  }

  /** The proxy is nearer to the client than every other that is no target. */
  ghost predicate Nearest(u: Setup, x: Passage, c: Ip, k: nat)
    requires k < |x.before.proxies| && c in x.before.clients
  {
    forall l: nat :: l < |x.before.proxies| && l !in x.log.targets && l != k ==>
      u.distance(x.before.proxies[k].location, x.before.clients[c].location) <
      u.distance(x.before.proxies[l].location, x.before.clients[c].location)
  }

  /** All proxies at which clients are get blocked, and the others are open. */
  ghost predicate Evicted(u: Setup, x: Passage, spot: map<Ip, nat>, n: nat) {
    && Passes(x) && Ready(u, x.before, x.now) && Targeted(x, true) && x.distance == u.distance && Near(u)
    && !x.moves && x.now <= 160 && n <= 4 && |x.before.clients| <= MAX_PROXY_CAPACITY
    && AllOpen(x.before.proxies) && Camp(x.before, spot) && AllCalm(x.before, n, x.now)
    && forall d :: d in spot ==> spot[d] in x.log.targets
  }

  lemma {:induction false} EvictedIs(u: Setup, x: Passage, spot: map<Ip, nat>, n: nat)
    requires Evicted(u, x, spot, n)
    ensures Passes(x) && Sound(x.before) && Targeted(x, true) && InPlaces(u, x.before) && Near(u)
    ensures x.distance == u.distance && !x.moves && x.now <= 160 && n <= 4
    ensures |x.before.clients| <= MAX_PROXY_CAPACITY && AllOpen(x.before.proxies) && Camp(x.before, spot)
    ensures AllCalm(x.before, n, x.now) && forall d :: d in spot ==> spot[d] in x.log.targets
    ensures Ascending(x.log.targets) && spot.Keys == x.before.clients.Keys
  {
    hide Passes, Sound, InPlaces, Near;
  }

  /** What an evicted client knows, used and is worth. */
  lemma {:induction false} EvictedIsWorthy(u: Setup, x: Passage, spot: map<Ip, nat>, c: Ip, n: nat)
    requires Evicted(u, x, spot, n) && c in spot
    ensures c in x.log.moved.clients && Calm(x.log.moved.clients[c], n + 1, x.now)
    ensures x.log.moved.clients[c].requestCount <= n
    ensures x.log.moved.clients[c].location == x.before.clients[c].location
    ensures Listed(x.log.hit, c) > 0
    ensures BlockedUsage(x.log.moved.assignments, x.log.moved.proxies, c) <= 160
  {
    hide Evicted, Passes, Sound, InPlaces, Near, Targeted, BlockedUsage, Listed, Times, Camp;
    EvictedIs(u, x, spot, n);
    CampKeys(x.before, spot);
    OnlyBlocked(x);
    MovedRows(x);
    SoundIs(x.before);
    var a := OneAssignment(x.before, spot, c);
    LearnsOnce(x.before.assignments, x.log.targets, c, spot[c]);
    TimesOf(x.before.assignments, x.log.targets, c, spot[c]);
    UsedOnce(x.before.proxies, x.log.moved.proxies, x.before.assignments, a);
  }

  lemma {:induction false} CampKeys(t: Tables, spot: map<Ip, nat>)
    requires Camp(t, spot)
    ensures spot.Keys == t.clients.Keys
  {
  }

  /** Which proxies are free then, and what they are worth to a client. */
  lemma {:induction false} EvictedChoice(u: Setup, x: Passage, spot: map<Ip, nat>, c: Ip, k: nat, n: nat)
    requires Evicted(u, x, spot, n) && c in spot && k < |x.before.proxies| && k !in x.log.targets
    requires c in x.before.clients && Nearest(u, x, c, k)
    ensures |x.log.moved.proxies| == |x.before.proxies| && Free(x.log.moved.proxies[k])
    ensures x.log.moved.proxies[k].capacity == MAX_PROXY_CAPACITY
    ensures forall l: nat :: l < |x.log.moved.proxies| && Free(x.log.moved.proxies[l]) && l != k ==>
      ProxyUtility(x.log.moved.proxies, x.log.moved.assignments, u.distance, k, x.before.clients[c].location) >
      ProxyUtility(x.log.moved.proxies, x.log.moved.assignments, u.distance, l, x.before.clients[c].location)
  {
    hide Evicted, Passes, Sound, InPlaces, Near, Targeted, Listed, Times, Camp;
    EvictedIs(u, x, spot, n);
    OnlyBlocked(x);
    SoundIs(x.before);
    EmptyRow(x.before, spot, k);
    forall l: nat | l < |x.log.moved.proxies| && Free(x.log.moved.proxies[l]) && l != k
      ensures ProxyUtility(x.log.moved.proxies, x.log.moved.assignments, u.distance, k, x.before.clients[c].location) >
        ProxyUtility(x.log.moved.proxies, x.log.moved.assignments, u.distance, l, x.before.clients[c].location)
    {
      EmptyRow(x.before, spot, l);
    }
  }

  /** An evicted client goes to the nearest open proxy. */
  lemma {:induction false} GoesToNearest(u: Setup, x: Passage, spot: map<Ip, nat>, c: Ip, k: nat, n: nat)
    requires Evicted(u, x, spot, n) && c in spot && k < |x.before.proxies| && k !in x.log.targets
    requires c in x.before.clients && Nearest(u, x, c, k)
    ensures k < |x.served.proxies|
    ensures forall p :: Placed(x.log.results, c, p) <==> p == x.served.proxies[k].ip
    ensures c in x.served.clients && Calm(x.served.clients[c], n + 1, x.now)
  {
    hide Evicted, Passes, Sound, InPlaces, Near, Targeted, Listed, Copies, Serving, BlockedUsage, ProxyUtility;
    EvictedIsWorthy(u, x, spot, c, n);
    EvictedChoice(u, x, spot, c, k, n);
    EvictedIs(u, x, spot, n);
    MovedPlaces(u, x);
    ServedIsServed(x);
    DistinctMoved(x);
    MovedSize(x);
    GetsFirst(u, x.log.moved, x.served, x.log.scene, x.log.market, x.log.results, x.log.hit, x.now, c, k, n);
  }

  lemma {:induction false} ScenePlaces(sc: Scene, t: Tables, distance: (Location, Location) -> real, hit: seq<Client>,
      now: int)
    requires IsScene(sc, t.proxies, t.clients, t.assignments, distance, hit, now)
    ensures sc.proxies == t.proxies && sc.assignments == t.assignments && sc.w.distance == distance
    ensures forall c :: c in t.clients ==> c in sc.w.places && sc.w.places[c] == t.clients[c].location
  {
  }

  lemma {:induction false} GetsFirst(u: Setup, t: Tables, served: Tables, sc: Scene, m: Market, results: Matching,
      hit: seq<Client>, now: int, c: Ip, k: nat, n: nat)
    requires Serving(t, served, sc, m, results, u.distance, hit, now) && Near(u) && InPlaces(u, t) && n <= 4
    requires Copies(t.clients, hit) && Listed(hit, c) > 0 && Distinct(t.proxies)
    requires c in t.clients && Calm(t.clients[c], n + 1, now) && t.clients[c].requestCount <= n
    requires BlockedUsage(t.assignments, t.proxies, c) <= 160
    requires k < |t.proxies| && Free(t.proxies[k]) && |t.clients| <= t.proxies[k].capacity
    requires forall l: nat :: l < |t.proxies| && Free(t.proxies[l]) && l != k ==>
      ProxyUtility(t.proxies, t.assignments, u.distance, k, t.clients[c].location) >
      ProxyUtility(t.proxies, t.assignments, u.distance, l, t.clients[c].location)
    ensures forall p :: Placed(results, c, p) <==> p == t.proxies[k].ip
    ensures c in served.clients && Calm(served.clients[c], n + 1, now)
  {
    hide Copies, BestStable, IsScene, IsMarket, NoDup, BlockedUsage, Standing, AssignedAll, Applied, Listed, InPlaces;
    hide Near, ProxyUtility;
    SceneIs(sc, t.proxies, t.clients, t.assignments, u.distance, hit, now);
    ClientIsWorthy(u, t, sc, hit, c, |t.proxies|, now);
    MarketSize(sc, m, t.clients, hit);
    InMarket(sc, m, c);
    ScenePlaces(sc, t, u.distance, hit, now);
    FirstChoice(sc, m, results, c, k);
    assert Placed(results, c, t.proxies[k].ip);
    assert IsPlaced(results, c) && c !in Unflagged(hit) - m.clientPrefs.Keys;
  }

  ghost function Since(times: map<Ip, int>, now: int): map<Ip, int> {
    map c | c in times :: now
  }

  ghost function TargetSet(x: Passage): set<nat> {
    set k | k in x.log.targets
  }

  /** Everybody moves to the proxy that the map says, which is the nearest one. */
  ghost predicate Leads(u: Setup, x: Passage, dest: map<Ip, nat>) {
    dest.Keys == x.before.clients.Keys && forall c :: c in dest ==>
      dest[c] < |x.before.proxies| && dest[c] !in x.log.targets && Nearest(u, x, c, dest[c])
  }

  lemma {:induction false} EachMoves(u: Setup, x: Passage, spot: map<Ip, nat>, dest: map<Ip, nat>, c: Ip, n: nat)
    requires Evicted(u, x, spot, n) && Leads(u, x, dest) && c in dest
    ensures c in x.served.clients && Calm(x.served.clients[c], n + 1, x.now)
    ensures Assignment(Row(dest[c]), c, x.now) in x.served.assignments
    ensures dest[c] < |x.served.proxies| && !x.served.proxies[dest[c]].isBlocked
  {
    hide Evicted, Passes, Sound, InPlaces, Near, Targeted, Nearest, Camp, Calm;
    EvictedIs(u, x, spot, n);
    SoundIs(x.before);
    BlockedAfter(x);
    GoesToNearest(u, x, spot, c, dest[c], n);
    ServedAssignment(x, c, dest[c]);
  }

  /** Then all clients move there. */
  lemma {:induction false} MovesCamp(u: Setup, x: Passage, spot: map<Ip, nat>, dest: map<Ip, nat>, n: nat)
    requires Evicted(u, x, spot, n) && Leads(u, x, dest)
    ensures Camp(x.served, dest) && AllCalm(x.served, n + 1, x.now) && BlockedAre(x.served, TargetSet(x))
    ensures forall c :: c in dest ==> Assignment(Row(dest[c]), c, x.now) in x.served.assignments
    ensures dest.Keys == x.served.clients.Keys
  {
    hide Evicted, Passes, Sound, InPlaces, Near, Targeted, Nearest, Camp, Calm;
    EvictedIs(u, x, spot, n);
    SoundIs(x.before);
    BlockedAfter(x);
    ServedClients(x);
    forall c | c in dest
      ensures c in x.served.clients && Calm(x.served.clients[c], n + 1, x.now)
      ensures Assignment(Row(dest[c]), c, x.now) in x.served.assignments
      ensures dest[c] < |x.served.proxies| && !x.served.proxies[dest[c]].isBlocked
    {
      EachMoves(u, x, spot, dest, c, n);
    }
    forall a | a in x.served.assignments && Live(x.served.proxies, a)
      ensures a.client in dest && a.proxy == Row(dest[a.client]) {
      LiveIsNew(u, x, spot, dest, a, n);
    }
    forall a | a in x.served.assignments ensures a.time >= 0 {
      ServedTimes(x, spot, a);
    }
    hide Live;
    CampAgain(x.served, dest, x.now);
  }

  /** Then all clients move there, the agents among them. */
  lemma {:induction false} AllMove(u: Setup, x: Passage, spot: map<Ip, nat>, dest: map<Ip, nat>, times: map<Ip, int>,
      n: nat)
    requires Evicted(u, x, spot, n) && Leads(u, x, dest) && Agents(x.before, spot, times)
    ensures State(x.served, dest, Since(times, x.now), TargetSet(x), n + 1, x.now)
  {
    hide Evicted, Passes, Sound, InPlaces, Near, Targeted, Nearest, Camp, AllCalm, BlockedAre, TargetSet, Agents;
    EvictedIs(u, x, spot, n);
    ServedClients(x);
    MovesCamp(u, x, spot, dest, n);
    AgentsAgain(x.before, x.served, spot, dest, times, x.now);
  }

  lemma {:induction false} ServedAssignment(x: Passage, c: Ip, k: nat)
    requires Passes(x) && k < |x.served.proxies| && Placed(x.log.results, c, x.served.proxies[k].ip)
    ensures Assignment(Row(k), c, x.now) in x.served.assignments
  {
    hide Passes, Assigned;
    IsAssigned(x, c, k);
    AssignmentsAdded(x);
  }

  lemma {:induction false} ServedTimes(x: Passage, spot: map<Ip, nat>, a: Assignment)
    requires Passes(x) && Camp(x.before, spot) && AllActive(x.before.proxies) && a in x.served.assignments
    ensures a.time >= 0
  {
    hide Passes, Reset;
    AssignmentsAfter(x);
  }

  lemma {:induction false} LiveIsNew(u: Setup, x: Passage, spot: map<Ip, nat>, dest: map<Ip, nat>, a: Assignment,
      n: nat)
    requires Evicted(u, x, spot, n) && Leads(u, x, dest) && a in x.served.assignments && Live(x.served.proxies, a)
    ensures a.client in dest && a.proxy == Row(dest[a.client])
  {
    hide Evicted, Passes, Sound, InPlaces, Near, Targeted, Nearest, Reset;
    EvictedIs(u, x, spot, n);
    SoundIs(x.before);
    BlockedAfter(x);
    AssignmentsAfter(x);
    ServedClients(x);
    ServedIsSound(x);
    GoesToNearest(u, x, spot, a.client, dest[a.client], n);
    if a in x.before.assignments {
      OldIsBlocked(u, x, spot, a, n);
    }
  }

  lemma {:induction false} OldIsBlocked(u: Setup, x: Passage, spot: map<Ip, nat>, a: Assignment, n: nat)
    requires Evicted(u, x, spot, n) && a in x.before.assignments
    ensures !Live(x.served.proxies, a)
  {
    hide Evicted, Passes, Sound, InPlaces, Near, Targeted, Reset;
    EvictedIs(u, x, spot, n);
    SoundIs(x.before);
    BlockedAfter(x);
    assert Live(x.before.proxies, a);
  }

  lemma {:induction false} CampAgain(t: Tables, dest: map<Ip, nat>, now: int)
    requires dest.Keys == t.clients.Keys
    requires forall c :: c in dest ==> Assignment(Row(dest[c]), c, now) in t.assignments
    requires forall c :: c in dest ==> dest[c] < |t.proxies| && !t.proxies[dest[c]].isBlocked
    requires forall a :: a in t.assignments && Live(t.proxies, a) ==> a.client in dest && a.proxy == Row(dest[a.client])
    requires forall a :: a in t.assignments ==> a.time >= 0
    ensures Camp(t, dest)
  {
    forall c | c in dest ensures Camps(t, c, dest[c]) {
      var a := Assignment(Row(dest[c]), c, now);
      assert a in t.assignments && a.client == c && a.proxy == Row(dest[c]);
    }
  }

  lemma {:induction false} AgentsAgain(before: Tables, after: Tables, spot: map<Ip, nat>, dest: map<Ip, nat>,
      times: map<Ip, int>, now: int)
    requires Agents(before, spot, times) && before.clients.Keys == after.clients.Keys == dest.Keys
    requires forall c :: c in before.clients ==> after.clients[c].isCensorAgent == before.clients[c].isCensorAgent
    requires forall c :: c in dest ==> Assignment(Row(dest[c]), c, now) in after.assignments
    ensures Agents(after, dest, Since(times, now))
  {
    assert forall c :: IsAgent(after, c) <==> IsAgent(before, c);
  }

  // ----- The run -----

  /** The two agents, and the places of the three proxies. */
  function First(): Ip {
    ClientIp(37)
  }

  function Second(): Ip {
    ClientIp(38)
  }

  function PlaceOf(u: Setup, k: nat): Location
    requires |u.chances| > 160
  {
    if k == 0 then u.location else if k == 1 then u.chances[0].proxyLocation else u.chances[100].proxyLocation
  }

  /** Where the clients that arrive before step 160 are, but for the second agent. */
  ghost function Others(u: Setup): set<Location>
    requires |u.chances| > 160
  {
    set i | 0 <= i < 160 && i != 152 :: u.chances[i].clientLocation
  }

  ghost predicate Nearer(u: Setup, y: Location, k: nat, l: nat)
    requires |u.chances| > 160
  {
    u.distance(PlaceOf(u, k), y) < u.distance(PlaceOf(u, l), y)
  }

  /** The third proxy is far from everybody, but the second proxy is farther from the second agent. */
  ghost predicate Apart(u: Setup)
    requires |u.chances| > 160
  {
    && (forall y :: y in Others(u) ==> Nearer(u, y, 0, 2) && Nearer(u, y, 1, 2))
    && var y := u.chances[152].clientLocation; Nearer(u, y, 0, 2) && Nearer(u, y, 2, 1)
  }

  lemma {:induction false} CloserBySquares(p: Location, q: Location, y: Location, d: real, e: real)
    requires IsNormalizedDistance(p, y, d) && IsNormalizedDistance(q, y, e) && p.longitude == q.longitude
    requires var a, b := p.latitude - y.latitude, q.latitude - y.latitude; -b < a < b || b < a < -b
    ensures d < e
  {
    var a, b := p.latitude - y.latitude, q.latitude - y.latitude;
    assert a * a < b * b by {
      SmallerSquare(a, if b > 0.0 then b else -b);
    }
    if d >= e {
      SquareUpTo(e * CENSORED_REGION_SIZE, d * CENSORED_REGION_SIZE);
    }
  }

  lemma {:induction false} SmallerSquare(a: real, b: real)
    requires -b < a < b
    ensures a * a < b * b
  {
    var p, q := b - a, b + a;
    assert p * q > 0.0;
    assert p * q == b * b - a * a;
  }

  /** There are such places in the program's world. */
  lemma {:induction false} WorldIsApart(u: Setup)
    requires |u.chances| > 160
    requires forall x, y :: x in ProxyPlaces(u) && y in ClientPlaces(u) ==> IsNormalizedDistance(x, y, u.distance(x, y))
    requires PlaceOf(u, 0) == Location(1500.0, 1500.0) && PlaceOf(u, 1) == Location(-3000.0, 1500.0)
    requires PlaceOf(u, 2) == Location(4000.0, 1500.0)
    requires forall y :: y in Others(u) ==> -1000.0 <= y.latitude <= 0.0
    requires 600.0 <= u.chances[152].clientLocation.latitude <= 1000.0
    ensures Apart(u)
  {
    hide IsNormalizedDistance;
    var p, q, r := PlaceOf(u, 0), PlaceOf(u, 1), PlaceOf(u, 2);
    assert p in ProxyPlaces(u) && q in ProxyPlaces(u) && r in ProxyPlaces(u);
    forall y | y in Others(u) ensures Nearer(u, y, 0, 2) && Nearer(u, y, 1, 2) {
      assert y in ClientPlaces(u);
      CloserBySquares(p, r, y, u.distance(p, y), u.distance(r, y));
      CloserBySquares(q, r, y, u.distance(q, y), u.distance(r, y));
    }
    var y := u.chances[152].clientLocation;
    assert y in ClientPlaces(u);
    CloserBySquares(p, r, y, u.distance(p, y), u.distance(r, y));
    CloserBySquares(r, q, y, u.distance(r, y), u.distance(q, y));
  }

  /** The censor that waits, proxies rejuvenated every three steps, and exactly two agents before
      step 160. */
  ghost predicate Crowded(u: Setup) {
    && u.optimal && u.interval == 3 && Near(u) && |u.chances| > 160 && Apart(u)
    && forall i :: 0 <= i < 160 && NewClient(i) ==> (u.chances[i].isAgent <==> i == 148 || i == 152)
  }

  ghost predicate Laid(u: Setup, t: Tables)
    requires |u.chances| > 160
  {
    && (forall k: nat :: k < |t.proxies| ==> t.proxies[k].location == PlaceOf(u, k))
    && (forall c :: c in t.clients ==>
          if c == Second() then t.clients[c].location == u.chances[152].clientLocation
          else t.clients[c].location in Others(u))
  }

  ghost function All(t: Tables, k: nat): map<Ip, nat> {
    map c | c in t.clients :: k
  }

  ghost function Parted(t: Tables): map<Ip, nat> {
    map c | c in t.clients :: if c == Second() then 2 else 1
  }

  /** Where everybody is at the start of step `now`. */
  ghost function SpotAt(t: Tables, now: nat): map<Ip, nat> {
    if now <= 151 then All(t, 0) else if now <= 154 then All(t, 1) else if now <= 157 then All(t, 0) else Parted(t)
  }

  function BlockedAt160(now: nat): set<nat> {
    if now == 152 || now == 153 || now == 158 || now == 159 then {0}
    else if now == 155 || now == 156 then {1}
    else {}
  }

  function TimesAt(now: nat): map<Ip, int> {
    if now <= 148 then map[]
    else if now <= 151 then map[First() := 148]
    else if now == 152 then map[First() := 151]
    else if now <= 154 then map[First() := 151, Second() := 152]
    else if now <= 157 then map[First() := 154, Second() := 154]
    else map[First() := 157, Second() := 157]
  }

  function Moved(now: nat): nat {
    if now <= 151 then 1 else if now <= 154 then 2 else if now <= 157 then 3 else 4
  }

  /** How the run stands at the start of step `now`. */
  ghost predicate CrowdAt(u: Setup, t: Tables, now: nat)
    requires |u.chances| > 160
  {
    State(t, SpotAt(t, now), TimesAt(now), BlockedAt160(now), Moved(now), now) && Laid(u, t)
  }

  ghost predicate CrowdStep(u: Setup, x: Passage) {
    && Crowded(u) && x.now <= 160 && IsPassage(u, x, x.now) && Ready(u, x.before, x.now) && CrowdAt(u, x.before, x.now)
  }

  lemma {:induction false} CrowdIs(u: Setup, x: Passage)
    requires CrowdStep(u, x)
    ensures Passes(x) && Sound(x.before) && Targeted(x, true) && Ready(u, x.before, x.now) && x.distance == u.distance
    ensures |u.chances| > 160 && x.chance == u.chances[x.now] && (x.moves <==> x.now % 3 == 0)
    ensures |x.before.clients| == (x.now + 3) / 4 && |x.before.proxies| == 1 + (x.now + 99) / 100
    ensures x.lastClient == (x.now + 3) / 4 - 1 && ClientIp(x.lastClient + 1) !in x.before.clients
    ensures Laid(u, x.before) && Near(u) && Apart(u)
    ensures State(x.before, SpotAt(x.before, x.now), TimesAt(x.now), BlockedAt160(x.now), Moved(x.now), x.now)
    ensures NewClient(x.now) && x.now < 160 ==> (AgentArrives(x) <==> x.now == 148 || x.now == 152)
  {
    hide Passes, Sound, InPlaces, Near, Targeted, Apart, State, ClientIp, Laid;
  }

  lemma {:induction false} LaidAfter(u: Setup, x: Passage)
    requires CrowdStep(u, x) && x.now < 160
    ensures |u.chances| > 160 && Laid(u, x.after)
  {
    hide CrowdStep, Passes, Sound, InPlaces, Near, Targeted, Apart, State, ClientIp, NewClient, Others;
    CrowdIs(u, x);
    SoundIs(x.before);
    BlockedAfter(x);
    ProxiesAfter(x);
    ClientsAfter(x);
    LaidProxies(u, x);
    if NewClient(x.now) {
      NewHome(u, x);
    }
  }

  lemma {:induction false} LaidProxies(u: Setup, x: Passage)
    requires |u.chances| > 160 && x.now < 160 && x.chance == u.chances[x.now]
    requires |x.before.proxies| == 1 + (x.now + 99) / 100 == |x.served.proxies|
    requires |x.after.proxies| == |x.served.proxies| + (if x.now % NEW_PROXY_INTERVAL == 0 then 1 else 0)
    requires forall k: nat :: k < |x.before.proxies| ==> x.before.proxies[k].location == PlaceOf(u, k)
    requires forall k :: 0 <= k < |x.before.proxies| ==> x.served.proxies[k].location == x.before.proxies[k].location
    requires forall k :: 0 <= k < |x.served.proxies| ==> x.after.proxies[k].location == x.served.proxies[k].location
    requires forall k :: |x.served.proxies| <= k < |x.after.proxies| ==>
      x.after.proxies[k].location == x.chance.proxyLocation
    ensures forall k: nat :: k < |x.after.proxies| ==> x.after.proxies[k].location == PlaceOf(u, k)
  {
  }

  lemma {:induction false} NewHome(u: Setup, x: Passage)
    requires |u.chances| > 160 && x.now < 160 && x.chance == u.chances[x.now] && NewClient(x.now)
    requires x.lastClient == (x.now + 3) / 4 - 1
    ensures ClientIp(x.lastClient + 1) == Second() <==> x.now == 152
    ensures x.now != 152 ==> x.chance.clientLocation in Others(u)
  {
    hide ClientIp;
    ClientIpsDistinct(x.lastClient + 1, 38);
  }

  lemma {:induction false} SpotJoin(before: Tables, after: Tables, ip: Ip, k: nat)
    requires after.clients.Keys == before.clients.Keys + {ip}
    ensures All(before, k)[ip := k] == All(after, k)
  {
  }

  lemma {:induction false} SpotSame(before: Tables, after: Tables, now: nat)
    requires after.clients.Keys == before.clients.Keys
    ensures SpotAt(after, now) == SpotAt(before, now)
  {
  }

  /** Nobody is due unless everybody moves. */
  lemma {:induction false} RestTimes(now: nat)
    requires now < 160 && now != 151 && now != 154 && now != 157
    ensures forall c :: c in TimesAt(now) ==> TimesAt(now)[c] >= now - 2
    ensures now % 3 != 0 ==> BlockedAt160(now + 1) == BlockedAt160(now)
    ensures now % 3 == 0 ==> BlockedAt160(now + 1) == {}
    ensures Moved(now + 1) == Moved(now)
    ensures now != 148 && now != 152 ==> TimesAt(now + 1) == TimesAt(now)
    ensures TimesAt(149) == TimesAt(148)[First() := 148] && TimesAt(153) == TimesAt(152)[Second() := 152]
  {
    hide ClientIp;
    ClientIpsDistinct(37, 38);
  }

  lemma {:induction false} NoGrowth(now: nat)
    requires !NewClient(now)
    ensures now % 100 != 0
  {
  }

  lemma {:induction false} SpotStays(t: Tables, now: nat)
    requires now < 160 && now != 151 && now != 154 && now != 157
    ensures SpotAt(t, now + 1) == SpotAt(t, now)
    ensures NewClient(now) ==> SpotAt(t, now) == All(t, if now == 152 then 1 else 0)
  {
  }

  /** Where the client that arrives goes. */
  lemma {:induction false} WhereTo(now: nat, proxies: nat, blocked: set<nat>)
    requires now < 160 && NewClient(now) && proxies == 1 + (now + 99) / 100 && blocked == BlockedAt160(now + 1)
    ensures var k := if now == 152 then 1 else 0;
      k < proxies && k !in blocked && forall j: nat :: j < k ==> j in blocked
    ensures (now + 3) / 4 < MAX_PROXY_CAPACITY && forall b :: b in blocked ==> b < proxies
    ensures now == 148 ==> (now + 3) / 4 == 37
    ensures now == 152 ==> (now + 3) / 4 == 38
  {
  }

  lemma {:induction false} JoinRow(u: Setup, x: Passage, blocked: set<nat>, k: nat)
    requires CrowdStep(u, x) && x.now < 160 && NewClient(x.now) && k == (if x.now == 152 then 1 else 0)
    requires blocked == BlockedAt160(x.now + 1) && BlockedAre(x.served, blocked)
    ensures x.k == k && k < |x.served.proxies| && !x.served.proxies[k].isBlocked
    ensures forall b :: b in blocked ==> b < |x.served.proxies|
  {
    hide CrowdStep, Passes, Sound, Ready, Near, Apart, Laid, ClientIp, NewClient, TimesAt, SpotAt, BlockedAt160, State;
    CrowdIs(u, x);
    SoundIs(x.before);
    BlockedAfter(x);
    WhereTo(x.now, |x.before.proxies|, blocked);
    FirstOpen(x, k);
  }

  lemma {:induction false} StateBlocked(t: Tables, spot: map<Ip, nat>, times: map<Ip, int>, blocked: set<nat>, n: nat,
      now: int)
    requires State(t, spot, times, blocked, n, now)
    ensures BlockedAre(t, blocked)
  {
  }

  lemma {:induction false} RestJoins(u: Setup, x: Passage, spot: map<Ip, nat>, times: map<Ip, int>)
    requires CrowdStep(u, x) && x.now < 160 && NewClient(x.now) && x.now != 151 && x.now != 154 && x.now != 157
    requires spot == SpotAt(x.before, x.now) && times == TimesAt(x.now)
    requires State(x.served, spot, times, BlockedAt160(x.now + 1), Moved(x.now), x.now)
    ensures State(x.after, SpotAt(x.after, x.now + 1), TimesAt(x.now + 1), BlockedAt160(x.now + 1), Moved(x.now + 1),
      x.now + 1)
  {
    hide CrowdStep, Passes, Sound, Ready, Near, Apart, Laid, ClientIp, NewClient, TimesAt, State, BlockedAre, Targeted;
    hide SpotAt, BlockedAt160, Moved;
    CrowdIs(u, x);
    JoinedKeys(x);
    var k: nat := if x.now == 152 then 1 else 0;
    var blocked := BlockedAt160(x.now + 1);
    StateBlocked(x.served, spot, times, blocked, Moved(x.now), x.now);
    JoinRow(u, x, blocked, k);
    RestTimes(x.now);
    SpotStays(x.before, x.now);
    SpotStays(x.after, x.now);
    SpotJoin(x.before, x.after, ClientIp(x.lastClient + 1), k);
    MovedOnce(x.now);
    Joins(x, spot, times, blocked, Moved(x.now), k);
    WhereTo(x.now, |x.before.proxies|, blocked);
  }

  lemma {:induction false} NoArrivalTimes(now: nat)
    requires !NewClient(now)
    ensures now != 148 && now != 152
  {
  }

  lemma {:induction false} MovedOnce(now: nat)
    ensures Moved(now) >= 1
  {
  }

  lemma {:induction false} JoinedKeys(x: Passage)
    requires Passes(x) && NewClient(x.now) && x.lastClient >= -1
    ensures x.after.clients.Keys == x.before.clients.Keys + {ClientIp(x.lastClient + 1)}
  {
    hide Passes, ClientIp, NewClient;
    ClientsAfter(x);
  }

  /** A step in which everybody stays, and a client may arrive. */
  lemma {:induction false} RestNext(u: Setup, x: Passage)
    requires CrowdStep(u, x) && x.now < 160 && x.now != 151 && x.now != 154 && x.now != 157
    ensures State(x.after, SpotAt(x.after, x.now + 1), TimesAt(x.now + 1), BlockedAt160(x.now + 1), Moved(x.now + 1),
      x.now + 1)
  {
    hide CrowdStep, Passes, Sound, Ready, Near, Apart, Laid, ClientIp, Camp, Agents, AllCalm, NewClient, TimesAt;
    CrowdIs(u, x);
    var spot, times, blocked := SpotAt(x.before, x.now), TimesAt(x.now), BlockedAt160(x.now);
    RestTimes(x.now);
    NobodyDue(x, spot, times);
    RestServed(x, spot, times, blocked, Moved(x.now));
    SoundIs(x.before);
    BlockedAfter(x);
    ClientsAfter(x);
    hide State, SpotAt, BlockedAt160, Moved;
    if NewClient(x.now) {
      RestJoins(u, x, spot, times);
    } else {
      NoGrowth(x.now);
      NobodyJoins(x, spot, times, BlockedAt160(x.now + 1), Moved(x.now));
      SpotSame(x.before, x.after, x.now + 1);
      SpotStays(x.before, x.now);
      NoArrivalTimes(x.now);
    }
  }

  predicate Shifts(now: nat) {
    now == 151 || now == 154 || now == 157 || now == 160
  }

  function HitAt(now: nat): set<nat> {
    if now == 154 then {1} else if now == 160 then {1, 2} else {0}
  }

  ghost function DestAt(t: Tables, now: nat): map<Ip, nat> {
    if now == 151 then All(t, 1) else if now == 157 then Parted(t) else All(t, 0)
  }

  /** Where the agents are decides what is blocked. */
  lemma {:induction false} WhoIsDue(t: Tables, now: nat, k: nat)
    requires Shifts(now) && forall c :: c in TimesAt(now) ==> c in t.clients
    ensures forall c :: c in TimesAt(now) ==> c in SpotAt(t, now)
    ensures k in HitAt(now) <==> exists c :: c in TimesAt(now) && SpotAt(t, now)[c] == k && TimesAt(now)[c] < now - 2
    ensures BlockedAt160(now) == {}
  {
    hide ClientIp;
    ClientIpsDistinct(37, 38);
    assert First() in TimesAt(now) && (now > 151 ==> Second() in TimesAt(now));
  }

  lemma {:induction false} ShiftTargets(u: Setup, x: Passage)
    requires CrowdStep(u, x) && Shifts(x.now)
    ensures forall k: nat :: k in x.log.targets <==> k in HitAt(x.now)
    ensures BlockedAt160(x.now) == {} && TargetSet(x) == HitAt(x.now)
  {
    hide CrowdStep, Passes, Sound, Ready, Near, Apart, Laid, ClientIp, Camp, AllCalm, IsTarget, TimesAt, SpotAt, HitAt;
    hide BlockedAt160;
    CrowdIs(u, x);
    var spot, times := SpotAt(x.before, x.now), TimesAt(x.now);
    CampKeys(x.before, spot);
    forall k: nat ensures k in x.log.targets <==> k in HitAt(x.now) {
      TargetsAre(x.before, spot, times, x.now, k);
      WhoIsDue(x.before, x.now, k);
    }
    WhoIsDue(x.before, x.now, 0);
  }

  lemma {:induction false} SpotsAreHit(t: Tables, now: nat)
    requires Shifts(now)
    ensures forall d :: d in SpotAt(t, now) ==> SpotAt(t, now)[d] in HitAt(now)
  {
    hide ClientIp;
  }

  lemma {:induction false} ShiftEvicts(u: Setup, x: Passage)
    requires CrowdStep(u, x) && Shifts(x.now)
    ensures Evicted(u, x, SpotAt(x.before, x.now), Moved(x.now))
  {
    hide CrowdStep, Passes, Sound, Ready, Near, Apart, Laid, ClientIp, Camp, Agents, AllCalm, Targeted, TimesAt, SpotAt;
    hide HitAt;
    CrowdIs(u, x);
    ShiftTargets(u, x);
    SpotsAreHit(x.before, x.now);
  }

  /** Who is at the start of a step in which everybody moves. */
  lemma {:induction false} ShiftLeads(u: Setup, x: Passage)
    requires CrowdStep(u, x) && Shifts(x.now)
    ensures Leads(u, x, DestAt(x.before, x.now))
  {
    hide CrowdStep, Passes, Sound, Ready, Near, State, ClientIp, Targeted, Others, HitAt, TargetSet;
    CrowdIs(u, x);
    ShiftTargets(u, x);
    var dest := DestAt(x.before, x.now);
    assert x.now == 151 ==> x.lastClient + 1 == 38;
    forall c | c in dest
      ensures c in x.before.clients && dest[c] < |x.before.proxies| && dest[c] !in x.log.targets
      ensures Nearest(u, x, c, dest[c])
    {
      ShiftNearest(u, x, c);
    }
  }

  lemma {:induction false} ShiftNearest(u: Setup, x: Passage, c: Ip)
    requires |u.chances| > 160 && Laid(u, x.before) && Apart(u) && |x.before.proxies| == 3 && Shifts(x.now)
    requires c in x.before.clients && (x.now == 151 ==> c != Second())
    requires forall k: nat :: k in x.log.targets <==> k in HitAt(x.now)
    ensures DestAt(x.before, x.now)[c] < 3 && DestAt(x.before, x.now)[c] !in x.log.targets
    ensures Nearest(u, x, c, DestAt(x.before, x.now)[c])
  {
    hide Others, ClientIp;
    var y := x.before.clients[c].location;
    assert Nearer(u, y, 0, 2);
    assert if c == Second() then Nearer(u, y, 2, 1) else Nearer(u, y, 1, 2);
  }

  lemma {:induction false} ShiftServed(u: Setup, x: Passage)
    requires CrowdStep(u, x) && Shifts(x.now)
    ensures State(x.served, DestAt(x.before, x.now), Since(TimesAt(x.now), x.now), HitAt(x.now), Moved(x.now) + 1,
      x.now)
  {
    hide CrowdStep, Passes, Sound, Ready, Near, Apart, Laid, ClientIp, Camp, Agents, AllCalm, Targeted, TimesAt, SpotAt;
    hide HitAt, TargetSet, BlockedAt160, Evicted, Leads, DestAt, Since, Moved;
    CrowdIs(u, x);
    ShiftTargets(u, x);
    ShiftEvicts(u, x);
    ShiftLeads(u, x);
    AllMove(u, x, SpotAt(x.before, x.now), DestAt(x.before, x.now), TimesAt(x.now), Moved(x.now));
  }

  lemma {:induction false} ShiftTimes(t: Tables, now: nat)
    requires Shifts(now) && now < 160
    ensures Since(TimesAt(now), now) == TimesAt(now + 1) && HitAt(now) == BlockedAt160(now + 1)
    ensures Moved(now) + 1 == Moved(now + 1) && DestAt(t, now) == SpotAt(t, now + 1)
    ensures !NewClient(now) && now % 100 != 0
  {
    hide ClientIp;
    ClientIpsDistinct(37, 38);
  }

  /** A step in which everybody moves. */
  lemma {:induction false} ShiftNext(u: Setup, x: Passage)
    requires CrowdStep(u, x) && x.now < 160 && Shifts(x.now)
    ensures State(x.after, SpotAt(x.after, x.now + 1), TimesAt(x.now + 1), BlockedAt160(x.now + 1), Moved(x.now + 1),
      x.now + 1)
  {
    hide CrowdStep, Passes, Sound, Ready, Near, Apart, Laid, ClientIp, State, Targeted, TimesAt, SpotAt, NewClient;
    hide HitAt, BlockedAt160, DestAt, Since, Moved;
    CrowdIs(u, x);
    ShiftServed(u, x);
    ShiftTimes(x.before, x.now);
    NobodyJoins(x, SpotAt(x.before, x.now + 1), TimesAt(x.now + 1), BlockedAt160(x.now + 1), Moved(x.now + 1));
    ClientsAfter(x);
    SpotSame(x.before, x.after, x.now + 1);
  }

  // ----- The end -----

  /** Everybody is at the first proxy, which is full. */
  lemma {:induction false} FullCamp(t: Tables)
    requires Sound(t) && |t.clients| == MAX_PROXY_CAPACITY && |t.proxies| > 0 && !t.proxies[0].isBlocked
    requires forall c :: c in t.clients ==> Camps(t, c, 0)
    ensures t.proxies[0].capacity == 0
  {
    CountIsClients(t.proxies, t.assignments, 0);
    assert AssignedTo(t.assignments, 0) <= t.clients.Keys;
    forall c | c in t.clients ensures c in AssignedTo(t.assignments, 0) {
      assert Camps(t, c, 0);
    }
    assert AssignedTo(t.assignments, 0) == t.clients.Keys;
    assert |t.clients.Keys| == |t.clients|;
  }

  lemma {:induction false} NoRoom(x: Passage)
    requires Passes(x) && 0 < x.now && x.now % 100 != 0 && NewClient(x.now)
    requires forall k :: 0 <= k < |x.served.proxies| ==> !Free(x.served.proxies[k])
    ensures Stuck(x)
  {
    hide Serving, Blocking, Rejuvenation, Sound, NextProxyIp, ClientIp;
  }

  /** The client that arrives at step 160 finds two proxies blocked and one full. */
  lemma {:induction false} LastOne(u: Setup, x: Passage)
    requires CrowdStep(u, x) && x.now == 160
    ensures Stuck(x)
  {
    hide CrowdStep, Passes, Sound, Ready, Near, Apart, Laid, ClientIp, Targeted, TimesAt, Agents, AllCalm;
    CrowdIs(u, x);
    ShiftServed(u, x);
    SoundIs(x.before);
    ServedIsSound(x);
    BlockedAfter(x);
    ClientsAfter(x);
    assert forall c :: c in x.served.clients ==> Camps(x.served, c, 0);
    FullCamp(x.served);
    NoRoom(x);
  }

  lemma {:induction false} CrowdAtFirst(u: Setup)
    requires |u.chances| > 160
    ensures CrowdAt(u, Start(u), 0)
  {
  }

  /** How such a run stands, at every step. */
  lemma {:induction false} CrowdStands(u: Setup, trace: seq<Passage>, i: nat)
    requires Crowded(u) && IsRun(u, trace) && Kept(u, trace) && i < |trace| && i <= 160
    ensures CrowdAt(u, trace[i].before, i)
  {
    hide Passes, Targeted, Ready, Renames, HeldIn, Stuck, State;
    hide Laid, Near, Apart, SpotAt, TimesAt, BlockedAt160, Moved;
    if i == 0 {
      CrowdAtFirst(u);
    } else {
      var x := trace[i - 1];
      CrowdStands(u, trace, i - 1);
      assert Follows(trace, i) && Ready(u, x.before, i - 1) && IsPassage(u, x, i - 1);
      LaidAfter(u, x);
      if Shifts(i - 1) {
        ShiftNext(u, x);
      } else {
        RestNext(u, x);
      }
    }
  }

  /** Such a run ends with the exception at step 160. */
  lemma {:induction false} CrowdFails(u: Setup, trace: seq<Passage>)
    requires Crowded(u) && IsRun(u, trace) && Kept(u, trace)
    ensures |trace| <= 161
    ensures |trace| == 161 ==> Stuck(trace[160])
  {
    hide Passes, Targeted, Ready, Renames, HeldIn, Stuck, CrowdAt, Near, Apart;
    if |trace| > 160 {
      CrowdStands(u, trace, 160);
      if |trace| > 161 {
        NotTheLast(u, trace, 160);
      }
      LastOne(u, trace[160]);
    }
  }
}
