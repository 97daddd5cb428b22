/** Runs of the simulation as sequences of steps, and what every step of a run keeps. */
module SimulationTraces {
  import opened Addresses
  import opened Lists
  import opened SimulationTables
  import opened SimulationHolders
  import opened DeferredAcceptance
  import opened SimulationMarkets
  import opened SimulationJudging
  import opened SimulationMatches
  import opened SimulationSteps

  // ----- Runs -----

  /** What a run is given: the kind of censor, how often proxies are rejuvenated, where the first
      proxy is, and what chance decides in each step. */
  datatype Setup = Setup(distance: (Location, Location) -> real, optimal: bool, interval: nat, location: Location,
    chances: seq<Chance>)

  ghost predicate IsAgent(t: Tables, c: Ip) {
    c in t.clients && t.clients[c].isCensorAgent
  }

  ghost function AgentsOf(t: Tables): set<Ip> {
    set c | c in t.clients && t.clients[c].isCensorAgent
  }

  /** What a censor blocks: an open proxy to which an agent was assigned. The optimal one waits. */
  ghost predicate IsTarget(t: Tables, optimal: bool, k: nat, now: int) {
    && k < |t.proxies| && !t.proxies[k].isBlocked && t.proxies[k].isActive
    && exists a :: a in t.assignments && a.proxy == Row(k) && IsAgent(t, a.client) && (optimal ==> a.time < now - 2)
  }

  ghost predicate Targeted(x: Passage, optimal: bool) {
    Ascending(x.log.targets) && forall j: nat :: j in x.log.targets <==> IsTarget(x.before, optimal, j, x.now)
  }

  /** The last address given to a new proxy before step `i`. */
  function LastProxy(i: nat): Ip {
    if i == 0 then Ip(0, 0, 0, 0) else NextLast(LastProxy(i - 1), i - 1)
  }

  /** Step `i` of a run. */
  ghost predicate IsPassage(u: Setup, x: Passage, i: nat)
    requires i < |u.chances| && u.interval > 0
  {
    && Passes(x) && Targeted(x, u.optimal)
    && x.now == i && x.chance == u.chances[i] && x.distance == u.distance && x.moves == (i % u.interval == 0)
    && x.lastClient == (i + 3) / 4 - 1 && x.lastProxy == LastProxy(i)
  }

  function Start(u: Setup): Tables {
    Tables([Proxy(Ip(0, 0, 0, 0), MAX_PROXY_CAPACITY, false, 0, true, u.location)], map[], [])
  }

  /** A new client found no proxy. */
  ghost predicate Stuck(x: Passage) {
    NewClient(x.now) && x.k == |x.after.proxies|
  }

  /** The steps of a run, one after the other; only the last one can end with the exception. */
  ghost predicate IsRun(u: Setup, trace: seq<Passage>) {
    && u.interval > 0 && |trace| <= |u.chances|
    && (forall i :: 0 <= i < |trace| ==> IsPassage(u, trace[i], i))
    && (trace != [] ==> trace[0].before == Start(u))
    && forall i :: 0 < i < |trace| ==> Follows(trace, i)
  }

  ghost predicate Follows(trace: seq<Passage>, i: nat)
    requires 0 < i < |trace|
  {
    trace[i].before == trace[i - 1].after && !Stuck(trace[i - 1])
  }

  // ----- What a run keeps -----

  /** The places of the proxies and of the clients of a run. */
  ghost function ProxyPlaces(u: Setup): set<Location> {
    {u.location} + set i | 0 <= i < |u.chances| :: u.chances[i].proxyLocation
  }

  ghost function ClientPlaces(u: Setup): set<Location> {
    set i | 0 <= i < |u.chances| :: u.chances[i].clientLocation
  }

  ghost predicate InPlaces(u: Setup, t: Tables) {
    && (forall k :: 0 <= k < |t.proxies| ==> t.proxies[k].location in ProxyPlaces(u))
    && (forall c :: c in t.clients ==> t.clients[c].location in ClientPlaces(u))
  }

  /** What holds at the start of step `i`: the tables are in order, with one more client for every
      four steps and one more proxy for every hundred, and the next client is a new one. */
  ghost predicate Ready(u: Setup, t: Tables, i: nat) {
    && Sound(t) && InPlaces(u, t)
    && |t.clients| == (i + 3) / 4 && |t.proxies| == 1 + (i + 99) / 100 && ClientIp((i + 3) / 4) !in t.clients
  }

  ghost predicate HeldIn(t: Tables, held: set<Ip>) {
    forall k :: 0 <= k < |t.proxies| ==> t.proxies[k].ip in held
  }

  /** A proxy that is new or has another address has one that is not among `held`. */
  ghost predicate Renames(x: Passage) {
    && |x.before.proxies| <= |x.after.proxies|
    && forall k :: 0 <= k < |x.after.proxies| ==>
         || (k < |x.before.proxies| && x.after.proxies[k].ip == x.before.proxies[k].ip)
         || x.after.proxies[k].ip !in x.held
  }

  /** In every state of the run the rows are in order and capacity plus assignments is 40 at every
      proxy, and an address that a proxy takes was held by none in any state before. */
  ghost predicate Kept(u: Setup, trace: seq<Passage>) {
    && (forall i :: 0 <= i < |trace| ==> Ready(u, trace[i].before, i))
    && (forall i :: 0 <= i < |trace| ==> Conserved(trace[i].after.proxies, trace[i].after.assignments))
    && (forall i :: 0 <= i < |trace| ==> Renames(trace[i]))
    && (forall i, j :: 0 <= j <= i < |trace| ==> HeldIn(trace[j].before, trace[i].held))
  }

  /** No address that was given up, or is in use elsewhere, is ever taken again. */
  lemma {:induction false} NeverTakenAgain(u: Setup, trace: seq<Passage>, i: nat, j: nat, k: nat, l: nat)
    requires Kept(u, trace) && j <= i < |trace| && k < |trace[i].after.proxies| && l < |trace[j].before.proxies|
    requires trace[i].after.proxies[k].ip == trace[j].before.proxies[l].ip
    ensures k < |trace[i].before.proxies| && trace[i].after.proxies[k].ip == trace[i].before.proxies[k].ip
  {
    assert HeldIn(trace[j].before, trace[i].held) && Renames(trace[i]);
  }

  // ----- If nobody is listed -----

  /** If nobody is listed, no row changes. */
  lemma {:induction false} NobodyServed(before: Tables, after: Tables, sc: Scene, m: Market, results: Matching,
      distance: (Location, Location) -> real, now: int)
    requires Serving(before, after, sc, m, results, distance, [], now)
    ensures after == before
  {
    hide ClientOptimal, Blocks, Sorted, NoDup, ProxySide, IsScene, Worth;
    NobodyUnflagged();
    SceneIs(sc, before.proxies, before.clients, before.assignments, distance, [], now);
    assert Feasible(m, results) && m.clientPrefs.Keys == {};
    assert forall c, p :: !Placed(results, c, p);
    forall ip | ip in results ensures results[ip] == [] {
      assert forall c :: c in results[ip] <==> Placed(results, c, ip);
      EmptyTogether(results[ip], []);
    }
    assert after.proxies == before.proxies;
    NothingAdded(after.assignments[|before.assignments|..], after.proxies, results, now);
    assert after.assignments == before.assignments + after.assignments[|before.assignments|..];
    FlagsNobody(before.clients, Unflagged([]) - m.clientPrefs.Keys, results);
  }

  lemma {:induction false} NothingAdded(added: seq<Assignment>, proxies: seq<Proxy>, results: Matching, now: int)
    requires forall c, p :: !Placed(results, c, p)
    requires forall a :: a in added <==> Assigned(proxies, results, now, a)
    ensures added == []
  {
    assert forall a :: !Assigned(proxies, results, now, a);
    if added != [] {
      SomeoneIn(added);
    }
  }

  lemma {:induction false} SomeoneIn<T>(l: seq<T>)
    requires l != []
    ensures exists a :: a in l
  {
    assert l[0] in l;
  }

  lemma {:induction false} FlagsNobody(clients: map<Ip, Client>, who: set<Ip>, results: Matching)
    requires who == {} && forall c, p :: !Placed(results, c, p)
    ensures CountedUp(FlagRows(clients, who), results) == clients
  {
  }

  lemma {:induction false} NobodyListed(hit: seq<Client>)
    requires forall c :: Listed(hit, c) == 0
    ensures hit == []
  {
    if hit != [] {
      LastListed(hit);
    }
  }

  lemma {:induction false} LastListed(hit: seq<Client>)
    requires hit != []
    ensures exists c :: Listed(hit, c) > 0
  {
    assert Listed(hit, hit[|hit| - 1].ip) > 0;
  }

  /** A step without targets serves nobody. */
  lemma {:induction false} NobodyHit(x: Passage)
    requires Passes(x) && x.log.targets == []
    ensures x.served == x.log.moved && x.served.clients == x.before.clients
  {
    hide Serving, Copies, Arrival, Sound, Survivors, Rejuvenated, Restarted;
    NobodyListed(x.log.hit);
    NobodyServed(x.log.moved, x.served, x.log.scene, x.log.market, x.log.results, x.distance, x.now);
    NothingLearned(x.before.clients, x.before.assignments);
  }

  /** Rejuvenation of open proxies deletes nothing. */
  lemma {:induction false} NoneRestarted(before: Tables, after: Tables, held: set<Ip>)
    requires Rejuvenation(before, after, held) && AllOpen(before.proxies)
    ensures after.assignments == before.assignments && AllOpen(after.proxies)
    ensures forall k :: 0 <= k < |before.proxies| ==> after.proxies[k].capacity == before.proxies[k].capacity
  {
    hide MigrationIp;
    AllSurvive(before.assignments);
    assert Restarted(before.proxies, |before.proxies|) == {};
    forall k | 0 <= k < |before.proxies|
      ensures after.proxies[k].capacity == before.proxies[k].capacity && !after.proxies[k].isBlocked {
      assert Rejuvenated(before.proxies[k], after.proxies[k], held);
    }
  }

  /** A step without targets changes nothing before arrivals but the addresses of proxies, if no
      proxy was blocked or none is rejuvenated. */
  lemma {:induction false} NothingHit(x: Passage)
    requires Passes(x) && x.log.targets == [] && (x.moves ==> AllOpen(x.before.proxies))
    ensures x.served.clients == x.before.clients && x.served.assignments == x.before.assignments
    ensures |x.served.proxies| == |x.before.proxies|
    ensures forall k :: 0 <= k < |x.before.proxies| ==>
      x.served.proxies[k].isBlocked == x.before.proxies[k].isBlocked
  {
    hide Serving, Copies, Arrival, Sound, Survivors, Rejuvenated;
    NobodyListed(x.log.hit);
    NobodyServed(x.log.moved, x.served, x.log.scene, x.log.market, x.log.results, x.distance, x.now);
    NothingLearned(x.before.clients, x.before.assignments);
    if x.moves {
      NoneRestarted(x.log.blocked, x.log.moved, x.held);
    }
  }

  // ----- What a passage says of its parts -----

  lemma {:induction false} ServedIsSound(x: Passage)
    requires Passes(x)
    ensures Sound(x.served) && AllActive(x.served.proxies) && Distinct(x.served.proxies)
    ensures forall a :: a in x.served.assignments ==>
      a.proxy.Row? && a.proxy.id < |x.served.proxies| && a.client in x.served.clients
  {
    hide Serving, Blocking, Rejuvenation, Arrival, Conserved, Single;
  }

  lemma {:induction false} ServedIsServed(x: Passage)
    requires Passes(x)
    ensures Serving(x.log.moved, x.served, x.log.scene, x.log.market, x.log.results, x.distance, x.log.hit, x.now)
    ensures x.log.moved.clients == x.log.blocked.clients && Copies(x.log.moved.clients, x.log.hit)
  {
    hide Serving, Copies, Arrival, Sound, Survivors, Rejuvenated, Restarted, Learned, Listed, Times;
  }

  lemma {:induction false} DistinctMoved(x: Passage)
    requires Passes(x)
    ensures Distinct(x.log.moved.proxies) && |x.log.moved.proxies| == |x.served.proxies|
    ensures forall k :: 0 <= k < |x.served.proxies| ==> x.log.moved.proxies[k].ip == x.served.proxies[k].ip
  {
    hide Rejuvenation, Blocking, Arrival, Linked, Conserved, Single;
    hide IsScene, IsMarket, BestStable, AssignedAll, CountedUp, FlagRows;
  }

  // ----- Proxies -----

  /** Without rejuvenation exactly the targets get blocked, with it no proxy stays blocked. */
  lemma {:induction false} BlockedAfter(x: Passage)
    requires Passes(x) && AllActive(x.before.proxies)
    ensures |x.served.proxies| == |x.before.proxies|
    ensures forall k :: 0 <= k < |x.before.proxies| ==>
      x.served.proxies[k].isBlocked == (!x.moves && (x.before.proxies[k].isBlocked || k in x.log.targets))
    ensures forall k :: 0 <= k < |x.before.proxies| ==>
      x.served.proxies[k].location == x.before.proxies[k].location
  {
    hide IsScene, IsMarket, BestStable, AssignedAll, CountedUp, FlagRows, Copies, Learned, Listed, Times;
    hide Arrival, Sound, Survivors, MigrationIp;
    forall k | 0 <= k < |x.before.proxies|
      ensures x.served.proxies[k].isBlocked == (!x.moves && (x.before.proxies[k].isBlocked || k in x.log.targets))
      ensures x.served.proxies[k].location == x.before.proxies[k].location
    {
      if x.moves {
        assert Rejuvenated(x.log.blocked.proxies[k], x.log.moved.proxies[k], x.held);
      }
    }
  }

  /** Arrivals block no proxy, and a new one is open. */
  lemma {:induction false} ProxiesAfter(x: Passage)
    requires Passes(x)
    ensures |x.after.proxies| == |x.served.proxies| + (if x.now % NEW_PROXY_INTERVAL == 0 then 1 else 0)
    ensures forall k :: 0 <= k < |x.served.proxies| ==>
      x.after.proxies[k].isBlocked == x.served.proxies[k].isBlocked &&
      x.after.proxies[k].location == x.served.proxies[k].location
    ensures forall k :: |x.served.proxies| <= k < |x.after.proxies| ==>
      !x.after.proxies[k].isBlocked && x.after.proxies[k].location == x.chance.proxyLocation
  {
    hide Serving, Blocking, Rejuvenation, Sound, NextProxyIp, ClientIp;
  }

  // ----- Assignments -----

  /** The assignment is deleted when its proxy is rejuvenated. */
  ghost predicate Reset(x: Passage, a: Assignment) {
    x.moves && a.proxy.Row? && a.proxy.id < |x.before.proxies| &&
    (x.before.proxies[a.proxy.id].isBlocked || a.proxy.id in x.log.targets)
  }

  lemma {:induction false} AssignmentsMoved(x: Passage)
    requires Passes(x) && AllActive(x.before.proxies)
    ensures forall a :: a in x.log.moved.assignments <==> a in x.before.assignments && !Reset(x, a)
  {
    hide Serving, Copies, Learned, Listed, Times, Arrival, Sound;
    if x.moves {
      var gone := Restarted(x.log.blocked.proxies, |x.before.proxies|);
      forall a ensures a in x.log.moved.assignments <==> a in x.before.assignments && !Reset(x, a) {
        assert a.proxy.Row? ==> (a.proxy.id in gone <==> Reset(x, a));
      }
    }
  }

  /** What the placed clients and a new client get comes after the assignments that were there. */
  lemma {:induction false} AssignmentsAdded(x: Passage)
    requires Passes(x)
    ensures forall a :: a in x.served.assignments <==>
      a in x.log.moved.assignments || Assigned(x.served.proxies, x.log.results, x.now, a)
    ensures x.served.assignments <= x.after.assignments
    ensures x.after.assignments[|x.served.assignments|..] ==
      if !NewClient(x.now) then []
      else [Assignment(if x.k < |x.after.proxies| then Row(x.k) else NoProxy, ClientIp(x.lastClient + 1), x.now)]
  {
    hide IsScene, IsMarket, BestStable, Applied, CountedUp, FlagRows, Blocking, Rejuvenation, Sound;
    hide NextProxyIp, ClientIp, NoDup, Assigned;
    assert x.served.assignments == x.log.moved.assignments + x.served.assignments[|x.log.moved.assignments|..];
  }

  /** What a step does to the assignments: those of rejuvenated proxies go, those of the placed
      clients and of a new client come. */
  lemma {:induction false} AssignmentsAfter(x: Passage)
    requires Passes(x) && AllActive(x.before.proxies)
    ensures forall a :: a in x.served.assignments ==>
      (a in x.before.assignments && !Reset(x, a)) || Assigned(x.served.proxies, x.log.results, x.now, a)
    ensures forall a :: a in x.before.assignments && !Reset(x, a) ==> a in x.served.assignments
    ensures forall a :: Assigned(x.served.proxies, x.log.results, x.now, a) ==> a in x.served.assignments
    ensures x.served.assignments <= x.after.assignments
    ensures x.after.assignments[|x.served.assignments|..] ==
      if !NewClient(x.now) then []
      else [Assignment(if x.k < |x.after.proxies| then Row(x.k) else NoProxy, ClientIp(x.lastClient + 1), x.now)]
  {
    hide Passes, Assigned, Reset, ClientIp;
    AssignmentsMoved(x);
    AssignmentsAdded(x);
  }

  // ----- Clients -----

  lemma {:induction false} ServedClients(x: Passage)
    requires Passes(x)
    ensures x.served.clients.Keys == x.before.clients.Keys && |x.served.clients| == |x.before.clients|
    ensures forall c :: c in x.before.clients ==>
      && x.served.clients[c].isCensorAgent == x.before.clients[c].isCensorAgent
      && x.served.clients[c].location == x.before.clients[c].location
  {
    hide IsScene, IsMarket, BestStable, Applied, AssignedAll, Copies, Listed, Times, Survivors, Sound, Arrival;
    hide Learned, CountedUp, FlagRows;
    LearnedKeeps(x.before.clients, x.before.assignments, x.log.targets);
    RequestsKeep(x.log.blocked.clients, Unflagged(x.log.hit) - x.log.market.clientPrefs.Keys, x.log.results);
    assert |x.served.clients.Keys| == |x.served.clients| && |x.before.clients.Keys| == |x.before.clients|;
  }

  lemma {:induction false} LearnedKeeps(clients: map<Ip, Client>, assignments: seq<Assignment>, ids: seq<nat>)
    ensures Learned(clients, assignments, ids).Keys == clients.Keys
    ensures forall c :: c in clients ==>
      && Learned(clients, assignments, ids)[c].isCensorAgent == clients[c].isCensorAgent
      && Learned(clients, assignments, ids)[c].location == clients[c].location
  {
    hide Times;
  }

  lemma {:induction false} RequestsKeep(clients: map<Ip, Client>, who: set<Ip>, results: Matching)
    ensures CountedUp(FlagRows(clients, who), results).Keys == clients.Keys
    ensures forall c :: c in clients ==>
      && CountedUp(FlagRows(clients, who), results)[c].isCensorAgent == clients[c].isCensorAgent
      && CountedUp(FlagRows(clients, who), results)[c].location == clients[c].location
  {
  }

  /** The clients stay, as agents and where they are, and the new one joins them. */
  lemma {:induction false} ClientsAfter(x: Passage)
    requires Passes(x)
    ensures x.served.clients.Keys == x.before.clients.Keys && |x.served.clients| == |x.before.clients|
    ensures forall c :: c in x.before.clients ==>
      && x.served.clients[c].isCensorAgent == x.before.clients[c].isCensorAgent
      && x.served.clients[c].location == x.before.clients[c].location
    ensures NewClient(x.now) ==> x.lastClient >= -1
    ensures x.after.clients ==
      if NewClient(x.now) then Joined(x.served.clients, x.lastClient, x.chance, x.now) else x.served.clients
  {
    ServedClients(x);
    hide Serving, Blocking, Rejuvenation, Sound, NextProxyIp, Joined, ClientIp;
  }

  lemma {:induction false} AgentsAfter(x: Passage)
    requires Passes(x) && (NewClient(x.now) ==> ClientIp(x.lastClient + 1) !in x.before.clients)
    ensures forall c :: IsAgent(x.served, c) <==> IsAgent(x.before, c)
    ensures forall c :: IsAgent(x.after, c) <==>
      IsAgent(x.before, c) || (NewClient(x.now) && x.chance.isAgent && c == ClientIp(x.lastClient + 1))
  {
    hide *;
    ClientsAfter(x);
    SameAgents(x.before, x.served);
    if !NewClient(x.now) {
      SameAgents(x.before, x.after);
    } else {
      JoinedAgents(x.before, x.served, x.after, x.lastClient, x.chance, x.now);
    }
  }

  lemma {:induction false} SameAgents(before: Tables, after: Tables)
    requires after.clients.Keys == before.clients.Keys
    requires forall c :: c in before.clients ==> after.clients[c].isCensorAgent == before.clients[c].isCensorAgent
    ensures forall c :: IsAgent(after, c) <==> IsAgent(before, c)
  {
  }

  lemma {:induction false} JoinedAgents(before: Tables, served: Tables, after: Tables, lastClient: int, chance: Chance,
      now: nat)
    requires lastClient >= -1 && NewClient(now) && ClientIp(lastClient + 1) !in before.clients
    requires served.clients.Keys == before.clients.Keys
    requires forall c :: c in before.clients ==> served.clients[c].isCensorAgent == before.clients[c].isCensorAgent
    requires after.clients == Joined(served.clients, lastClient, chance, now)
    ensures forall c :: IsAgent(after, c) <==>
      IsAgent(before, c) || (chance.isAgent && c == ClientIp(lastClient + 1))
  {
    hide ClientIp, NewClient;
  }

  /** Old assignments of agents are assignments of old agents. */
  lemma {:induction false} OldAssignments(x: Passage)
    requires Passes(x) && Sound(x.before) && (NewClient(x.now) ==> ClientIp(x.lastClient + 1) !in x.before.clients)
    ensures forall a :: a in x.after.assignments && IsAgent(x.after, a.client) && a.time != x.now ==>
      a in x.before.assignments && IsAgent(x.before, a.client) && !Reset(x, a)
    ensures forall a :: a in x.before.assignments && IsAgent(x.before, a.client) && !Reset(x, a) ==>
      a in x.after.assignments && IsAgent(x.after, a.client)
  {
    AgentsAfter(x);
    AssignmentsAfter(x);
    hide Passes, ClientIp, Reset, IsAgent;
    ghost var n := |x.served.assignments|;
    assert x.after.assignments == x.served.assignments + x.after.assignments[n..];
  }

  // ----- Room -----

  lemma {:induction false} CountIsClients(proxies: seq<Proxy>, assignments: seq<Assignment>, k: nat)
    requires Single(proxies, assignments) && k < |proxies| && !proxies[k].isBlocked
    ensures Count(assignments, k) == |AssignedTo(assignments, k)|
  {
    if assignments != [] {
      var n := |assignments| - 1;
      var init, last := assignments[..n], assignments[n];
      assert assignments == init + [last];
      CountIsClients(proxies, init, k);
      if last.proxy == Row(k) {
        assert last.client !in AssignedTo(init, k);
        assert AssignedTo(assignments, k) == AssignedTo(init, k) + {last.client};
      } else {
        assert AssignedTo(assignments, k) == AssignedTo(init, k);
      }
    }
  }

  /** A proxy that is not blocked has no more clients than there are. */
  lemma {:induction false} OpenHasRoom(t: Tables, k: nat)
    requires Sound(t) && k < |t.proxies| && !t.proxies[k].isBlocked
    ensures t.proxies[k].capacity >= MAX_PROXY_CAPACITY - |t.clients|
  {
    CountIsClients(t.proxies, t.assignments, k);
    assert AssignedTo(t.assignments, k) <= t.clients.Keys;
    SubsetBySize(AssignedTo(t.assignments, k), t.clients.Keys);
  }

  /** If a proxy has room, a new client finds one. */
  lemma {:induction false} NotStuck(x: Passage, k: nat)
    requires Passes(x) && k < |x.served.proxies| && Free(x.served.proxies[k])
    ensures !Stuck(x)
  {
    hide Serving, Blocking, Rejuvenation, Sound, NextProxyIp, ClientIp;
    var grown := Grown(x.served.proxies, x.lastProxy, x.chance, x.now);
    assert Free(grown[k]);
  }

  /** With fewer clients than one proxy has places, any open proxy will do. */
  lemma {:induction false} OpenIsEnough(x: Passage, k: nat)
    requires Passes(x) && k < |x.served.proxies| && !x.served.proxies[k].isBlocked
    requires |x.before.clients| < MAX_PROXY_CAPACITY
    ensures !Stuck(x)
  {
    ClientsAfter(x);
    assert Sound(x.served);
    hide Passes;
    OpenHasRoom(x.served, k);
    NotStuck(x, k);
  }

  /** A step in which proxies are rejuvenated serves every new client, if there are places for more
      clients than there are. */
  lemma {:induction false} MovesNotStuck(x: Passage)
    requires Passes(x) && AllActive(x.before.proxies) && x.moves
    requires |x.before.clients| < MAX_PROXY_CAPACITY * |x.before.proxies|
    ensures !Stuck(x)
  {
    ClientsAfter(x);
    BlockedAfter(x);
    assert Sound(x.served);
    hide Passes, Stuck, Linked, Conserved, Single, Free;
    SomeoneHasRoom(x.served.proxies, x.served.clients, x.served.assignments);
    var k :| 0 <= k < |x.served.proxies| && Free(x.served.proxies[k]);
    NotStuck(x, k);
  }
}
