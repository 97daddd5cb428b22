/** What clients are worth to proxies and proxies to clients, in numbers: when a request flags a
    client, how both sides rank each other, and when an agent that is blocked again and again is
    found out. */
module SimulationWorth {
  import opened Addresses
  import opened Lists
  import opened SimulationTables
  import opened SimulationHolders
  import opened DeferredAcceptance
  import opened SimulationMarkets
  import opened SimulationJudging
  import opened SimulationMatches
  import opened SimulationSteps
  import opened SimulationTraces
  import opened SimulationFailures

  // ----- The utility of a client -----

  ghost function Sum(s: seq<int>): int {
    if s == [] then 0 else Sum(s[..|s| - 1]) + s[|s| - 1]
  }

  /** For how long each assignment of the client lasted until its proxy was blocked. */
  ghost function Spells(t: Tables, c: Ip): (spells: seq<int>)
    ensures |spells| == |t.assignments|
  {
    seq(|t.assignments|, i requires 0 <= i < |t.assignments| =>
      var a := t.assignments[i];
      if a.client == c && a.proxy.Row? && a.proxy.id < |t.proxies| && t.proxies[a.proxy.id].isBlocked
      then t.proxies[a.proxy.id].blockedAt - a.time else 0)
  }

  lemma {:induction false} UsageIsSum(t: Tables, c: Ip)
    requires forall a :: a in t.assignments ==> a.proxy.Row? && a.proxy.id < |t.proxies|
    ensures BlockedUsage(t.assignments, t.proxies, c) == Sum(Spells(t, c))
    decreases |t.assignments|
  {
    if t.assignments != [] {
      var n := |t.assignments| - 1;
      var init := t.(assignments := t.assignments[..n]);
      assert t.assignments == init.assignments + [t.assignments[n]];
      UsageIsSum(init, c);
      FirstSpells(t, c);
    }
  }

  lemma {:induction false} FirstSpells(t: Tables, c: Ip)
    requires t.assignments != []
    ensures var n := |t.assignments| - 1; Spells(t, c)[..n] == Spells(t.(assignments := t.assignments[..n]), c)
  {
    var n := |t.assignments| - 1;
    forall i | 0 <= i < n ensures Spells(t, c)[i] == Spells(t.(assignments := t.assignments[..n]), c)[i] {
      assert t.assignments[..n][i] == t.assignments[i];
    }
  }

  /** What a client is worth at some time: twice the time since it came, of which an agent used 40
      percent, up to 24000, less its requests, the time that it used blocked proxies, and twice the
      number of its proxies that were blocked. */
  ghost function Score(t: Tables, c: Ip, now: int): real
    requires c in t.clients
  {
    var row := t.clients[c];
    var used := (now - row.creationTime) as real * (if row.isCensorAgent then 0.4 else 1.0);
    2.0 * (if used < 24000.0 then used else 24000.0)
    - row.requestCount as real - Sum(Spells(t, c)) as real - 2.0 * row.knownBlocked as real
  }

  /** The judge of a request scores the rows so. */
  lemma {:induction false} JudgedByScore(sc: Scene, t: Tables, distance: (Location, Location) -> real,
      hit: seq<Client>, now: int, c: Ip)
    requires IsScene(sc, t.proxies, t.clients, t.assignments, distance, hit, now) && Copies(t.clients, hit)
    requires c in t.clients && Listed(hit, c) > 0 && !t.clients[c].flagged
    ensures c in Unflagged(hit) && c in sc.w.general && sc.w.general[c] == Score(t, c, now)
  {
    hide Copies, Consistent, Current, BlockedUsage, Spells, Sum, Listed;
    CopiesAreRows(t.clients, hit);
    ListedIsHit(hit, c);
    var i :| 0 <= i < |hit| && hit[i].ip == c;
    UnflaggedRow(t.clients, hit, i);
    var j := LastCopyFrom(hit, i);
    CurrentRow(t.clients, hit, j);
    UsageIsSum(t, c);
  }

  /** One request more costs a client 1, one blocked proxy more costs it 2, and one time unit at a
      blocked proxy costs it 1. */
  lemma {:induction false} ScoreDiffers(t: Tables, later: Tables, c: Ip, now: int)
    requires c in t.clients && c in later.clients
    requires var row, other := t.clients[c], later.clients[c];
      row.creationTime == other.creationTime && row.isCensorAgent == other.isCensorAgent
    ensures Score(t, c, now) - Score(later, c, now) ==
      (later.clients[c].requestCount - t.clients[c].requestCount) as real +
      2.0 * (later.clients[c].knownBlocked - t.clients[c].knownBlocked) as real +
      (Sum(Spells(later, c)) - Sum(Spells(t, c))) as real
  {
    hide Sum, Spells;
  }

  /** One time unit of age is worth 2, and 0.8 for an agent, until 24000 is reached. */
  lemma {:induction false} ScoreGrows(t: Tables, c: Ip, now: int)
    requires c in t.clients && 0 <= now - t.clients[c].creationTime < 23999
    ensures Score(t, c, now + 1) - Score(t, c, now) == if t.clients[c].isCensorAgent then 0.8 else 2.0
  {
    hide Sum, Spells;
  }

  /** A client that just came, and has cost nothing, is worth nothing. */
  lemma {:induction false} ScoreStarts(t: Tables, c: Ip)
    requires c in t.clients && t.clients[c].requestCount == t.clients[c].knownBlocked == 0
    requires forall a :: a in t.assignments ==> a.client != c
    ensures Score(t, c, t.clients[c].creationTime) == 0.0
  {
    NoSpells(t, c);
  }

  lemma {:induction false} NoSpells(t: Tables, c: Ip)
    requires forall i :: 0 <= i < |Spells(t, c)| ==> Spells(t, c)[i] == 0
    ensures Sum(Spells(t, c)) == 0
  {
    AllZero(Spells(t, c));
  }

  lemma {:induction false} AllZero(s: seq<int>)
    requires forall i :: 0 <= i < |s| ==> s[i] == 0
    ensures Sum(s) == 0
  {
    if s != [] {
      AllZero(s[..|s| - 1]);
    }
  }

  // ----- When a request flags a client -----

  /** Some available proxy finds the client worth too little. */
  ghost predicate TooFar(t: Tables, c: Ip, now: int, distance: (Location, Location) -> real)
    requires c in t.clients
  {
    exists k: nat :: k < |t.proxies| && !t.proxies[k].isBlocked && t.proxies[k].isActive && t.proxies[k].capacity > 0 &&
      Score(t, c, now) - 10.0 * distance(t.proxies[k].location, t.clients[c].location) < -500.0
  }

  /** A request flags exactly the clients that ask and are worth less than -500 to some available
      proxy; nobody loses a flag. */
  lemma {:induction false} FlagsExactly(t: Tables, after: Tables, sc: Scene, m: Market, results: Matching,
      distance: (Location, Location) -> real, hit: seq<Client>, now: int, c: Ip)
    requires Serving(t, after, sc, m, results, distance, hit, now) && Copies(t.clients, hit) && c in t.clients
    ensures c in after.clients && (after.clients[c].flagged <==>
      t.clients[c].flagged || (Listed(hit, c) > 0 && TooFar(t, c, now, distance)))
    ensures c in m.clientPrefs <==> Listed(hit, c) > 0 && !t.clients[c].flagged && !after.clients[c].flagged
  {
    hide Copies, BestStable, NoDup, AssignedAll, Applied, Listed, HasUtilities, Score, ProxySide, RanksAll;
    if Listed(hit, c) > 0 && !t.clients[c].flagged {
      JudgedByScore(sc, t, distance, hit, now, c);
      StandsByScore(sc, t, distance, hit, now, c);
    } else {
      NotUnflagged(t.clients, hit, c);
      StandingKnown(sc);
    }
  }

  lemma {:induction false} StandsByScore(sc: Scene, t: Tables, distance: (Location, Location) -> real,
      hit: seq<Client>, now: int, c: Ip)
    requires IsScene(sc, t.proxies, t.clients, t.assignments, distance, hit, now)
    requires c in t.clients && c in Unflagged(hit) && c in sc.w.general && sc.w.general[c] == Score(t, c, now)
    ensures c in Standing(sc, |sc.proxies|) <==> !TooFar(t, c, now, distance)
  {
    hide HasUtilities, Score, Unflagged;
    if c !in Standing(sc, |sc.proxies|) {
      var j: nat :| j < |sc.proxies| && Free(sc.proxies[j]) && Worth(sc.w, sc.proxies[j], c) < CLIENT_UTILITY_THRESHOLD;
      assert Score(t, c, now) - 10.0 * distance(t.proxies[j].location, t.clients[c].location) < -500.0;
    }
    if TooFar(t, c, now, distance) {
      var k: nat :| k < |t.proxies| && !t.proxies[k].isBlocked && t.proxies[k].isActive && t.proxies[k].capacity > 0 &&
        Score(t, c, now) - 10.0 * distance(t.proxies[k].location, t.clients[c].location) < -500.0;
      assert Free(sc.proxies[k]) && Worth(sc.w, sc.proxies[k], c) < CLIENT_UTILITY_THRESHOLD;
    }
  }

  lemma {:induction false} NotUnflagged(clients: map<Ip, Client>, hit: seq<Client>, c: Ip)
    requires Copies(clients, hit) && c in clients && (Listed(hit, c) == 0 || clients[c].flagged)
    ensures c !in Unflagged(hit)
  {
    ListedIsHit(hit, c);
  }

  // ----- How the two sides rank each other -----

  /** What a proxy is worth to a client at a place: the clients that were ever assigned to it and
      still are, those that it serves, and how near it is. */
  ghost function Appeal(t: Tables, k: nat, place: Location, distance: (Location, Location) -> real): real
    requires k < |t.proxies|
  {
    |set a | a in t.assignments && a.proxy == Row(k) :: a.client| as real + (40 - t.proxies[k].capacity) as real -
    distance(t.proxies[k].location, place)
  }

  lemma {:induction false} TwoPrefer(ranking: seq<Ip>, x: Ip, y: Ip)
    requires x in ranking && y in ranking && x != y
    ensures Prefers(ranking, x, y) <==> !Prefers(ranking, y, x)
  {
  }

  /** A client in the market prefers the proxy of more appeal, and among equals the later one. */
  lemma {:induction false} ProxiesRanked(t: Tables, sc: Scene, m: Market, distance: (Location, Location) -> real,
      hit: seq<Client>, now: int, c: Ip, k: nat, l: nat)
    requires IsScene(sc, t.proxies, t.clients, t.assignments, distance, hit, now) && IsMarket(sc, m)
    requires Distinct(t.proxies) && c in m.clientPrefs && c in t.clients && k < |t.proxies| && l < |t.proxies| && k != l
    requires Free(t.proxies[k]) && Free(t.proxies[l])
    ensures var u, v := Appeal(t, k, t.clients[c].location, distance), Appeal(t, l, t.clients[c].location, distance);
      Prefers(m.clientPrefs[c], t.proxies[k].ip, t.proxies[l].ip) <==> u > v || (u == v && k > l)
  {
    hide HasUtilities, ProxySide, Standing, NoDup, Prefers;
    AvailableIsListed(sc, m, c, k);
    AvailableIsListed(sc, m, c, l);
    TwoPrefer(m.clientPrefs[c], t.proxies[k].ip, t.proxies[l].ip);
    RowsCompared(t, distance, t.clients[c].location, k, l);
    RowsCompared(t, distance, t.clients[c].location, l, k);
    hide RowComesFirst;
    assert sc.w.places[c] == t.clients[c].location;
  }

  lemma {:induction false} RowsCompared(t: Tables, distance: (Location, Location) -> real, place: Location, k: nat,
      l: nat)
    requires k < |t.proxies| && l < |t.proxies|
    ensures var u, v := Appeal(t, k, place, distance), Appeal(t, l, place, distance);
      RowComesFirst(t.proxies, t.assignments, distance, place, k, l) <==> u > v || (u == v && k > l)
  {
    assert AssignedTo(t.assignments, k) == set a | a in t.assignments && a.proxy == Row(k) :: a.client;
    assert AssignedTo(t.assignments, l) == set a | a in t.assignments && a.proxy == Row(l) :: a.client;
  }

  /** A proxy in the market prefers the client of more worth to it, and among equals the one that
      asks later. */
  lemma {:induction false} ClientsRanked(t: Tables, sc: Scene, m: Market, distance: (Location, Location) -> real,
      hit: seq<Client>, now: int, k: nat, x: Ip, y: Ip)
    requires IsScene(sc, t.proxies, t.clients, t.assignments, distance, hit, now) && IsMarket(sc, m)
    requires Copies(t.clients, hit) && k < |t.proxies| && Free(t.proxies[k]) && x in t.clients && y in t.clients
    requires t.proxies[k].ip in m.proxyPrefs && x != y
    requires x in m.proxyPrefs[t.proxies[k].ip] && y in m.proxyPrefs[t.proxies[k].ip]
    ensures var place := t.proxies[k].location;
      var u := Score(t, x, now) - 10.0 * distance(place, t.clients[x].location);
      var v := Score(t, y, now) - 10.0 * distance(place, t.clients[y].location);
      Prefers(m.proxyPrefs[t.proxies[k].ip], x, y) <==> u > v || (u == v && FirstAt(hit, x) > FirstAt(hit, y))
  {
    hide HasUtilities, ClientSide, Copies, Prefers, Score, Unflagged, Listed;
    var ranking := m.proxyPrefs[t.proxies[k].ip];
    assert Offered(sc, k, m.proxyPrefs, m.capacities);
    assert x in Elems(ranking) && y in Elems(ranking);
    TwoPrefer(ranking, x, y);
    ListedUnflagged(t.clients, hit, x);
    ListedUnflagged(t.clients, hit, y);
    JudgedByScore(sc, t, distance, hit, now, x);
    JudgedByScore(sc, t, distance, hit, now, y);
    OtherFirst(hit, x, y);
    assert Prefers(ranking, x, y) ==> ComesFirst(sc, k, x, y);
    assert Prefers(ranking, y, x) ==> ComesFirst(sc, k, y, x);
  }

  lemma {:induction false} ListedUnflagged(clients: map<Ip, Client>, hit: seq<Client>, c: Ip)
    requires Copies(clients, hit) && c in Unflagged(hit)
    ensures c in clients && Listed(hit, c) > 0 && !clients[c].flagged && FirstAt(hit, c) < |hit|
  {
    ListedIsHit(hit, c);
  }

  lemma {:induction false} OtherFirst(hit: seq<Client>, x: Ip, y: Ip)
    requires x != y && FirstAt(hit, x) < |hit| && FirstAt(hit, y) < |hit|
    ensures FirstAt(hit, x) != FirstAt(hit, y)
  {
  }

  // ----- What a step does to the counters -----

  /** At which of some proxies a client is. */
  ghost function Among(assignments: seq<Assignment>, ids: seq<nat>, c: Ip): set<nat> {
    set k | k in ids && exists a :: a in assignments && a.proxy == Row(k) && a.client == c
  }

  lemma {:induction false} TimesIsSize(assignments: seq<Assignment>, ids: seq<nat>, c: Ip)
    requires Ascending(ids)
    ensures Times(assignments, ids, c) == |Among(assignments, ids, c)|
  {
    if ids != [] {
      var n := |ids| - 1;
      assert ids == ids[..n] + [ids[n]];
      TimesIsSize(assignments, ids[..n], c);
      var all, init := Among(assignments, ids, c), Among(assignments, ids[..n], c);
      assert ids[n] !in ids[..n];
      assert all == if c in AssignedTo(assignments, ids[n]) then init + {ids[n]} else init;
    }
  }

  /** A target is blocked from now on, and every client learns of each of its proxies that is. */
  lemma {:induction false} BlockedNow(x: Passage)
    requires Passes(x) && Ascending(x.log.targets)
    ensures |x.log.blocked.proxies| == |x.before.proxies|
    ensures forall k: nat :: k < |x.before.proxies| && k in x.log.targets ==>
      x.log.blocked.proxies[k] == x.before.proxies[k].(isBlocked := true, blockedAt := x.now)
    ensures forall k: nat :: k < |x.before.proxies| && k !in x.log.targets ==>
      x.log.blocked.proxies[k] == x.before.proxies[k]
    ensures x.log.moved.clients.Keys == x.before.clients.Keys
    ensures forall c :: c in x.before.clients ==>
      x.log.moved.clients[c] == x.before.clients[c].(knownBlocked :=
        x.before.clients[c].knownBlocked + |Among(x.before.assignments, x.log.targets, c)|)
  {
    hide Serving, Copies, Arrival, Sound, Listed, Times, Survivors, Rejuvenated, Restarted;
    forall c | c in x.before.clients
      ensures c in x.log.moved.clients && x.log.moved.clients[c] ==
        x.before.clients[c].(knownBlocked :=
          x.before.clients[c].knownBlocked + |Among(x.before.assignments, x.log.targets, c)|)
    {
      TimesIsSize(x.before.assignments, x.log.targets, c);
    }
  }

  /** A client that gets a proxy counts one request more; a request changes nothing else in the
      rows but the flags. */
  lemma {:induction false} RequestedNow(x: Passage, c: Ip)
    requires Passes(x) && c in x.before.clients
    ensures c in x.log.moved.clients && c in x.served.clients && |x.log.moved.assignments| <= |x.served.assignments|
    ensures var added := x.served.assignments[|x.log.moved.assignments|..];
      var row := x.log.moved.clients[c];
      x.served.clients[c] == row.(flagged := x.served.clients[c].flagged,
        requestCount := row.requestCount + (if exists a :: a in added && a.client == c then 1 else 0))
  {
    hide Blocking, Rejuvenation, Arrival, Sound, IsScene, IsMarket, BestStable, NoDup;
    ServedClients(x);
    MovedKeys(x);
    PlacedIsAdded(x, c);
    hide Placed, Assigned, Applied;
  }

  lemma {:induction false} MovedKeys(x: Passage)
    requires Passes(x)
    ensures x.log.moved.clients.Keys == x.before.clients.Keys
  {
    hide Serving, Copies, Arrival, Sound, Survivors, Rejuvenated, Restarted, Listed, Times, Learned;
    LearnedKeeps(x.before.clients, x.before.assignments, x.log.targets);
  }

  lemma {:induction false} PlacedIsAdded(x: Passage, c: Ip)
    requires Passes(x)
    ensures |x.log.moved.assignments| <= |x.served.assignments|
    ensures var added := x.served.assignments[|x.log.moved.assignments|..];
      IsPlaced(x.log.results, c) <==> exists a :: a in added && a.client == c
  {
    hide Passes, IsScene, IsMarket, BestStable, Applied, CountedUp, FlagRows, NoDup;
    ServedIsServed(x);
    var added := x.served.assignments[|x.log.moved.assignments|..];
    if IsPlaced(x.log.results, c) {
      var k := PlacedRow(x, c);
      assert Assigned(x.served.proxies, x.log.results, x.now, Assignment(Row(k), c, x.now));
      assert Assignment(Row(k), c, x.now) in added;
    }
    if a :| a in added && a.client == c {
      assert Assigned(x.served.proxies, x.log.results, x.now, a);
      assert Placed(x.log.results, c, x.served.proxies[a.proxy.id].ip);
    }
  }

  lemma {:induction false} PlacedRow(x: Passage, c: Ip) returns (k: nat)
    requires Passes(x) && IsPlaced(x.log.results, c)
    ensures k < |x.served.proxies| && Placed(x.log.results, c, x.served.proxies[k].ip)
  {
    hide Passes, IsMarket, BestStable;
    ServedIsServed(x);
    DistinctMoved(x);
    hide AssignedAll, Applied, CountedUp, FlagRows;
    var t := x.log.moved;
    SceneIs(x.log.scene, t.proxies, t.clients, t.assignments, x.distance, x.log.hit, x.now);
    k := WhereServed(x.log.moved, x.log.scene, x.log.market, x.log.results, c);
  }

  // ----- With rejuvenation everybody in the market is served -----

  lemma {:induction false} RoomBlocks(sc: Scene, m: Market, results: Matching, c: Ip, k: nat)
    requires IsMarket(sc, m) && BestStable(m, results) && c in m.clientPrefs
    requires k < |sc.proxies| && Free(sc.proxies[k])
    requires sc.proxies[k].ip in results && |results[sc.proxies[k].ip]| < sc.proxies[k].capacity
    ensures IsPlaced(results, c)
  {
    hide ClientOptimal, ByWorth, ByProxyUtility, Worth, Sorted, NoDup, Elems, Standing, Feasible, WellFormed, Prefers;
    var ip := sc.proxies[k].ip;
    assert Offered(sc, k, m.proxyPrefs, m.capacities);
    MarketIsWellFormed(sc, m);
    AvailableIsListed(sc, m, c, k);
    Ranked(m, c, ip);
    if !IsPlaced(results, c) {
      RoomIsBlock(m, results, c, ip);
    }
  }

  lemma {:induction false} RoomIsBlock(m: Market, results: Matching, c: Ip, ip: Ip)
    requires Acceptable(m, c, ip) && c in m.clientPrefs && ip in m.clientPrefs[c] && !IsPlaced(results, c)
    requires ip in results && |results[ip]| < m.capacities[ip]
    ensures Blocks(m, results, c, ip)
  {
    assert !Placed(results, c, ip);
  }

  lemma {:induction false} Ranked(m: Market, c: Ip, ip: Ip)
    requires WellFormed(m) && c in m.clientPrefs && ip in m.clientPrefs[c]
    ensures Acceptable(m, c, ip)
  {
    hide NoDup;
  }

  /** If proxies are rejuvenated and there are places for more clients than there are, every client
      in the market gets a proxy. */
  lemma {:induction false} EveryoneServed(x: Passage, c: Ip)
    requires Passes(x) && AllActive(x.before.proxies) && x.moves && c in x.log.market.clientPrefs
    requires |x.before.clients| < MAX_PROXY_CAPACITY * |x.before.proxies|
    ensures IsPlaced(x.log.results, c)
  {
    hide Passes, Linked, Conserved, Single, Free;
    ClientsAfter(x);
    BlockedAfter(x);
    ServedIsSound(x);
    assert Sound(x.served);
    SomeoneHasRoom(x.served.proxies, x.served.clients, x.served.assignments);
    var k :| 0 <= k < |x.served.proxies| && Free(x.served.proxies[k]);
    RoomLeft(x, k);
    hide IsMarket, BestStable;
    RoomBlocks(x.log.scene, x.log.market, x.log.results, c, k);
  }

  lemma {:induction false} FreeIsInResults(sc: Scene, m: Market, results: Matching, k: nat)
    requires IsMarket(sc, m) && BestStable(m, results) && k < |sc.proxies| && Free(sc.proxies[k])
    ensures sc.proxies[k].ip in results
  {
    hide ClientOptimal, ByWorth, ClientSide, Sorted, Blocks, NoDup, Elems, Standing;
    assert Offered(sc, k, m.proxyPrefs, m.capacities) && Feasible(m, results);
  }

  lemma {:induction false} RoomLeft(x: Passage, k: nat)
    requires Passes(x) && k < |x.served.proxies| && Free(x.served.proxies[k])
    ensures IsMarket(x.log.scene, x.log.market) && BestStable(x.log.market, x.log.results)
    ensures k < |x.log.scene.proxies| && Free(x.log.scene.proxies[k])
    ensures var ip := x.log.scene.proxies[k].ip;
      ip in x.log.results && |x.log.results[ip]| < x.log.scene.proxies[k].capacity
  {
    hide Passes, IsMarket, BestStable, AssignedAll, CountedUp, FlagRows, NoDup, HasUtilities;
    ServedIsServed(x);
    var row := x.log.moved.proxies[k];
    FreeIsInResults(x.log.scene, x.log.market, x.log.results, k);
  }

  // ----- An agent that is blocked in every step -----

  /** The agent has been blocked and served again in each of `n - 1` steps since it came. */
  ghost predicate Persists(t: Tables, c: Ip, s: nat, n: nat) {
    && c in t.clients && !t.clients[c].flagged && t.clients[c].isCensorAgent && t.clients[c].creationTime == s
    && t.clients[c].requestCount == n && t.clients[c].knownBlocked == n - 1
    && AllOpen(t.proxies) && exists a :: a in t.assignments && a.client == c
  }

  /** A run of the censor that does not wait, with rejuvenation in every step, in which an agent comes at step `s`. */
  ghost predicate Hunted(u: Setup, s: nat) {
    !u.optimal && u.interval == 1 && NewClient(s) && s < |u.chances| && u.chances[s].isAgent
  }

  ghost predicate HuntStep(u: Setup, x: Passage, s: nat, n: nat) {
    && Hunted(u, s) && n >= 1 && x.now == s + n && x.now < |u.chances| && IsPassage(u, x, x.now)
    && Ready(u, x.before, x.now) && Persists(x.before, ClientIp(s / 4), s, n)
  }

  lemma {:induction false} HuntIs(u: Setup, x: Passage, s: nat, n: nat)
    requires HuntStep(u, x, s, n)
    ensures Passes(x) && Targeted(x, false) && Sound(x.before) && x.moves && x.distance == u.distance && x.now == s + n
    ensures Persists(x.before, ClientIp(s / 4), s, n) && InPlaces(u, x.before)
    ensures |x.before.clients| < MAX_PROXY_CAPACITY * |x.before.proxies|
    ensures x.lastClient >= -1 && ClientIp(x.lastClient + 1) !in x.before.clients
  {
    hide Passes, Sound, InPlaces, Targeted, Persists, ClientIp;
    assert x.now % 1 == 0;
  }

  /** The agent's one proxy is blocked. */
  lemma {:induction false} HuntHits(u: Setup, x: Passage, s: nat, n: nat)
    requires HuntStep(u, x, s, n)
    ensures var c := ClientIp(s / 4);
      && c in x.log.moved.clients && Listed(x.log.hit, c) > 0
      && x.log.moved.clients[c] == x.before.clients[c].(knownBlocked := n)
  {
    hide HuntStep, Passes, Sound, InPlaces, ClientIp, Targeted, Listed, Times;
    var c := ClientIp(s / 4);
    HuntIs(u, x, s, n);
    OneAmongTargets(x, c);
    hide Persists;
    BlockedNow(x);
    ListedIsAmong(x, c);
  }

  lemma {:induction false} ListedIsAmong(x: Passage, c: Ip)
    requires Passes(x) && Ascending(x.log.targets)
    ensures Listed(x.log.hit, c) == |Among(x.before.assignments, x.log.targets, c)|
  {
    hide Serving, Copies, Arrival, Sound, Learned, Survivors, Rejuvenated, Restarted;
    TimesIsSize(x.before.assignments, x.log.targets, c);
  }

  lemma {:induction false} OneAmongTargets(x: Passage, c: Ip)
    requires Targeted(x, false) && Sound(x.before) && AllOpen(x.before.proxies) && IsAgent(x.before, c)
    requires exists a :: a in x.before.assignments && a.client == c
    ensures Ascending(x.log.targets) && |Among(x.before.assignments, x.log.targets, c)| == 1
  {
    hide Conserved, Distinct;
    var a :| a in x.before.assignments && a.client == c;
    var k := a.proxy.id;
    assert Live(x.before.proxies, a) && IsTarget(x.before, false, k, x.now);
    forall j | j in Among(x.before.assignments, x.log.targets, c) ensures j == k {
      var b :| b in x.before.assignments && b.proxy == Row(j) && b.client == c;
      assert Live(x.before.proxies, b);
      SingleUnique(x.before.proxies, x.before.assignments, a, b);
    }
    assert k in x.log.targets;
    assert Among(x.before.assignments, x.log.targets, c) == {k};
  }

  /** What it is worth then: 0.8 for each step, less 1 for each request and 2 for each blocked proxy. */
  lemma {:induction false} HuntScore(u: Setup, x: Passage, s: nat, n: nat)
    requires HuntStep(u, x, s, n) && n < 30000
    ensures ClientIp(s / 4) in x.log.moved.clients
    ensures Score(x.log.moved, ClientIp(s / 4), x.now) == -2.2 * n as real
  {
    hide HuntStep, Passes, Sound, InPlaces, ClientIp, Targeted, Spells, Sum;
    var c := ClientIp(s / 4);
    HuntIs(u, x, s, n);
    HuntHits(u, x, s, n);
    ActiveBefore(x);
    MovedOpen(x);
    OpenSpells(x.log.moved, c);
  }

  lemma {:induction false} OpenSpells(t: Tables, c: Ip)
    requires AllOpen(t.proxies)
    ensures Sum(Spells(t, c)) == 0
  {
    NoSpells(t, c);
  }

  /** The agent is flagged in this step, or goes on as before. */
  lemma {:induction false} HuntNext(u: Setup, x: Passage, s: nat, n: nat)
    requires HuntStep(u, x, s, n) && n < 30000
    ensures var c := ClientIp(s / 4);
      && c in x.log.moved.clients && c in x.after.clients
      && (x.after.clients[c].flagged <==> TooFar(x.log.moved, c, x.now, u.distance))
      && (!x.after.clients[c].flagged ==> Persists(x.after, c, s, n + 1))
  {
    hide HuntStep, Passes, Sound, InPlaces, ClientIp, Targeted, TooFar, Serving, Copies, Listed;
    var c := ClientIp(s / 4);
    HuntIs(u, x, s, n);
    HuntHits(u, x, s, n);
    ActiveBefore(x);
    ServedIsServed(x);
    FlagsExactly(x.log.moved, x.served, x.log.scene, x.log.market, x.log.results, x.distance, x.log.hit, x.now, c);
    ClientsAfter(x);
    RequestedNow(x, c);
    BlockedAfter(x);
    ProxiesAfter(x);
    if !x.served.clients[c].flagged {
      EveryoneServed(x, c);
      PlacedIsAdded(x, c);
      StillAssigned(x, c);
    }
  }

  lemma {:induction false} StillAssigned(x: Passage, c: Ip)
    requires Passes(x) && IsPlaced(x.log.results, c)
    ensures exists a :: a in x.after.assignments && a.client == c
  {
    hide Passes, Assigned;
    PlacedIsAdded(x, c);
    AssignmentsAdded(x);
    var added := x.served.assignments[|x.log.moved.assignments|..];
    var a :| a in added && a.client == c;
    assert a in x.served.assignments && a in x.after.assignments;
  }

  lemma {:induction false} HuntStarts(u: Setup, x: Passage, s: nat)
    requires Hunted(u, s) && x.now == s && IsPassage(u, x, s) && Ready(u, x.before, s) && !Stuck(x)
    ensures Persists(x.after, ClientIp(s / 4), s, 1)
  {
    hide Passes, Sound, InPlaces, ClientIp, Targeted;
    assert x.now % 1 == 0 && x.lastClient + 1 == s / 4;
    ActiveBefore(x);
    BlockedAfter(x);
    ProxiesAfter(x);
    ClientsAfter(x);
    AssignmentsAdded(x);
    assert x.after.assignments == x.served.assignments + [Arrived(x)];
    assert Arrived(x) in x.after.assignments;
  }

  lemma {:induction false} FlagStays(x: Passage, c: Ip)
    requires Passes(x) && c in x.before.clients && x.before.clients[c].flagged
    requires NewClient(x.now) ==> x.lastClient >= -1 && ClientIp(x.lastClient + 1) !in x.before.clients
    ensures c in x.after.clients && x.after.clients[c].flagged
  {
    hide Passes, ClientIp, NewClient, Serving, Copies, Listed, Times, TooFar;
    ServedIsServed(x);
    ClientsAfter(x);
    MovedFlags(x, c);
    FlagsExactly(x.log.moved, x.served, x.log.scene, x.log.market, x.log.results, x.distance, x.log.hit, x.now, c);
  }

  lemma {:induction false} MovedFlags(x: Passage, c: Ip)
    requires Passes(x) && c in x.before.clients
    ensures c in x.log.moved.clients && x.log.moved.clients[c].flagged == x.before.clients[c].flagged
  {
    hide Serving, Copies, Arrival, Sound, Survivors, Rejuvenated, Restarted, Listed, Times;
  }

  /** At every step after it came, such an agent is flagged or goes on. */
  lemma {:induction false} HuntStands(u: Setup, trace: seq<Passage>, s: nat, n: nat)
    requires IsRun(u, trace) && Kept(u, trace) && Hunted(u, s) && 1 <= n < 30000 && s + n < |trace|
    ensures var t, c := trace[s + n].before, ClientIp(s / 4);
      c in t.clients && (t.clients[c].flagged || Persists(t, c, s, n))
  {
    hide Passes, Targeted, Ready, Persists, Stuck, Renames, HeldIn, ClientIp, TooFar, Hunted;
    var x := trace[s + n - 1];
    assert Follows(trace, s + n) && IsPassage(u, x, s + n - 1) && Ready(u, x.before, s + n - 1);
    if n == 1 {
      HuntStarts(u, x, s);
      PersistsIs(x.after, ClientIp(s / 4), s, 1);
    } else {
      HuntStands(u, trace, s, n - 1);
      ReadyIs(u, x.before, s + n - 1);
      if x.before.clients[ClientIp(s / 4)].flagged {
        FlagStays(x, ClientIp(s / 4));
      } else {
        HuntNext(u, x, s, n - 1);
        if !x.after.clients[ClientIp(s / 4)].flagged {
          PersistsIs(x.after, ClientIp(s / 4), s, n);
        }
      }
    }
  }

  lemma {:induction false} PersistsIs(t: Tables, c: Ip, s: nat, n: nat)
    requires Persists(t, c, s, n)
    ensures c in t.clients
  {
  }

  lemma {:induction false} ReadyIs(u: Setup, t: Tables, i: nat)
    requires Ready(u, t, i)
    ensures ClientIp((i + 3) / 4) !in t.clients && AllActive(t.proxies) && InPlaces(u, t)
    ensures |t.proxies| > 0 && |t.clients| < MAX_PROXY_CAPACITY * |t.proxies|
  {
    hide ClientIp, InPlaces;
  }

  /** With 2.2 for each step, and ten times the distance from some free proxy, 500 is exceeded. */
  ghost predicate Found(t: Tables, c: Ip, n: nat, distance: (Location, Location) -> real)
    requires c in t.clients
  {
    exists k: nat :: k < |t.proxies| && Free(t.proxies[k]) &&
      2.2 * n as real + 10.0 * distance(t.proxies[k].location, t.clients[c].location) > 500.0
  }

  /** In the step `n` after it came, an agent that goes on is flagged exactly then. */
  lemma {:induction false} FlaggedWhen(u: Setup, x: Passage, s: nat, n: nat)
    requires HuntStep(u, x, s, n) && n < 30000
    ensures var c := ClientIp(s / 4);
      && c in x.log.moved.clients && c in x.after.clients
      && (x.after.clients[c].flagged <==> Found(x.log.moved, c, n, u.distance))
  {
    hide HuntStep, Passes, Persists, ClientIp, Score;
    HuntNext(u, x, s, n);
    HuntScore(u, x, s, n);
    FoundIs(x.log.moved, ClientIp(s / 4), x.now, n, u.distance);
  }

  lemma {:induction false} FoundIs(t: Tables, c: Ip, now: int, n: nat, distance: (Location, Location) -> real)
    requires c in t.clients && Score(t, c, now) == -2.2 * n as real
    ensures TooFar(t, c, now, distance) <==> Found(t, c, n, distance)
  {
    hide Score;
    var place := t.clients[c].location;
    if Found(t, c, n, distance) {
      var k: nat :| k < |t.proxies| && Free(t.proxies[k]) &&
        2.2 * n as real + 10.0 * distance(t.proxies[k].location, place) > 500.0;
      assert Score(t, c, now) - 10.0 * distance(t.proxies[k].location, place) < -500.0;
    }
    if TooFar(t, c, now, distance) {
      var k: nat :| k < |t.proxies| && Free(t.proxies[k]) &&
        Score(t, c, now) - 10.0 * distance(t.proxies[k].location, place) < -500.0;
      assert 2.2 * n as real + 10.0 * distance(t.proxies[k].location, place) > 500.0;
    }
  }

  /** Some proxy is free after rejuvenation. */
  lemma {:induction false} SomeFree(x: Passage) returns (k: nat)
    requires Passes(x) && AllActive(x.before.proxies) && x.moves
    requires |x.before.clients| < MAX_PROXY_CAPACITY * |x.before.proxies|
    ensures k < |x.log.moved.proxies| && Free(x.log.moved.proxies[k])
  {
    hide Passes, Linked, Conserved, Single, Free;
    ClientsAfter(x);
    BlockedAfter(x);
    ServedIsSound(x);
    assert Sound(x.served);
    SomeoneHasRoom(x.served.proxies, x.served.clients, x.served.assignments);
    k :| 0 <= k < |x.served.proxies| && Free(x.served.proxies[k]);
    RoomLeft(x, k);
    SameScene(x);
  }

  lemma {:induction false} SameScene(x: Passage)
    requires Passes(x)
    ensures x.log.scene.proxies == x.log.moved.proxies
  {
    hide Passes, IsMarket, BestStable, Applied, AssignedAll, CountedUp, FlagRows, HasUtilities;
    ServedIsServed(x);
  }

  /** With rejuvenation in every step and the censor that does not wait, an agent is flagged within
      228 steps. */
  lemma {:induction false} AgentIsFlagged(u: Setup, trace: seq<Passage>, s: nat)
    requires IsRun(u, trace) && Kept(u, trace) && Hunted(u, s) && s + 228 < |trace|
    requires forall x, y :: x in ProxyPlaces(u) && y in ClientPlaces(u) ==> u.distance(x, y) >= 0.0
    ensures var t, c := trace[s + 228].after, ClientIp(s / 4); c in t.clients && t.clients[c].flagged
  {
    hide Passes, Targeted, Ready, Persists, Renames, HeldIn, ClientIp, ProxyPlaces, ClientPlaces, Hunted, NewClient;
    var x := trace[s + 228];
    var c := ClientIp(s / 4);
    HuntStands(u, trace, s, 228);
    assert IsPassage(u, x, s + 228) && Ready(u, x.before, s + 228);
    ReadyIs(u, x.before, s + 228);
    if x.before.clients[c].flagged {
      FlagStays(x, c);
    } else {
      assert HuntStep(u, x, s, 228);
      HuntIs(u, x, s, 228);
      var k := SomeFree(x);
      MovedPlaces(u, x);
      FlaggedWhen(u, x, s, 228);
      PlacedWithin(u, x.log.moved, k, c);
    }
  }

  lemma {:induction false} PlacedWithin(u: Setup, t: Tables, k: nat, c: Ip)
    requires InPlaces(u, t) && k < |t.proxies| && c in t.clients
    ensures t.proxies[k].location in ProxyPlaces(u) && t.clients[c].location in ClientPlaces(u)
  {
  }

  /** And, where no proxy is farther than 15.6, not within the first 156. */
  lemma {:induction false} AgentGoesOn(u: Setup, trace: seq<Passage>, s: nat, n: nat)
    requires IsRun(u, trace) && Kept(u, trace) && Hunted(u, s) && 1 <= n <= 157 && s + n < |trace|
    requires forall x, y :: x in ProxyPlaces(u) && y in ClientPlaces(u) ==> u.distance(x, y) <= 15.6
    ensures Persists(trace[s + n].before, ClientIp(s / 4), s, n)
  {
    hide Passes, Targeted, Ready, Persists, Renames, HeldIn, Stuck, ClientIp, Hunted, NewClient;
    hide ProxyPlaces, ClientPlaces, InPlaces;
    var x := trace[s + n - 1];
    var c := ClientIp(s / 4);
    assert Follows(trace, s + n) && IsPassage(u, x, s + n - 1) && Ready(u, x.before, s + n - 1);
    if n == 1 {
      HuntStarts(u, x, s);
    } else {
      AgentGoesOn(u, trace, s, n - 1);
      assert HuntStep(u, x, s, n - 1);
      HuntIs(u, x, s, n - 1);
      MovedPlaces(u, x);
      HuntNext(u, x, s, n - 1);
      FlaggedWhen(u, x, s, n - 1);
      forall k: nat | k < |x.log.moved.proxies|
        ensures u.distance(x.log.moved.proxies[k].location, x.log.moved.clients[c].location) <= 15.6
      {
        PlacedWithin(u, x.log.moved, k, c);
      }
    }
  }
}
