/** The parts of a step, as relations between the tables before and after. */
module SimulationSteps {
  import opened Addresses
  import opened SimulationTables
  import opened SimulationHolders
  import opened DeferredAcceptance
  import opened SimulationMarkets
  import opened SimulationJudging
  import opened SimulationMatches

  // ----- Blocking -----

  /** To how many of some proxies a client is assigned. */
  function Times(assignments: seq<Assignment>, ids: seq<nat>, c: Ip): nat {
    if ids == [] then 0
    else
      var n := |ids| - 1;
      Times(assignments, ids[..n], c) + (if c in AssignedTo(assignments, ids[n]) then 1 else 0)
  }

  /** How often a client is in a list. */
  function Listed(cs: seq<Client>, c: Ip): nat {
    if cs == [] then 0
    else
      var n := |cs| - 1;
      Listed(cs[..n], c) + (if cs[n].ip == c then 1 else 0)
  }

  /** The clients, each having learned of the blocked ones among its proxies. */
  ghost function Learned(clients: map<Ip, Client>, assignments: seq<Assignment>, ids: seq<nat>): map<Ip, Client> {
    map c | c in clients :: clients[c].(knownBlocked := clients[c].knownBlocked + Times(assignments, ids, c))
  }

  /** Rows read at different times, in which only counters changed since; the last copy of a
      client is its row. */
  ghost predicate Copies(clients: map<Ip, Client>, hit: seq<Client>) {
    forall i :: 0 <= i < |hit| ==>
      && hit[i].ip in clients && hit[i].flagged == clients[hit[i].ip].flagged
      && hit[i].location == clients[hit[i].ip].location
      && ((forall j :: i < j < |hit| ==> hit[j].ip != hit[i].ip) ==> hit[i] == clients[hit[i].ip])
  }

  lemma {:induction false} CopiesNext(before: map<Ip, Client>, after: map<Ip, Client>, hit: seq<Client>,
      rows: seq<Client>, affected: set<Ip>)
    requires Copies(before, hit) && before.Keys == after.Keys
    requires forall c :: c in before ==>
      && after[c].flagged == before[c].flagged && after[c].location == before[c].location
      && (c !in affected ==> after[c] == before[c])
    requires forall i :: 0 <= i < |rows| ==> rows[i].ip in after && rows[i] == after[rows[i].ip]
    requires forall c :: c in affected ==> exists i :: 0 <= i < |rows| && rows[i].ip == c
    ensures Copies(after, hit + rows)
  {
    var all := hit + rows;
    forall i | 0 <= i < |hit| && forall j :: i < j < |all| ==> all[j].ip != all[i].ip
      ensures all[i] == after[all[i].ip] {
      forall j | i < j < |hit| ensures hit[j].ip != hit[i].ip {
        assert all[j] == hit[j];
      }
      forall j | 0 <= j < |rows| ensures rows[j].ip != hit[i].ip {
        assert all[|hit| + j] == rows[j];
      }
    }
  }

  /** What the ranking needs to know of the copies. */
  lemma {:induction false} CopiesAreRows(clients: map<Ip, Client>, cs: seq<Client>)
    requires Copies(clients, cs)
    ensures PlacesOf(cs, Places(clients)) && Consistent(cs) && Current(clients, cs)
    ensures forall i :: 0 <= i < |cs| ==> cs[i].ip in clients
  {
    forall i | IsLastCopy(cs, i) ensures cs[i] == clients[cs[i].ip] {
      LastOfAll(cs, i);
    }
  }

  lemma {:induction false} LastOfAll(cs: seq<Client>, i: nat)
    requires Consistent(cs) && IsLastCopy(cs, i)
    ensures forall j :: i < j < |cs| ==> cs[j].ip != cs[i].ip
  {
  }

  lemma {:induction false} ListedConcat(a: seq<Client>, b: seq<Client>, c: Ip)
    ensures Listed(a + b, c) == Listed(a, c) + Listed(b, c)
  {
    if b == [] {
      assert a + b == a;
    } else {
      var n := |b| - 1;
      assert (a + b)[..|a + b| - 1] == a + b[..n];
      ListedConcat(a, b[..n], c);
    }
  }

  lemma {:induction false} ListedIsHit(cs: seq<Client>, c: Ip)
    ensures Listed(cs, c) > 0 <==> exists i :: 0 <= i < |cs| && cs[i].ip == c
  {
    if cs != [] {
      var n := |cs| - 1;
      ListedIsHit(cs[..n], c);
      if i :| 0 <= i < |cs[..n]| && cs[..n][i].ip == c {
        assert cs[i].ip == c;
      }
      if i :| 0 <= i < |cs| && cs[i].ip == c {
        assert i < n ==> cs[..n][i].ip == c;
      }
    }
  }

  lemma {:induction false} TimesIsHit(assignments: seq<Assignment>, ids: seq<nat>, c: Ip) returns (id: nat)
    requires Times(assignments, ids, c) > 0
    ensures id in ids && c in AssignedTo(assignments, id)
  {
    var n := |ids| - 1;
    if c in AssignedTo(assignments, ids[n]) {
      id := ids[n];
    } else {
      id := TimesIsHit(assignments, ids[..n], c);
    }
  }

  lemma {:induction false} TimesOf(assignments: seq<Assignment>, ids: seq<nat>, c: Ip, id: nat)
    requires id in ids && c in AssignedTo(assignments, id)
    ensures Times(assignments, ids, c) > 0
  {
    var n := |ids| - 1;
    if ids[n] != id {
      TimesOf(assignments, ids[..n], c, id);
    }
  }

  lemma {:induction false} LearnedNext(clients: map<Ip, Client>, assignments: seq<Assignment>, ids: seq<nat>, i: nat)
    requires i < |ids|
    ensures ids[..i + 1] == ids[..i] + [ids[i]]
    ensures forall c ::
      Times(assignments, ids[..i + 1], c) == Times(assignments, ids[..i], c) + Times(assignments, [ids[i]], c)
    ensures forall c :: Times(assignments, [ids[i]], c) == if c in AssignedTo(assignments, ids[i]) then 1 else 0
    ensures Learned(clients, assignments, ids[..i + 1]) ==
      Learned(Learned(clients, assignments, ids[..i]), assignments, [ids[i]])
  {
    assert ids[..i + 1][..i] == ids[..i];
    forall c ensures Times(assignments, [ids[i]], c) == if c in AssignedTo(assignments, ids[i]) then 1 else 0 {
      assert [ids[i]][..0] == [];
    }
  }

  lemma {:induction false} NothingLearned(clients: map<Ip, Client>, assignments: seq<Assignment>)
    ensures Learned(clients, assignments, []) == clients && Copies(clients, [])
    ensures forall c :: Listed([], c) == Times(assignments, [], c) == 0
  {
  }

  ghost predicate Ascending(ids: seq<nat>) {
    forall i, j :: 0 <= i < j < |ids| ==> ids[i] < ids[j]
  }

  /** The targets are blocked; the clients learn of it, and are listed once for each of their
      proxies that is blocked. */
  ghost predicate Blocking(before: Tables, after: Tables, targets: seq<nat>, hit: seq<Client>, now: int) {
    && |after.proxies| == |before.proxies| && after.assignments == before.assignments
    && (forall k :: 0 <= k < |before.proxies| ==>
          after.proxies[k] == if k in targets then BlockedAt(before.proxies[k], now) else before.proxies[k])
    && after.clients == Learned(before.clients, before.assignments, targets)
    && Copies(after.clients, hit)
    && forall c :: Listed(hit, c) == Times(before.assignments, targets, c)
  }

  lemma {:induction false} OneTarget(assignments: seq<Assignment>, k: nat)
    ensures forall c :: Times(assignments, [k], c) == if c in AssignedTo(assignments, k) then 1 else 0
  {
    assert [k][..0] == [];
  }

  lemma {:induction false} BlockedRows(proxies: seq<Proxy>, clients: map<Ip, Client>, assignments: seq<Assignment>,
      k: nat, now: int)
    requires k < |proxies| && Linked(proxies, clients, assignments) && Conserved(proxies, assignments)
    requires Single(proxies, assignments) && AllActive(proxies)
    ensures var rows, people := proxies[k := BlockedAt(proxies[k], now)], Learned(clients, assignments, [k]);
      && Linked(rows, people, assignments) && Conserved(rows, assignments) && Single(rows, assignments)
      && AllActive(rows) && people.Keys == clients.Keys && |people| == |clients|
  {
    hide Count, Times;
    var rows, people := proxies[k := BlockedAt(proxies[k], now)], Learned(clients, assignments, [k]);
    SingleFewer(proxies, rows, assignments);
    assert people.Keys == clients.Keys;
    assert |people.Keys| == |people| && |clients.Keys| == |clients|;
  }

  /** One more target. */
  lemma {:induction false} BlockingNext(first: Tables, before: Tables, after: Tables, ids: seq<nat>, i: nat,
      hit: seq<Client>, rows: seq<Client>, now: int)
    requires i < |ids| && ids[i] < |first.proxies| && Blocking(first, before, ids[..i], hit, now)
    requires forall j :: 0 <= j < i ==> ids[j] < ids[i]
    requires after.proxies == before.proxies[ids[i] := BlockedAt(before.proxies[ids[i]], now)]
    requires after.assignments == before.assignments
    requires after.clients == Learned(before.clients, before.assignments, [ids[i]])
    requires forall j :: 0 <= j < |rows| ==> rows[j].ip in after.clients && rows[j] == after.clients[rows[j].ip]
    requires forall c :: Listed(rows, c) == Times(before.assignments, [ids[i]], c)
    ensures Blocking(first, after, ids[..i + 1], hit + rows, now)
  {
    hide Listed, Times, AssignedTo, Copies;
    LearnedNext(first.clients, first.assignments, ids, i);
    var affected := AssignedTo(first.assignments, ids[i]);
    forall c | c in affected ensures exists j :: 0 <= j < |rows| && rows[j].ip == c {
      ListedIsHit(rows, c);
    }
    CopiesNext(before.clients, after.clients, hit, rows, affected);
    forall c ensures Listed(hit + rows, c) == Times(first.assignments, ids[..i + 1], c) {
      ListedConcat(hit, rows, c);
    }
    assert ids[i] !in ids[..i];
  }

  /** A client that is listed had its one live assignment at a target, and has none now. */
  lemma {:induction false} HitIsIdle(before: Tables, after: Tables, targets: seq<nat>, hit: seq<Client>, now: int,
      i: nat)
    requires Blocking(before, after, targets, hit, now) && Single(before.proxies, before.assignments)
    requires forall k :: k in targets ==> k < |before.proxies| && !before.proxies[k].isBlocked
    requires i < |hit|
    ensures Idle(after.proxies, after.assignments, hit[i].ip)
  {
    hide Single, Learned, Copies;
    var c := hit[i].ip;
    ListedIsHit(hit, c);
    var k := TimesIsHit(before.assignments, targets, c);
    var a :| a in before.assignments && a.proxy == Row(k) && a.client == c;
    forall b | b in after.assignments && Live(after.proxies, b) ensures b.client != c {
      assert Live(before.proxies, b) && b != a;
      if b.client == c {
        SingleUnique(before.proxies, before.assignments, a, b);
      }
    }
  }

  lemma {:induction false} AllHitAreIdle(before: Tables, after: Tables, targets: seq<nat>, hit: seq<Client>, now: int)
    requires Blocking(before, after, targets, hit, now) && Single(before.proxies, before.assignments)
    requires forall k :: k in targets ==> k < |before.proxies| && !before.proxies[k].isBlocked
    ensures forall i :: 0 <= i < |hit| ==> Idle(after.proxies, after.assignments, hit[i].ip)
  {
    hide Blocking, Idle, Single;
    forall i | 0 <= i < |hit| ensures Idle(after.proxies, after.assignments, hit[i].ip) {
      HitIsIdle(before, after, targets, hit, now, i);
    }
  }

  // ----- Rejuvenation -----

  /** The assignments without those of some proxies. */
  function Survivors(assignments: seq<Assignment>, gone: set<nat>): (r: seq<Assignment>)
    ensures forall a :: a in r <==> a in assignments && !(a.proxy.Row? && a.proxy.id in gone)
  {
    if assignments == [] then []
    else
      var n := |assignments| - 1;
      assert assignments == assignments[..n] + [assignments[n]];
      var last := assignments[n];
      Survivors(assignments[..n], gone) + (if last.proxy.Row? && last.proxy.id in gone then [] else [last])
  }

  lemma {:induction false} DeletedSurvivors(assignments: seq<Assignment>, gone: set<nat>, k: nat)
    ensures Deleted(Survivors(assignments, gone), k) == Survivors(assignments, gone + {k})
  {
    if assignments != [] {
      var n := |assignments| - 1;
      var last := assignments[n];
      DeletedSurvivors(assignments[..n], gone, k);
      if !(last.proxy.Row? && last.proxy.id in gone) {
        var s := Survivors(assignments[..n], gone);
        assert Survivors(assignments, gone) == s + [last];
        assert (s + [last])[..|s|] == s;
      } else {
        assert Survivors(assignments, gone) == Survivors(assignments[..n], gone);
      }
    }
  }

  lemma {:induction false} AllSurvive(assignments: seq<Assignment>)
    ensures Survivors(assignments, {}) == assignments
  {
    if assignments != [] {
      var n := |assignments| - 1;
      AllSurvive(assignments[..n]);
      assert Survivors(assignments, {}) == Survivors(assignments[..n], {}) + [assignments[n]];
    }
  }

  /** The first proxies that are active and blocked. */
  ghost function Restarted(proxies: seq<Proxy>, n: nat): set<nat>
    requires n <= |proxies|
  {
    set k: nat | k < n && proxies[k].isActive && proxies[k].isBlocked
  }

  lemma {:induction false} RestartedNext(proxies: seq<Proxy>, k: nat)
    requires k < |proxies|
    ensures Restarted(proxies, k + 1) ==
      if proxies[k].isActive && proxies[k].isBlocked then Restarted(proxies, k) + {k} else Restarted(proxies, k)
  {
  }

  /** Every active proxy moves to a fresh address; those that were blocked lose their
      assignments and have all their room again. */
  ghost predicate Rejuvenation(before: Tables, after: Tables, held: set<Ip>) {
    && |after.proxies| == |before.proxies| && after.clients == before.clients
    && (forall k :: 0 <= k < |before.proxies| ==> Rejuvenated(before.proxies[k], after.proxies[k], held))
    && after.assignments == Survivors(before.assignments, Restarted(before.proxies, |before.proxies|))
  }

  /** The first proxies have moved. */
  ghost predicate Rejuvenating(before: Tables, after: Tables, n: nat, held: set<Ip>) {
    && |after.proxies| == |before.proxies| >= n && after.clients == before.clients
    && (forall k :: 0 <= k < n ==> Rejuvenated(before.proxies[k], after.proxies[k], held))
    && (forall k :: n <= k < |before.proxies| ==> after.proxies[k] == before.proxies[k])
    && after.assignments == Survivors(before.assignments, Restarted(before.proxies, n))
  }

  lemma {:induction false} RejuvenatingStart(t: Tables, held: set<Ip>)
    ensures Rejuvenating(t, t, 0, held)
  {
    AllSurvive(t.assignments);
    assert Restarted(t.proxies, 0) == {};
  }

  lemma {:induction false} RejuvenatingNext(first: Tables, before: Tables, after: Tables, k: nat, held: set<Ip>)
    requires Rejuvenating(first, before, k, held) && k < |before.proxies| && after.clients == before.clients
    requires before.proxies[k].isActive ==> after.proxies == before.proxies[k := Migrated(before.proxies[k])]
    requires before.proxies[k].isActive ==> after.proxies[k].ip !in held
    requires before.proxies[k].isActive ==>
      after.assignments == if before.proxies[k].isBlocked then Deleted(before.assignments, k) else before.assignments
    requires !before.proxies[k].isActive ==> after == before
    ensures Rejuvenating(first, after, k + 1, held)
  {
    hide Survivors, Deleted, Restarted, MigrationIp;
    RestartedNext(first.proxies, k);
    DeletedSurvivors(first.assignments, Restarted(first.proxies, k), k);
  }

  lemma {:induction false} RejuvenatingEnd(before: Tables, after: Tables, held: set<Ip>)
    requires Rejuvenating(before, after, |before.proxies|, held)
    ensures Rejuvenation(before, after, held)
  {
  }

  lemma {:induction false} IdleAfterRejuvenation(before: Tables, after: Tables, held: set<Ip>, c: Ip)
    requires Rejuvenation(before, after, held) && Idle(before.proxies, before.assignments, c)
    ensures Idle(after.proxies, after.assignments, c)
  {
    hide Survivors, MigrationIp;
    forall a | a in after.assignments && Live(after.proxies, a) ensures a.client != c {
      assert a.proxy.id !in Restarted(before.proxies, |before.proxies|);
      assert Rejuvenated(before.proxies[a.proxy.id], after.proxies[a.proxy.id], held);
      assert Live(before.proxies, a);
    }
  }

  // ----- Requests -----

  /** The one market of the tables has its best stable matching applied; clients of too little
      utility are flagged. */
  ghost predicate Serving(before: Tables, after: Tables, sc: Scene, m: Market, results: Matching,
      distance: (Location, Location) -> real, hit: seq<Client>, now: int) {
    && IsScene(sc, before.proxies, before.clients, before.assignments, distance, hit, now)
    && IsMarket(sc, m) && BestStable(m, results)
    && Applied(before.proxies, after.proxies, results)
    && AssignedAll(before.assignments, after.assignments, after.proxies, results, now)
    && after.clients == CountedUp(FlagRows(before.clients, Unflagged(hit) - m.clientPrefs.Keys), results)
  }

  /** How blocking and serving went: what was blocked and who was listed, the tables after blocking and
      after rejuvenation, and the market with its matching. */
  datatype Log = Log(targets: seq<nat>, hit: seq<Client>, blocked: Tables, moved: Tables, scene: Scene, market: Market,
    results: Matching)

  ghost predicate AllOpen(proxies: seq<Proxy>) {
    forall k :: 0 <= k < |proxies| ==> !proxies[k].isBlocked
  }

  /** After rejuvenation no proxy is blocked. */
  lemma {:induction false} AllOpenAfter(blocked: Tables, moved: Tables, served: Tables, held: set<Ip>,
      results: Matching)
    requires Rejuvenation(blocked, moved, held) && Applied(moved.proxies, served.proxies, results)
    requires AllActive(served.proxies)
    ensures AllOpen(served.proxies)
  {
    hide Survivors, MigrationIp;
    forall k | 0 <= k < |served.proxies| ensures !served.proxies[k].isBlocked {
      assert Rejuvenated(blocked.proxies[k], moved.proxies[k], held);
    }
  }

  lemma {:induction false} KeepsAddresses(before: Tables, log: Log, served: Tables, held: set<Ip>, now: int,
      moves: bool)
    requires Blocking(before, log.blocked, log.targets, log.hit, now)
    requires if moves then Rejuvenation(log.blocked, log.moved, held) else log.moved == log.blocked
    requires Applied(log.moved.proxies, served.proxies, log.results)
    ensures |served.proxies| == |before.proxies|
    ensures forall k :: 0 <= k < |before.proxies| ==>
      served.proxies[k].ip == before.proxies[k].ip ||
        (moves && log.blocked.proxies[k].isActive && served.proxies[k].ip !in held)
  {
    hide Survivors, MigrationIp, Learned, Copies, Listed, Times;
    forall k | 0 <= k < |before.proxies|
      ensures served.proxies[k].ip == before.proxies[k].ip ||
        (moves && log.blocked.proxies[k].isActive && served.proxies[k].ip !in held)
    {
      if moves {
        assert Rejuvenated(log.blocked.proxies[k], log.moved.proxies[k], held);
      }
    }
  }

  // ----- Arrivals -----

  const NEW_PROXY_INTERVAL := 100
  const NEW_USER_RATE_INTERVAL := 4

  /** What chance decides in a step. */
  datatype Chance = Chance(isAgent: bool, proxyLocation: Location, clientLocation: Location)

  predicate NewClient(now: nat) {
    now % NEW_USER_RATE_INTERVAL == 0
  }

  /** The agents with the new client, if one arrives and is one. */
  function AgentsWith(agents: set<Ip>, lastClient: int, chance: Chance, now: nat): set<Ip>
    requires lastClient >= -1
  {
    if NewClient(now) && chance.isAgent then agents + {ClientIp(lastClient + 1)} else agents
  }

  /** The last address given to a new proxy. */
  function NextLast(last: Ip, now: nat): Ip {
    if now % NEW_PROXY_INTERVAL == 0 then NextProxyIp(last) else last
  }

  /** The proxies with the new one, if one arrives. */
  function Grown(proxies: seq<Proxy>, last: Ip, chance: Chance, now: nat): seq<Proxy> {
    if now % NEW_PROXY_INTERVAL == 0
    then proxies + [Proxy(NextProxyIp(last), MAX_PROXY_CAPACITY, false, 0, true, chance.proxyLocation)]
    else proxies
  }

  /** The clients with the new one, if one arrives. */
  function Joined(clients: map<Ip, Client>, lastClient: int, chance: Chance, now: nat): map<Ip, Client>
    requires lastClient >= -1
  {
    if NewClient(now) then
      var ip := ClientIp(lastClient + 1);
      clients[ip := Client(ip, chance.isAgent, false, 1, 0, now, chance.clientLocation)]
    else clients
  }

  /** A new client, if it is time, gets the first proxy with room, or no proxy at all. */
  ghost predicate Admission(before: Tables, after: Tables, k: nat, lastClient: int, chance: Chance, now: nat) {
    if NewClient(now) then
      && lastClient >= -1 && IsFirstFree(before.proxies, k)
      && var ip := ClientIp(lastClient + 1);
      && after.clients == Joined(before.clients, lastClient, chance, now)
      && (if k < |before.proxies| then
            && after.proxies == before.proxies[k := Taken(before.proxies[k], 1)]
            && after.assignments == before.assignments + [Assignment(Row(k), ip, now)]
          else
            && after.proxies == before.proxies
            && after.assignments == before.assignments + [Assignment(NoProxy, ip, now)])
    else after == before
  }

  ghost predicate Arrival(before: Tables, after: Tables, k: nat, lastProxy: Ip, lastClient: int, chance: Chance,
      now: nat) {
    Admission(before.(proxies := Grown(before.proxies, lastProxy, chance, now)), after, k, lastClient, chance, now)
  }

  // ----- A step -----

  /** What holds of the tables between the parts of a step. */
  ghost predicate Sound(t: Tables) {
    && Linked(t.proxies, t.clients, t.assignments) && Conserved(t.proxies, t.assignments)
    && Single(t.proxies, t.assignments) && AllActive(t.proxies) && Distinct(t.proxies)
  }

  /** How one step went: the tables before and after, and those after the requests of the blocked
      clients; the row of the first free proxy; the addresses held before; and what the step used. */
  datatype Passage = Passage(before: Tables, after: Tables, log: Log, served: Tables, k: nat, held: set<Ip>,
    distance: (Location, Location) -> real, lastProxy: Ip, lastClient: int, chance: Chance, now: nat, moves: bool)

  /** Blocking, then rejuvenation if it is time, then requests, then arrivals. */
  ghost predicate Passes(x: Passage) {
    && Blocking(x.before, x.log.blocked, x.log.targets, x.log.hit, x.now)
    && (if x.moves then Rejuvenation(x.log.blocked, x.log.moved, x.held) else x.log.moved == x.log.blocked)
    && Serving(x.log.moved, x.served, x.log.scene, x.log.market, x.log.results, x.distance, x.log.hit, x.now)
    && Sound(x.served)
    && Arrival(x.served, x.after, x.k, x.lastProxy, x.lastClient, x.chance, x.now)
  }
}
