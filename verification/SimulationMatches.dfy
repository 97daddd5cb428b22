/** What the matching of a market does to the tables. */
module SimulationMatches {
  import opened Addresses
  import opened Lists
  import opened SimulationTables
  import opened SimulationHolders
  import opened DeferredAcceptance
  import opened SimulationMarkets
  import opened SimulationJudging

  ghost predicate IsPlaced(results: Matching, c: Ip) {
    exists p :: Placed(results, c, p)
  }

  ghost predicate OnePlaceEach(results: Matching) {
    forall c, p, q :: Placed(results, c, p) && Placed(results, c, q) ==> p == q
  }

  /** Each result is about a proxy that exists and has the room, and about clients that exist. */
  ghost predicate Applicable(proxies: seq<Proxy>, clients: map<Ip, Client>, results: Matching) {
    && OnePlaceEach(results)
    && forall ip :: ip in results ==>
         && NoDup(results[ip]) && (forall c :: c in results[ip] ==> c in clients)
         && exists k :: 0 <= k < |proxies| && proxies[k].ip == ip && |results[ip]| <= proxies[k].capacity
  }

  /** Every client that is placed has no live assignment. */
  ghost predicate AllIdle(proxies: seq<Proxy>, assignments: seq<Assignment>, results: Matching) {
    forall c, p :: Placed(results, c, p) ==> Idle(proxies, assignments, c)
  }

  /** Each proxy's capacity goes down by the number of its clients in the results. */
  ghost predicate Applied(before: seq<Proxy>, after: seq<Proxy>, results: Matching) {
    && |after| == |before|
    && forall k :: 0 <= k < |before| ==>
         after[k] == Taken(before[k], if before[k].ip in results then |results[before[k].ip]| else 0)
  }

  /** The assignment places a client of the results with its proxy. */
  ghost predicate Assigned(proxies: seq<Proxy>, results: Matching, now: int, a: Assignment) {
    a.proxy.Row? && a.proxy.id < |proxies| && a.time == now && Placed(results, a.client, proxies[a.proxy.id].ip)
  }

  /** The placements of the results come after the assignments that were there, each once. */
  ghost predicate AssignedAll(before: seq<Assignment>, after: seq<Assignment>, proxies: seq<Proxy>,
      results: Matching, now: int) {
    && before <= after && NoDup(after[|before|..])
    && forall a :: a in after[|before|..] <==> Assigned(proxies, results, now, a)
  }

  /** Assignments of some clients to one proxy come after those that were there, each once. */
  ghost predicate Adds(before: seq<Assignment>, after: seq<Assignment>, k: nat, who: set<Ip>, now: int) {
    && before <= after && NoDup(after[|before|..])
    && forall a :: a in after[|before|..] <==> a.proxy == Row(k) && a.client in who && a.time == now
  }

  lemma {:induction false} AddsNothing(assignments: seq<Assignment>, k: nat, now: int)
    ensures Adds(assignments, assignments, k, {}, now)
  {
  }

  lemma {:induction false} AddsOne(before: seq<Assignment>, after: seq<Assignment>, k: nat, who: set<Ip>, now: int,
      c: Ip)
    requires Adds(before, after, k, who, now) && c !in who
    ensures Adds(before, after + [Assignment(Row(k), c, now)], k, who + {c}, now)
  {
    assert (after + [Assignment(Row(k), c, now)])[|before|..] == after[|before|..] + [Assignment(Row(k), c, now)];
  }

  lemma {:induction false} AddsIdle(proxies: seq<Proxy>, before: seq<Assignment>, after: seq<Assignment>, k: nat,
      who: set<Ip>, now: int, c: Ip)
    requires Adds(before, after, k, who, now) && c !in who && Idle(proxies, before, c)
    ensures Idle(proxies, after, c)
  {
    hide NoDup;
    assert after == before + after[|before|..];
  }

  lemma {:induction false} AcceptedRows(proxies: seq<Proxy>, clients: map<Ip, Client>, people: map<Ip, Client>,
      before: seq<Assignment>, after: seq<Assignment>, k: nat, who: set<Ip>, now: int)
    requires Linked(proxies, clients, before) && Conserved(proxies, before) && Single(proxies, after)
    requires AllActive(proxies) && k < |proxies| && |who| <= proxies[k].capacity && who <= clients.Keys
    requires people == map c | c in clients :: if c in who then Requested(clients[c]) else clients[c]
    requires Adds(before, after, k, who, now)
    requires forall j :: Count(after, j) == Count(before, j) + (if j == k then |who| else 0)
    ensures var rows := proxies[k := Taken(proxies[k], |who|)];
      Linked(rows, people, after) && Conserved(rows, after) && Single(rows, after) && AllActive(rows)
  {
    hide Count, NoDup;
    var rows := proxies[k := Taken(proxies[k], |who|)];
    SingleFewer(proxies, rows, after);
    assert after == before + after[|before|..];
  }

  /** Each client that is placed has made one request more. */
  ghost function CountedUp(clients: map<Ip, Client>, results: Matching): map<Ip, Client> {
    map c | c in clients :: if IsPlaced(results, c) then Requested(clients[c]) else clients[c]
  }

  lemma {:induction false} StillDistinct(before: seq<Proxy>, after: seq<Proxy>, results: Matching)
    requires Distinct(before) && Applied(before, after, results)
    ensures Distinct(after)
  {
  }

  lemma {:induction false} RoomFor(before: seq<Proxy>, after: seq<Proxy>, clients: map<Ip, Client>,
      results: Matching, done: Matching, ip: Ip)
    requires Applicable(before, clients, results) && Applied(before, after, done) && ip in results && ip !in done
    ensures NoDup(results[ip]) && forall c :: c in results[ip] ==> c in clients
    ensures exists k :: 0 <= k < |after| && after[k].ip == ip
    ensures Distinct(before) ==>
      forall k :: 0 <= k < |after| && after[k].ip == ip ==> |results[ip]| <= after[k].capacity
  {
    hide NoDup, OnePlaceEach;
    var k :| 0 <= k < |before| && before[k].ip == ip && |results[ip]| <= before[k].capacity;
    assert after[k].ip == ip;
  }

  lemma {:induction false} AppliedNext(first: seq<Proxy>, before: seq<Proxy>, after: seq<Proxy>, results: Matching,
      pending: set<Ip>, ip: Ip, k: nat)
    requires pending <= results.Keys && ip in pending && Distinct(first) && Applied(first, before, results - pending)
    requires k < |before| && before[k].ip == ip && after == before[k := Taken(before[k], |results[ip]|)]
    ensures Applied(first, after, results - (pending - {ip}))
  {
  }

  lemma {:induction false} AssignedNext(first: seq<Assignment>, were: seq<Assignment>, now: seq<Assignment>,
      before: seq<Proxy>, after: seq<Proxy>, results: Matching, pending: set<Ip>, ip: Ip, k: nat, time: int)
    requires pending <= results.Keys && ip in pending && Distinct(before)
    requires k < |before| && before[k].ip == ip && after == before[k := Taken(before[k], |results[ip]|)]
    requires AssignedAll(first, were, before, results - pending, time)
    requires Adds(were, now, k, Elems(results[ip]), time)
    ensures AssignedAll(first, now, after, results - (pending - {ip}), time)
  {
    var placed, more := were[|first|..], now[|were|..];
    assert now[|first|..] == placed + more;
    forall a ensures a in placed + more <==> Assigned(after, results - (pending - {ip}), time, a) {
      assert a in placed <==> Assigned(before, results - pending, time, a);
    }
    forall a | a in placed ensures a !in more {
      assert Assigned(before, results - pending, time, a);
    }
    NoDupConcat(placed, more);
  }

  lemma {:induction false} NoDupConcat(a: seq<Assignment>, b: seq<Assignment>)
    requires NoDup(a) && NoDup(b) && forall x :: x in a ==> x !in b
    ensures NoDup(a + b)
  {
    forall i, j | 0 <= i < j < |a + b| ensures (a + b)[i] != (a + b)[j] {
      if i < |a| <= j {
        assert (a + b)[i] == a[i] && (a + b)[j] == b[j - |a|] && a[i] in a && b[j - |a|] in b;
      }
    }
  }

  lemma {:induction false} CountedUpNext(first: map<Ip, Client>, were: map<Ip, Client>, now: map<Ip, Client>,
      results: Matching, pending: set<Ip>, ip: Ip)
    requires OnePlaceEach(results) && pending <= results.Keys && ip in pending
    requires were == CountedUp(first, results - pending)
    requires now == map c | c in were :: if c in results[ip] then Requested(were[c]) else were[c]
    ensures now == CountedUp(first, results - (pending - {ip}))
  {
    forall c | c in first
      ensures IsPlaced(results - (pending - {ip}), c) <==> IsPlaced(results - pending, c) || c in results[ip]
      ensures c in results[ip] ==> !IsPlaced(results - pending, c)
    {
      if IsPlaced(results - (pending - {ip}), c) {
        var p :| Placed(results - (pending - {ip}), c, p);
        assert p != ip ==> Placed(results - pending, c, p);
      }
      if IsPlaced(results - pending, c) {
        var p :| Placed(results - pending, c, p);
        assert Placed(results, c, p) && Placed(results - (pending - {ip}), c, p);
        assert c in results[ip] ==> Placed(results, c, ip);
      }
      if c in results[ip] {
        assert Placed(results - (pending - {ip}), c, ip);
      }
    }
  }

  /** New assignments of one proxy leave the clients of the others without any. */
  lemma {:induction false} IdleNext(before: seq<Proxy>, after: seq<Proxy>, were: seq<Assignment>, now: seq<Assignment>,
      results: Matching, pending: set<Ip>, ip: Ip, k: nat, time: int)
    requires OnePlaceEach(results) && pending <= results.Keys && ip in pending && |after| == |before|
    requires forall j :: 0 <= j < |before| ==> after[j].isBlocked == before[j].isBlocked
    requires forall c, p :: p in pending && Placed(results, c, p) ==> Idle(before, were, c)
    requires Adds(were, now, k, Elems(results[ip]), time)
    ensures forall c, p :: p in pending - {ip} && Placed(results, c, p) ==> Idle(after, now, c)
  {
    hide NoDup;
    assert now == were + now[|were|..];
    forall c, p | p in pending - {ip} && Placed(results, c, p) ensures Idle(after, now, c) {
      assert c in results[ip] ==> Placed(results, c, ip);
      assert Idle(before, were, c);
      forall a | a in now && Live(after, a) ensures a.client != c {
        assert a in were ==> Live(before, a);
      }
    }
  }

  /** The quota guarantee of the matcher is what makes its results applicable. */
  lemma {:induction false} CanApply(sc: Scene, clients: map<Ip, Client>, m: Market, results: Matching)
    requires BestStable(m, results) && IsMarket(sc, m) && m.clientPrefs.Keys <= clients.Keys
    ensures Applicable(sc.proxies, clients, results)
  {
    hide WellFormed, Blocks, ClientOptimal, NoDup, ProxySide, ClientSide, Standing;
    assert Feasible(m, results);
    forall ip | ip in results
      ensures NoDup(results[ip]) && (forall c :: c in results[ip] ==> c in clients)
      ensures exists k :: 0 <= k < |sc.proxies| && sc.proxies[k].ip == ip && |results[ip]| <= sc.proxies[k].capacity
    {
      forall c | c in results[ip] ensures c in clients {
        assert Placed(results, c, ip);
      }
      var k := RowOf(sc, m, ip);
    }
  }

  lemma {:induction false} RowOf(sc: Scene, m: Market, ip: Ip) returns (k: nat)
    requires IsMarket(sc, m) && ip in m.capacities
    ensures k < |sc.proxies| && Free(sc.proxies[k]) && sc.proxies[k].ip == ip
    ensures m.capacities[ip] == sc.proxies[k].capacity
  {
    hide NoDup, Elems, ByWorth, ClientSide, Standing;
    assert ip in m.proxyPrefs;
    k :| k < |sc.proxies| && Free(sc.proxies[k]) && sc.proxies[k].ip == ip;
    assert Offered(sc, k, m.proxyPrefs, m.capacities);
  }

  /** If some available proxy has room for all clients of the market, each of them is placed. */
  lemma {:induction false} NobodyLeftOut(sc: Scene, m: Market, results: Matching, k: nat, c: Ip)
    requires IsMarket(sc, m) && BestStable(m, results) && c in m.clientPrefs
    requires k < |sc.proxies| && Free(sc.proxies[k]) && |m.clientPrefs| <= sc.proxies[k].capacity
    ensures IsPlaced(results, c)
  {
    hide ClientOptimal, ByWorth, ByProxyUtility, Worth, Sorted, Blocks, NoDup, Elems, Standing, Feasible, WellFormed;
    var ip := sc.proxies[k].ip;
    assert Offered(sc, k, m.proxyPrefs, m.capacities);
    MarketIsWellFormed(sc, m);
    AvailableIsListed(sc, m, c, k);
    if !IsPlaced(results, c) {
      BlocksIfRoom(m, results, c, ip);
    }
  }

  lemma {:induction false} AvailableIsListed(sc: Scene, m: Market, c: Ip, k: nat)
    requires IsMarket(sc, m) && c in m.clientPrefs && k < |sc.proxies| && Free(sc.proxies[k])
    ensures sc.proxies[k].ip in m.clientPrefs[c]
  {
    hide NoDup, ByProxyUtility, ProxySide, Standing;
    assert RanksAll(sc.proxies, m.clientPrefs[c]);
  }

  lemma {:induction false} BlocksIfRoom(m: Market, results: Matching, c: Ip, ip: Ip)
    requires WellFormed(m) && Feasible(m, results) && c in m.clientPrefs && ip in m.clientPrefs[c]
    requires ip in m.capacities && |m.clientPrefs| <= m.capacities[ip] && !IsPlaced(results, c)
    ensures Blocks(m, results, c, ip)
  {
    hide NoDup;
    assert Acceptable(m, c, ip);
    assert !Placed(results, c, ip);
    FullOfOthers(m, results, ip, c);
  }

  lemma {:induction false} FullOfOthers(m: Market, results: Matching, ip: Ip, c: Ip)
    requires Feasible(m, results) && ip in results && c in m.clientPrefs && c !in results[ip]
    ensures |results[ip]| < |m.clientPrefs|
  {
    NoDupCardinality(results[ip]);
    forall d | d in results[ip] ensures d in m.clientPrefs {
      assert Placed(results, d, ip);
    }
    SubsetBySize(Elems(results[ip]) + {c}, m.clientPrefs.Keys);
  }

  /** Who is matched is one of the proposing clients, and those have no live assignment. */
  lemma {:induction false} MatchedAreIdle(proxies: seq<Proxy>, assignments: seq<Assignment>, people: seq<Client>,
      m: Market, results: Matching)
    requires forall i :: 0 <= i < |people| ==> Idle(proxies, assignments, people[i].ip)
    requires m.clientPrefs.Keys <= Unflagged(people) && BestStable(m, results)
    ensures AllIdle(proxies, assignments, results)
  {
    hide Idle, ClientOptimal, Sorted, Blocks, NoDup;
    assert Feasible(m, results);
    forall c, p | Placed(results, c, p) ensures Idle(proxies, assignments, c) {
      assert c in Unflagged(people);
      var i :| 0 <= i < |people| && !people[i].flagged && people[i].ip == c;
    }
  }

  lemma {:induction false} SameAddresses(before: seq<Proxy>, after: seq<Proxy>, results: Matching, held: set<Ip>,
      blocked: set<Ip>)
    requires Applied(before, after, results) && Addressed(before, held, blocked)
    ensures |after| == |before| && Addressed(after, held, blocked)
  {
    hide Addressed;
    AddressedSame(before, after, held, blocked);
  }

  lemma {:induction false} CountedKeys(clients: map<Ip, Client>, who: set<Ip>, results: Matching)
    ensures CountedUp(FlagRows(clients, who), results).Keys == clients.Keys
    ensures |CountedUp(FlagRows(clients, who), results)| == |clients|
  {
    var after := CountedUp(FlagRows(clients, who), results);
    assert after.Keys == clients.Keys;
    assert |after.Keys| == |after| && |clients.Keys| == |clients|;
  }

  // ----- Applying results one after the other -----

  datatype Tables = Tables(proxies: seq<Proxy>, clients: map<Ip, Client>, assignments: seq<Assignment>)

  /** All results but the pending ones are applied. */
  ghost predicate InProgress(first: Tables, t: Tables, results: Matching, pending: set<Ip>, now: int) {
    && pending <= results.Keys && Distinct(first.proxies) && Applicable(first.proxies, first.clients, results)
    && Applied(first.proxies, t.proxies, results - pending)
    && AssignedAll(first.assignments, t.assignments, t.proxies, results - pending, now)
    && t.clients == CountedUp(first.clients, results - pending)
    && forall c, p :: p in pending && Placed(results, c, p) ==> Idle(t.proxies, t.assignments, c)
  }

  lemma {:induction false} NothingApplied(first: Tables, results: Matching, now: int)
    requires Distinct(first.proxies) && Applicable(first.proxies, first.clients, results)
    requires AllIdle(first.proxies, first.assignments, results)
    ensures InProgress(first, first, results, results.Keys, now)
  {
    hide Applicable, Distinct, Idle;
  }

  lemma {:induction false} AllApplied(first: Tables, t: Tables, results: Matching, now: int)
    requires InProgress(first, t, results, {}, now)
    ensures Applied(first.proxies, t.proxies, results) && t.clients == CountedUp(first.clients, results)
    ensures AssignedAll(first.assignments, t.assignments, t.proxies, results, now)
  {
    hide Applied, AssignedAll, CountedUp, Applicable, Distinct, Idle;
    assert results - {} == results;
  }

  /** The next result can be applied. */
  lemma {:induction false} NextResult(first: Tables, t: Tables, results: Matching, pending: set<Ip>, ip: Ip, now: int)
    requires InProgress(first, t, results, pending, now) && ip in pending
    ensures Distinct(t.proxies) && (exists k :: 0 <= k < |t.proxies| && t.proxies[k].ip == ip)
    ensures ip in results && NoDup(results[ip])
    ensures forall k :: 0 <= k < |t.proxies| && t.proxies[k].ip == ip ==> |results[ip]| <= t.proxies[k].capacity
    ensures forall c :: c in results[ip] ==> c in t.clients && Idle(t.proxies, t.assignments, c)
  {
    hide Applied, AssignedAll, Applicable, Distinct, Idle, NoDup;
    StillDistinct(first.proxies, t.proxies, results - pending);
    RoomFor(first.proxies, t.proxies, first.clients, results, results - pending, ip);
    forall c | c in results[ip] ensures c in t.clients && Idle(t.proxies, t.assignments, c) {
      assert Placed(results, c, ip);
    }
  }

  lemma {:induction false} ProgressNext(first: Tables, before: Tables, after: Tables, results: Matching,
      pending: set<Ip>, ip: Ip, k: nat, now: int)
    requires InProgress(first, before, results, pending, now) && ip in pending
    requires k < |before.proxies| && before.proxies[k].ip == ip
    requires after.proxies == before.proxies[k := Taken(before.proxies[k], |results[ip]|)]
    requires after.clients ==
      map c | c in before.clients :: if c in results[ip] then Requested(before.clients[c]) else before.clients[c]
    requires Adds(before.assignments, after.assignments, k, Elems(results[ip]), now)
    ensures InProgress(first, after, results, pending - {ip}, now)
  {
    hide Applied, AssignedAll, CountedUp, Distinct, Idle, NoDup, OnePlaceEach, Adds, Elems;
    StillDistinct(first.proxies, before.proxies, results - pending);
    AppliedNext(first.proxies, before.proxies, after.proxies, results, pending, ip, k);
    AssignedNext(first.assignments, before.assignments, after.assignments, before.proxies, after.proxies, results,
      pending, ip, k, now);
    CountedUpNext(first.clients, before.clients, after.clients, results, pending, ip);
    IdleNext(before.proxies, after.proxies, before.assignments, after.assignments, results, pending, ip, k, now);
  }
}
