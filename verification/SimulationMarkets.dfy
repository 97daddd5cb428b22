/** The market that a request for new proxies makes of the tables. */
module SimulationMarkets {
  import opened Addresses
  import opened Lists
  import opened SimulationTables
  import opened DeferredAcceptance

  const CENSOR_UTILIZATION_RATIO := 0.4
  const CLIENT_UTILITY_THRESHOLD := -500.0
  const UTILIZATION_CAP := 24000.0

  // ----- Lists of client rows, in which a client may appear more than once -----

  /** The addresses of the clients that are not flagged. */
  ghost function Unflagged(cs: seq<Client>): set<Ip> {
    set i | 0 <= i < |cs| && !cs[i].flagged :: cs[i].ip
  }

  /** Copies of one client agree on what decides its flag. */
  ghost predicate Consistent(cs: seq<Client>) {
    forall i, j :: 0 <= i < |cs| && 0 <= j < |cs| && cs[i].ip == cs[j].ip ==>
      cs[i].flagged == cs[j].flagged && cs[i].location == cs[j].location
  }

  /** No later copy of the client is not flagged. */
  ghost predicate IsLastCopy(cs: seq<Client>, i: int) {
    0 <= i < |cs| && !cs[i].flagged && forall j :: i < j < |cs| && !cs[j].flagged ==> cs[j].ip != cs[i].ip
  }

  /** Where a client appears first. */
  ghost function FirstAt(cs: seq<Client>, ip: Ip): (i: nat)
    ensures i <= |cs| && (i < |cs| ==> cs[i].ip == ip)
    ensures forall j :: 0 <= j < i ==> cs[j].ip != ip
  {
    if cs == [] || cs[0].ip == ip then 0 else 1 + FirstAt(cs[1..], ip)
  }

  ghost predicate SamePeople(before: seq<Client>, after: seq<Client>) {
    |after| == |before| && forall i :: 0 <= i < |before| ==> after[i].ip == before[i].ip
  }

  lemma {:induction false} SameFirst(before: seq<Client>, after: seq<Client>, ip: Ip)
    requires SamePeople(before, after)
    ensures FirstAt(before, ip) == FirstAt(after, ip)
  {
    var i, j := FirstAt(before, ip), FirstAt(after, ip);
    assert i < |before| ==> after[i].ip == ip;
    assert j < |after| ==> before[j].ip == ip;
  }

  /** The list holds the clients in the order in which they appear first. */
  ghost predicate InListOrder(cs: seq<Client>, keys: seq<Ip>) {
    forall i, j :: 0 <= i < j < |keys| ==> FirstAt(cs, keys[i]) < FirstAt(cs, keys[j])
  }

  /** A client not seen among the first `i` appears at `i` for the first time. */
  lemma {:induction false} NextInListOrder(cs: seq<Client>, i: nat, keys: seq<Ip>)
    requires Consistent(cs) && i < |cs| && !cs[i].flagged && cs[i].ip !in Unflagged(cs[..i])
    requires InListOrder(cs, keys) && Elems(keys) == Unflagged(cs[..i])
    ensures InListOrder(cs, keys + [cs[i].ip])
  {
    forall j | 0 <= j < i && !cs[j].flagged ensures cs[j].ip in Unflagged(cs[..i]) {
      assert cs[..i][j] == cs[j];
    }
    assert FirstAt(cs, cs[i].ip) == i;
    forall a | 0 <= a < |keys| ensures FirstAt(cs, keys[a]) < i {
      assert keys[a] in Elems(keys);
      var j :| 0 <= j < |cs[..i]| && !cs[..i][j].flagged && cs[..i][j].ip == keys[a];
      assert cs[j].ip == keys[a];
    }
  }

  lemma {:induction false} UnflaggedNext(cs: seq<Client>, i: nat)
    requires i < |cs|
    ensures Unflagged(cs[..i + 1]) == if cs[i].flagged then Unflagged(cs[..i]) else Unflagged(cs[..i]) + {cs[i].ip}
  {
    var now, next := cs[..i], cs[..i + 1];
    forall ip | ip in Unflagged(next) ensures ip in Unflagged(now) || (!cs[i].flagged && ip == cs[i].ip) {
      var j :| 0 <= j < |next| && !next[j].flagged && next[j].ip == ip;
      if j < i {
        assert now[j] == next[j];
      }
    }
    forall ip | ip in Unflagged(now) ensures ip in Unflagged(next) {
      var j :| 0 <= j < |now| && !now[j].flagged && now[j].ip == ip;
      assert next[j] == now[j];
    }
    assert next[i] == cs[i];
  }

  lemma {:induction false} UnflaggedPart(cs: seq<Client>, i: nat)
    requires i <= |cs|
    ensures Unflagged(cs[..i]) <= Unflagged(cs)
  {
    forall ip | ip in Unflagged(cs[..i]) ensures ip in Unflagged(cs) {
      var j :| 0 <= j < i && !cs[..i][j].flagged && cs[..i][j].ip == ip;
      assert cs[j] == cs[..i][j];
    }
  }

  lemma {:induction false} NobodyUnflagged()
    ensures Unflagged([]) == {}
  {
  }

  lemma {:induction false} LastCopyNext(cs: seq<Client>, i: nat)
    requires i < |cs|
    ensures forall j :: 0 <= j < i && IsLastCopy(cs[..i + 1], j) ==>
      IsLastCopy(cs[..i], j) && (cs[i].flagged || cs[j].ip != cs[i].ip)
    ensures IsLastCopy(cs[..i + 1], i) <==> !cs[i].flagged
  {
    forall j | 0 <= j < i && IsLastCopy(cs[..i + 1], j)
      ensures IsLastCopy(cs[..i], j) && (cs[i].flagged || cs[j].ip != cs[i].ip)
    {
      assert cs[..i + 1][i] == cs[i];
      forall l | j < l < i && !cs[l].flagged ensures cs[l].ip != cs[j].ip {
        assert cs[..i + 1][l] == cs[l];
      }
    }
  }

  /** Every client that is not flagged has a last copy. */
  lemma {:induction false} LastCopyFrom(cs: seq<Client>, i: nat) returns (j: nat)
    requires i < |cs| && !cs[i].flagged
    ensures j < |cs| && IsLastCopy(cs, j) && cs[j].ip == cs[i].ip
    decreases |cs| - i
  {
    if l :| i < l < |cs| && !cs[l].flagged && cs[l].ip == cs[i].ip {
      j := LastCopyFrom(cs, l);
    } else {
      j := i;
    }
  }

  // ----- Utilities -----

  /** How long a client used proxies that are blocked now. */
  function BlockedUsage(assignments: seq<Assignment>, proxies: seq<Proxy>, client: Ip): int
    requires forall a :: a in assignments ==> a.proxy.Row? && a.proxy.id < |proxies|
  {
    if assignments == [] then 0
    else
      var n := |assignments| - 1;
      assert forall a :: a in assignments[..n] ==> a in assignments;
      var a := assignments[n];
      BlockedUsage(assignments[..n], proxies, client) +
      (if a.client == client && proxies[a.proxy.id].isBlocked then proxies[a.proxy.id].blockedAt - a.time else 0)
  }

  function GeneralUtility(c: Client, blockedUsage: int, now: int): real {
    var utilization := (now - c.creationTime) as real * (if c.isCensorAgent then CENSOR_UTILIZATION_RATIO else 1.0);
    2.0 * (if utilization < UTILIZATION_CAP then utilization else UTILIZATION_CAP)
    - c.requestCount as real - blockedUsage as real - 2.0 * c.knownBlocked as real
  }

  /** Every client that is not flagged has its utility, which its last copy decides. */
  ghost predicate HasUtilities(general: map<Ip, real>, proxies: seq<Proxy>, assignments: seq<Assignment>,
      cs: seq<Client>, now: int) {
    && (forall a :: a in assignments ==> a.proxy.Row? && a.proxy.id < |proxies|)
    && (forall i :: IsLastCopy(cs, i) ==>
      cs[i].ip in general && general[cs[i].ip] ==
      GeneralUtility(cs[i], BlockedUsage(assignments, proxies, cs[i].ip), now))
  }

  lemma {:induction false} NoUtilitiesYet(proxies: seq<Proxy>, assignments: seq<Assignment>, now: int)
    requires forall a :: a in assignments ==> a.proxy.Row? && a.proxy.id < |proxies|
    ensures HasUtilities(map[], proxies, assignments, [], now) && Unflagged([]) == {}
  {
  }

  lemma {:induction false} UtilitiesNext(general: map<Ip, real>, proxies: seq<Proxy>, assignments: seq<Assignment>,
      cs: seq<Client>, i: nat, now: int)
    requires i < |cs| && HasUtilities(general, proxies, assignments, cs[..i], now)
    ensures HasUtilities(if cs[i].flagged then general else general[cs[i].ip := GeneralUtility(cs[i],
      BlockedUsage(assignments, proxies, cs[i].ip), now)], proxies, assignments, cs[..i + 1], now)
  {
    hide GeneralUtility, BlockedUsage;
    LastCopyNext(cs, i);
  }

  /** What the value of clients to proxies is made of: their general utility and the distance. */
  datatype Judge = Judge(general: map<Ip, real>, places: map<Ip, Location>, distance: (Location, Location) -> real)

  /** The utility of a client for a proxy. */
  ghost function Worth(w: Judge, proxy: Proxy, ip: Ip): real {
    if ip in w.general && ip in w.places then w.general[ip] - 10.0 * w.distance(proxy.location, w.places[ip]) else 0.0
  }

  /** The utility of proxy `k` for a client at some place. */
  function ProxyUtility(proxies: seq<Proxy>, assignments: seq<Assignment>, distance: (Location, Location) -> real,
      k: nat, place: Location): real
    requires k < |proxies|
  {
    (|AssignedTo(assignments, k)| + MAX_PROXY_CAPACITY - proxies[k].capacity) as real -
    distance(proxies[k].location, place)
  }

  ghost predicate PlacesOf(cs: seq<Client>, places: map<Ip, Location>) {
    forall i :: 0 <= i < |cs| ==> cs[i].ip in places && cs[i].location == places[cs[i].ip]
  }

  ghost function Places(clients: map<Ip, Client>): map<Ip, Location> {
    map c | c in clients :: clients[c].location
  }

  // ----- The market of some tables and some proposing clients -----

  datatype Scene = Scene(proxies: seq<Proxy>, assignments: seq<Assignment>, people: seq<Client>, w: Judge)

  /** The scene is that of the tables: nothing in it is free to choose. */
  ghost predicate IsScene(sc: Scene, proxies: seq<Proxy>, clients: map<Ip, Client>, assignments: seq<Assignment>,
      distance: (Location, Location) -> real, people: seq<Client>, now: int) {
    && sc.proxies == proxies && sc.assignments == assignments && sc.people == people
    && sc.w.distance == distance && sc.w.places == Places(clients)
    && sc.w.general.Keys == Unflagged(people) && HasUtilities(sc.w.general, proxies, assignments, people, now)
  }

  /** The clients that were not flagged, and that no available proxy below `n` flags. */
  ghost function Standing(sc: Scene, n: nat): set<Ip> {
    set ip | ip in Unflagged(sc.people) &&
      forall j: nat :: j < n && j < |sc.proxies| && Free(sc.proxies[j]) ==>
        Worth(sc.w, sc.proxies[j], ip) >= CLIENT_UTILITY_THRESHOLD
  }

  /** The list of proxy `k` has clients of more utility before those of less, and among equals
      those first that appear later. */
  ghost predicate ByWorth(sc: Scene, k: nat, ranking: seq<Ip>)
    requires k < |sc.proxies|
  {
    forall x, y :: Prefers(ranking, x, y) ==> ComesFirst(sc, k, x, y)
  }

  ghost predicate ComesFirst(sc: Scene, k: nat, x: Ip, y: Ip)
    requires k < |sc.proxies|
  {
    var u, v := Worth(sc.w, sc.proxies[k], x), Worth(sc.w, sc.proxies[k], y);
    u > v || (u == v && FirstAt(sc.people, x) > FirstAt(sc.people, y))
  }

  /** What the market has of an available proxy: its room, and a ranking of all clients that
      none of the available proxies before it flags. */
  ghost predicate Offered(sc: Scene, k: nat, prefs: map<Ip, seq<Ip>>, capacities: map<Ip, int>)
    requires k < |sc.proxies|
  {
    var ip := sc.proxies[k].ip;
    && ip in prefs && ip in capacities && capacities[ip] == sc.proxies[k].capacity
    && NoDup(prefs[ip]) && Elems(prefs[ip]) == Standing(sc, k) && ByWorth(sc, k, prefs[ip])
  }

  /** The proxies' side of the market, as far as the proxies below `n` go. */
  ghost predicate ProxySide(sc: Scene, n: nat, prefs: map<Ip, seq<Ip>>, capacities: map<Ip, int>) {
    && n <= |sc.proxies| && prefs.Keys == capacities.Keys
    && (forall k: nat :: k < n && Free(sc.proxies[k]) ==> Offered(sc, k, prefs, capacities))
    && (forall ip :: ip in prefs ==> exists k: nat :: k < n && Free(sc.proxies[k]) && sc.proxies[k].ip == ip)
  }

  /** A list of exactly the available proxies. */
  ghost predicate RanksAll(proxies: seq<Proxy>, ranking: seq<Ip>) {
    NoDup(ranking) &&
    forall ip :: ip in ranking <==> exists k: nat :: k < |proxies| && Free(proxies[k]) && proxies[k].ip == ip
  }

  /** A client's list has proxies of more utility before those of less, and among equals
      those first that were created later. */
  ghost predicate ByProxyUtility(proxies: seq<Proxy>, assignments: seq<Assignment>,
      distance: (Location, Location) -> real, place: Location, ranking: seq<Ip>) {
    forall k: nat, l: nat :: k < |proxies| && l < |proxies| && Prefers(ranking, proxies[k].ip, proxies[l].ip) ==>
      RowComesFirst(proxies, assignments, distance, place, k, l)
  }

  ghost predicate RowComesFirst(proxies: seq<Proxy>, assignments: seq<Assignment>,
      distance: (Location, Location) -> real, place: Location, k: nat, l: nat)
    requires k < |proxies| && l < |proxies|
  {
    var u := ProxyUtility(proxies, assignments, distance, k, place);
    var v := ProxyUtility(proxies, assignments, distance, l, place);
    u > v || (u == v && k > l)
  }

  ghost predicate ClientSide(sc: Scene, prefs: map<Ip, seq<Ip>>, who: set<Ip>) {
    && prefs.Keys == who
    && forall c :: c in prefs ==>
         && c in sc.w.places && RanksAll(sc.proxies, prefs[c])
         && ByProxyUtility(sc.proxies, sc.assignments, sc.w.distance, sc.w.places[c], prefs[c])
  }

  /** The market of a scene. */
  ghost predicate IsMarket(sc: Scene, m: Market) {
    && ProxySide(sc, |sc.proxies|, m.proxyPrefs, m.capacities)
    && ClientSide(sc, m.clientPrefs, Standing(sc, |sc.proxies|))
  }

  // ----- The market is pinned down -----

  /** Two lists of the same elements, both in an order that is never both ways, are one. */
  lemma {:induction false} SameOrder(a: seq<Ip>, b: seq<Ip>)
    requires NoDup(a) && NoDup(b) && forall x :: x in a <==> x in b
    requires forall x, y :: Prefers(a, x, y) ==> !Prefers(b, y, x)
    ensures a == b
  {
    forall i, j | 0 <= i < j < |a| ensures Prefers(a, a[i], a[j]) {
      IndexOfAt(a, i);
      IndexOfAt(a, j);
    }
    forall i, j | 0 <= i < j < |b| ensures Prefers(a, b[i], b[j]) {
      IndexOfAt(b, i);
      IndexOfAt(b, j);
      assert Prefers(b, b[i], b[j]);
      assert b[i] != b[j];
      assert !Prefers(a, b[j], b[i]);
      assert IndexOf(a, b[i]) != IndexOf(a, b[j]);
    }
    RankOrderUnique(a, a, b);
  }

  lemma {:induction false} SameProxyList(sc: Scene, k: nat, a: seq<Ip>, b: seq<Ip>)
    requires k < |sc.proxies| && NoDup(a) && NoDup(b) && Elems(a) == Elems(b)
    requires ByWorth(sc, k, a) && ByWorth(sc, k, b)
    ensures a == b
  {
    forall x ensures x in a <==> x in b {
      assert x in a <==> x in Elems(a);
      assert x in b <==> x in Elems(b);
    }
    forall x, y | Prefers(a, x, y) ensures !Prefers(b, y, x) {
      assert ComesFirst(sc, k, x, y);
    }
    SameOrder(a, b);
  }

  lemma {:induction false} SameClientList(sc: Scene, place: Location, a: seq<Ip>, b: seq<Ip>)
    requires RanksAll(sc.proxies, a) && RanksAll(sc.proxies, b)
    requires ByProxyUtility(sc.proxies, sc.assignments, sc.w.distance, place, a)
    requires ByProxyUtility(sc.proxies, sc.assignments, sc.w.distance, place, b)
    ensures a == b
  {
    hide ProxyUtility;
    forall x, y | Prefers(a, x, y) ensures !Prefers(b, y, x) {
      var k: nat :| k < |sc.proxies| && Free(sc.proxies[k]) && sc.proxies[k].ip == x;
      var l: nat :| l < |sc.proxies| && Free(sc.proxies[l]) && sc.proxies[l].ip == y;
      assert RowComesFirst(sc.proxies, sc.assignments, sc.w.distance, place, k, l);
    }
    SameOrder(a, b);
  }

  /** A scene has exactly one market. */
  lemma {:induction false} MarketUnique(sc: Scene, a: Market, b: Market)
    requires IsMarket(sc, a) && IsMarket(sc, b)
    ensures a == b
  {
    hide NoDup, Elems, ByWorth, ByProxyUtility, RanksAll, Standing;
    forall ip | ip in a.proxyPrefs || ip in b.proxyPrefs
      ensures ip in a.proxyPrefs && ip in b.proxyPrefs
      ensures a.proxyPrefs[ip] == b.proxyPrefs[ip] && a.capacities[ip] == b.capacities[ip]
    {
      var k: nat :| k < |sc.proxies| && Free(sc.proxies[k]) && sc.proxies[k].ip == ip;
      assert Offered(sc, k, a.proxyPrefs, a.capacities) && Offered(sc, k, b.proxyPrefs, b.capacities);
      SameProxyList(sc, k, a.proxyPrefs[ip], b.proxyPrefs[ip]);
    }
    assert a.proxyPrefs == b.proxyPrefs && a.capacities == b.capacities;
    forall c | c in a.clientPrefs ensures a.clientPrefs[c] == b.clientPrefs[c] {
      SameClientList(sc, sc.w.places[c], a.clientPrefs[c], b.clientPrefs[c]);
    }
  }

  /** Tables and proposing clients have exactly one scene. */
  lemma {:induction false} SceneUnique(a: Scene, b: Scene, proxies: seq<Proxy>, clients: map<Ip, Client>,
      assignments: seq<Assignment>, distance: (Location, Location) -> real, people: seq<Client>, now: int)
    requires IsScene(a, proxies, clients, assignments, distance, people, now)
    requires IsScene(b, proxies, clients, assignments, distance, people, now)
    ensures a == b
  {
    hide GeneralUtility, BlockedUsage;
    forall ip | ip in Unflagged(people) ensures a.w.general[ip] == b.w.general[ip] {
      var i :| 0 <= i < |people| && !people[i].flagged && people[i].ip == ip;
      var j := LastCopyFrom(people, i);
    }
    assert a.w.general == b.w.general;
  }

  // ----- Every market is well formed -----

  lemma {:induction false} StandingShrinks(sc: Scene, k: nat, n: nat)
    requires k <= n
    ensures Standing(sc, n) <= Standing(sc, k)
  {
  }

  lemma {:induction false} InElems(people: set<Ip>, l: seq<Ip>)
    requires people <= Elems(l)
    ensures forall c :: c in people ==> c in l
  {
  }

  /** Every client that is not flagged is ranked by every available proxy, so the market is
      one on which no lookup of the matcher fails. */
  lemma {:induction false} MarketIsWellFormed(sc: Scene, m: Market)
    requires IsMarket(sc, m)
    ensures WellFormed(m)
  {
    hide NoDup, Elems, ByWorth, ByProxyUtility, Standing;
    forall p | p in m.proxyPrefs ensures NoDup(m.proxyPrefs[p]) {
      var k: nat :| k < |sc.proxies| && Free(sc.proxies[k]) && sc.proxies[k].ip == p;
      assert Offered(sc, k, m.proxyPrefs, m.capacities);
    }
    forall c, p | c in m.clientPrefs && p in m.clientPrefs[c] ensures Acceptable(m, c, p) {
      AvailableIsAcceptable(sc, m, c, p);
    }
  }

  lemma {:induction false} AvailableIsAcceptable(sc: Scene, m: Market, c: Ip, p: Ip)
    requires IsMarket(sc, m) && c in m.clientPrefs && p in m.clientPrefs[c]
    ensures Acceptable(m, c, p)
  {
    hide NoDup, Elems, ByWorth, ByProxyUtility, Standing;
    var k: nat :| k < |sc.proxies| && Free(sc.proxies[k]) && sc.proxies[k].ip == p;
    assert Offered(sc, k, m.proxyPrefs, m.capacities);
    StandingShrinks(sc, k, |sc.proxies|);
    InElems(Standing(sc, k), m.proxyPrefs[p]);
  }
}
