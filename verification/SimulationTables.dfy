/** The tables of the controller's simulation, and what its steps keep of them. */
module SimulationTables {
  import opened Addresses

  const MAX_PROXY_CAPACITY := 40

  datatype Location = Location(latitude: real, longitude: real)

  datatype Proxy = Proxy(ip: Ip, capacity: int, isBlocked: bool, blockedAt: int, isActive: bool, location: Location)

  datatype Client = Client(ip: Ip, isCensorAgent: bool, flagged: bool, requestCount: int, knownBlocked: int,
    creationTime: int, location: Location)

  /** An assignment refers to a proxy by its row number; the reference may be null. */
  datatype ProxyRef = NoProxy | Row(id: nat)

  datatype Assignment = Assignment(proxy: ProxyRef, client: Ip, time: int)

  // ----- Capacities -----

  /** The number of assignments to a proxy. */
  function Count(assignments: seq<Assignment>, id: nat): nat {
    if assignments == [] then 0
    else
      var n := |assignments| - 1;
      Count(assignments[..n], id) + (if assignments[n].proxy == Row(id) then 1 else 0)
  }

  /** `Assignment.objects.filter(proxy=...).delete()` */
  function Deleted(assignments: seq<Assignment>, id: nat): (r: seq<Assignment>)
    ensures forall a :: a in r <==> a in assignments && a.proxy != Row(id)
  {
    if assignments == [] then []
    else
      var n := |assignments| - 1;
      assert assignments == assignments[..n] + [assignments[n]];
      Deleted(assignments[..n], id) + (if assignments[n].proxy == Row(id) then [] else [assignments[n]])
  }

  lemma {:induction false} CountAdd(assignments: seq<Assignment>, a: Assignment, id: nat)
    ensures Count(assignments + [a], id) == Count(assignments, id) + (if a.proxy == Row(id) then 1 else 0)
  {
    assert (assignments + [a])[..|assignments|] == assignments;
  }

  lemma {:induction false} CountDeleted(assignments: seq<Assignment>, gone: nat, id: nat)
    ensures Count(Deleted(assignments, gone), id) == if id == gone then 0 else Count(assignments, id)
  {
    if assignments != [] {
      var n := |assignments| - 1;
      var before := Deleted(assignments[..n], gone);
      CountDeleted(assignments[..n], gone, id);
      if assignments[n].proxy == Row(gone) {
        assert Deleted(assignments, gone) == before;
      } else {
        assert Deleted(assignments, gone) == before + [assignments[n]];
        CountAdd(before, assignments[n], id);
      }
    }
  }

  lemma {:induction false} CountNone(assignments: seq<Assignment>, id: nat)
    requires forall a :: a in assignments ==> a.proxy != Row(id)
    ensures Count(assignments, id) == 0
  {
    if assignments != [] {
      CountNone(assignments[..|assignments| - 1], id);
    }
  }

  /** Each proxy has capacity for the clients it is not assigned to yet. */
  ghost predicate Conserved(proxies: seq<Proxy>, assignments: seq<Assignment>) {
    forall k :: 0 <= k < |proxies| ==>
      0 <= proxies[k].capacity <= MAX_PROXY_CAPACITY &&
      proxies[k].capacity + Count(assignments, k) == MAX_PROXY_CAPACITY
  }

  /** Every assignment is about rows that exist. */
  ghost predicate Linked(proxies: seq<Proxy>, clients: map<Ip, Client>, assignments: seq<Assignment>) {
    && (forall a :: a in assignments ==> a.proxy.Row? && a.proxy.id < |proxies| && a.client in clients)
    && (forall ip :: ip in clients ==> clients[ip].ip == ip)
  }

  // ----- Proxy addresses -----

  /** Which proxy an address belongs to, and how often that proxy had migrated. */
  function Owner(ip: Ip): nat {
    ip.n0 * 256 + ip.n1
  }

  function Migrations(ip: Ip): nat {
    ip.n2 * 256 + ip.n3
  }

  predicate Regular(ip: Ip) {
    ip.n1 < 256 && ip.n3 < 256
  }

  function NextProxyIp(last: Ip): Ip {
    if last.n1 == 255 then last.(n1 := 0, n0 := last.n0 + 1) else last.(n1 := last.n1 + 1)
  }

  function MigrationIp(ip: Ip): Ip {
    if ip.n3 == 255 then ip.(n3 := 0, n2 := ip.n2 + 1) else ip.(n3 := ip.n3 + 1)
  }

  lemma {:induction false} NextProxyIsNew(last: Ip)
    requires Regular(last)
    ensures Regular(NextProxyIp(last)) && Migrations(NextProxyIp(last)) == Migrations(last)
    ensures Owner(NextProxyIp(last)) == Owner(last) + 1
    ensures var ip := NextProxyIp(last);
      ip.n0 * 256 + ip.n1 == last.n0 * 256 + last.n1 + 1 && ip.n2 == last.n2 && ip.n3 == last.n3
  {
  }

  lemma {:induction false} MigrationIsNew(ip: Ip)
    requires Regular(ip)
    ensures Regular(MigrationIp(ip)) && Owner(MigrationIp(ip)) == Owner(ip)
    ensures Migrations(MigrationIp(ip)) == Migrations(ip) + 1
    ensures var next := MigrationIp(ip);
      next.n0 == ip.n0 && next.n1 == ip.n1 && next.n2 * 256 + next.n3 == ip.n2 * 256 + ip.n3 + 1
  {
  }

  /** Proxy `k` holds an address of its own, of the latest turn. `held` are all addresses ever
      held, `blocked` those at which a proxy was blocked. */
  ghost predicate Addressed(proxies: seq<Proxy>, held: set<Ip>, blocked: set<Ip>) {
    && (forall k :: 0 <= k < |proxies| ==> Regular(proxies[k].ip) && Owner(proxies[k].ip) == k && proxies[k].ip in held)
    && (forall ip :: ip in held ==> Owner(ip) < |proxies| && Migrations(ip) <= Migrations(proxies[Owner(ip)].ip))
    && (forall k :: 0 <= k < |proxies| ==> (proxies[k].isBlocked <==> proxies[k].ip in blocked))
    && blocked <= held
  }

  /** No two proxies have the same address. */
  lemma {:induction false} AddressesDistinct(proxies: seq<Proxy>, held: set<Ip>, blocked: set<Ip>, j: nat, k: nat)
    requires Addressed(proxies, held, blocked) && j < |proxies| && k < |proxies|
    ensures proxies[j].ip == proxies[k].ip <==> j == k
  {
  }

  /** A proxy that migrates gets an address that nobody held before. */
  lemma {:induction false} MigrationKeeps(proxies: seq<Proxy>, held: set<Ip>, blocked: set<Ip>, k: nat, row: Proxy)
    requires Addressed(proxies, held, blocked) && k < |proxies|
    requires row.ip == MigrationIp(proxies[k].ip) && !row.isBlocked
    ensures row.ip !in held && Addressed(proxies[k := row], held + {row.ip}, blocked)
  {
    MigrationIsNew(proxies[k].ip);
  }

  lemma {:induction false} CreationKeeps(proxies: seq<Proxy>, held: set<Ip>, blocked: set<Ip>, last: Ip, row: Proxy)
    requires Addressed(proxies, held, blocked) && Regular(last) && Owner(last) == |proxies| - 1
    requires row.ip == NextProxyIp(last) && !row.isBlocked
    ensures row.ip !in held && Addressed(proxies + [row], held + {row.ip}, blocked)
  {
    NextProxyIsNew(last);
  }

  lemma {:induction false} BlockKeeps(proxies: seq<Proxy>, held: set<Ip>, blocked: set<Ip>, k: nat, row: Proxy)
    requires Addressed(proxies, held, blocked) && k < |proxies|
    requires row.ip == proxies[k].ip && row.isBlocked
    ensures Addressed(proxies[k := row], held, blocked + {row.ip})
  {
    forall j | 0 <= j < |proxies| && j != k ensures proxies[j].ip != row.ip {
      AddressesDistinct(proxies, held, blocked, j, k);
    }
  }

  // ----- Client addresses -----

  function ClientIp(id: nat): Ip {
    Ip(255, id / 65536, id % 65536 / 256, id % 256)
  }

  function ClientNumber(ip: Ip): nat {
    ip.n1 * 65536 + ip.n2 * 256 + ip.n3
  }

  /** The number of a client can be read off its address: no two clients share one. */
  lemma {:induction false} ClientIpRoundTrip(id: nat)
    ensures ClientNumber(ClientIp(id)) == id
    ensures var ip := ClientIp(id);
      ip.n0 == 255 && ip.n2 < 256 && ip.n3 < 256 && ip.n1 * 65536 + ip.n2 * 256 + ip.n3 == id
  {
    assert id % 65536 % 256 == id % 256;
  }

  lemma {:induction false} ClientIpsDistinct(i: nat, j: nat)
    ensures ClientIp(i) == ClientIp(j) <==> i == j
  {
    ClientIpRoundTrip(i);
    ClientIpRoundTrip(j);
  }

  // ----- Rows and what becomes of them -----

  predicate Free(p: Proxy) {
    !p.isBlocked && p.isActive && p.capacity > 0
  }

  ghost predicate IsFirstFree(proxies: seq<Proxy>, k: nat) {
    k <= |proxies| && (k < |proxies| ==> Free(proxies[k])) && forall j :: 0 <= j < k ==> !Free(proxies[j])
  }

  /** The row of a proxy that migrates: if it was blocked, it starts afresh. */
  function Migrated(p: Proxy): Proxy {
    p.(ip := MigrationIp(p.ip), isBlocked := false, capacity := if p.isBlocked then MAX_PROXY_CAPACITY else p.capacity)
  }

  function Taken(p: Proxy, n: nat): Proxy {
    p.(capacity := p.capacity - n)
  }

  function Requested(c: Client): Client {
    c.(requestCount := c.requestCount + 1)
  }

  function BlockedAt(p: Proxy, now: int): Proxy {
    p.(isBlocked := true, blockedAt := now)
  }

  /** The clients assigned to a proxy. */
  function AssignedTo(assignments: seq<Assignment>, id: nat): set<Ip> {
    set a | a in assignments && a.proxy == Row(id) :: a.client
  }

  /** What rejuvenation does to a row: an active proxy moves to an address that is not among
      `held`, and one that was blocked has all its room again. */
  ghost predicate Rejuvenated(was: Proxy, row: Proxy, held: set<Ip>) {
    if was.isActive
    then row == Migrated(was) && row.ip !in held
    else row == was
  }

  lemma {:induction false} LinkedSame(proxies: seq<Proxy>, clients: map<Ip, Client>, assignments: seq<Assignment>,
      ip: Ip, row: Client)
    requires Linked(proxies, clients, assignments) && ip in clients && (row.ip == ip || row.ip == clients[ip].ip)
    ensures Linked(proxies, clients[ip := row], assignments)
  {
  }

  /** One more assignment takes one of the proxy's room. */
  lemma {:induction false} OneMoreKeeps(proxies: seq<Proxy>, clients: map<Ip, Client>, assignments: seq<Assignment>,
      k: nat, ip: Ip, now: int)
    requires Linked(proxies, clients, assignments) && Conserved(proxies, assignments)
    requires k < |proxies| && proxies[k].capacity > 0 && ip in clients
    ensures var more := assignments + [Assignment(Row(k), ip, now)];
      Linked(proxies[k := Taken(proxies[k], 1)], clients, more) && Conserved(proxies[k := Taken(proxies[k], 1)], more)
  {
    hide Count;
    forall j: nat ensures Count(assignments + [Assignment(Row(k), ip, now)], j) ==
      Count(assignments, j) + (if j == k then 1 else 0) {
      CountAdd(assignments, Assignment(Row(k), ip, now), j);
    }
  }

  /** An assignment without a proxy takes nobody's room. */
  lemma {:induction false} NobodysKeeps(proxies: seq<Proxy>, assignments: seq<Assignment>, ip: Ip, now: int)
    requires Conserved(proxies, assignments)
    ensures Conserved(proxies, assignments + [Assignment(NoProxy, ip, now)])
  {
    hide Count;
    forall k | 0 <= k < |proxies|
      ensures Count(assignments + [Assignment(NoProxy, ip, now)], k) == Count(assignments, k) {
      CountAdd(assignments, Assignment(NoProxy, ip, now), k);
    }
  }

  function CountPair(assignments: seq<Assignment>, id: nat, client: Ip): nat {
    if assignments == [] then 0
    else
      var n := |assignments| - 1;
      CountPair(assignments[..n], id, client) +
        (if assignments[n].proxy == Row(id) && assignments[n].client == client then 1 else 0)
  }

  lemma {:induction false} NoPair(assignments: seq<Assignment>, id: nat, client: Ip)
    requires forall a :: a in assignments ==> a.client != client
    ensures CountPair(assignments, id, client) == 0
  {
    if assignments != [] {
      var n := |assignments| - 1;
      assert forall a :: a in assignments[..n] ==> a in assignments;
      NoPair(assignments[..n], id, client);
    }
  }

  lemma {:induction false} FirstOfPair(assignments: seq<Assignment>, id: nat, client: Ip, now: int)
    requires forall a :: a in assignments ==> a.client != client
    ensures CountPair(assignments + [Assignment(Row(id), client, now)], id, client) == 1
  {
    NoPair(assignments, id, client);
    assert (assignments + [Assignment(Row(id), client, now)])[..|assignments|] == assignments;
  }

  lemma {:induction false} AddressedSame(before: seq<Proxy>, after: seq<Proxy>, held: set<Ip>, blocked: set<Ip>)
    requires Addressed(before, held, blocked) && |after| == |before|
    requires forall k :: 0 <= k < |before| ==> after[k].ip == before[k].ip && after[k].isBlocked == before[k].isBlocked
    ensures Addressed(after, held, blocked)
  {
  }

  ghost predicate Distinct(proxies: seq<Proxy>) {
    forall j, k :: 0 <= j < |proxies| && 0 <= k < |proxies| && proxies[j].ip == proxies[k].ip ==> j == k
  }

  lemma {:induction false} AllDistinct(proxies: seq<Proxy>, held: set<Ip>, blocked: set<Ip>)
    requires Addressed(proxies, held, blocked)
    ensures Distinct(proxies)
  {
    forall j, k | 0 <= j < |proxies| && 0 <= k < |proxies| && proxies[j].ip == proxies[k].ip ensures j == k {
      AddressesDistinct(proxies, held, blocked, j, k);
    }
  }

  ghost predicate AllActive(proxies: seq<Proxy>) {
    forall k :: 0 <= k < |proxies| ==> proxies[k].isActive
  }

  lemma {:induction false} KnownClients(proxies: seq<Proxy>, clients: map<Ip, Client>, assignments: seq<Assignment>,
      k: nat)
    requires Linked(proxies, clients, assignments)
    ensures AssignedTo(assignments, k) <= clients.Keys && forall ip :: ip in clients ==> clients[ip].ip == ip
  {
  }

  lemma {:induction false} NewClientRow(proxies: seq<Proxy>, clients: map<Ip, Client>, assignments: seq<Assignment>,
      row: Client)
    requires Linked(proxies, clients, assignments) && row.ip !in clients
    ensures Linked(proxies, clients[row.ip := row], assignments) && |clients[row.ip := row]| == |clients| + 1
    ensures forall a :: a in assignments ==> a.client != row.ip
  {
  }
}
