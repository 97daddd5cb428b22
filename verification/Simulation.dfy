/** The simulation: in each step the censor blocks proxies, proxies migrate, blocked clients
    ask for new proxies, and new proxies and clients arrive. */
module Simulation {
  import opened Addresses
  import opened Lists
  import opened Rankings
  import opened SimulationTables
  import opened SimulationHolders
  import opened DeferredAcceptance
  import opened SimulationMarkets
  import opened SimulationJudging
  import opened SimulationMatches
  import opened SimulationSteps

  /** `AttributeError`: a new client found no proxy with room. */
  datatype StepResult = Done | NoFreeProxy

  class Simulation {
    const distance: (Location, Location) -> real
    const optimal: bool
    const interval: nat

    var proxies: seq<Proxy>
    var clients: map<Ip, Client>
    var assignments: seq<Assignment>
    var agents: set<Ip>
    var lastProxyIp: Ip
    var lastClientId: int
    /** Every address that a proxy ever held, how many were given out, and where proxies were blocked. */
    ghost var held: set<Ip>
    ghost var issued: nat
    ghost var blocked: set<Ip>

    ghost function Now(): Tables
      reads this
    {
      Tables(proxies, clients, assignments)
    }

    ghost predicate Rows()
      reads this
    {
      && Linked(proxies, clients, assignments) && Conserved(proxies, assignments) && Single(proxies, assignments)
      && AllActive(proxies)
    }

    ghost predicate Names()
      reads this
    {
      && Addressed(proxies, held, blocked) && issued == |held|
      && Regular(lastProxyIp) && Owner(lastProxyIp) == |proxies| - 1 && Migrations(lastProxyIp) == 0
      && |clients| == lastClientId + 1 && forall ip :: ip in clients ==> ClientNumber(ip) <= lastClientId
    }

    ghost predicate Valid()
      reads this
    {
      interval > 0 && Rows() && Names()
    }

    /** What holds also when the simulation has ended with an exception. */
    ghost predicate Safe()
      reads this
    {
      Conserved(proxies, assignments) && Addressed(proxies, held, blocked) && issued == |held|
    }

    constructor (distance: (Location, Location) -> real, optimal: bool, interval: nat, location: Location)
      requires interval > 0
      ensures Valid() && |proxies| == 1 && clients == map[] && assignments == [] && agents == {}
      ensures proxies == [Proxy(Ip(0, 0, 0, 0), MAX_PROXY_CAPACITY, false, 0, true, location)]
      ensures this.distance == distance && this.optimal == optimal && this.interval == interval
      ensures lastProxyIp == Ip(0, 0, 0, 0)
    {
      this.distance, this.optimal, this.interval := distance, optimal, interval;
      var ip := Ip(0, 0, 0, 0);
      proxies := [Proxy(ip, MAX_PROXY_CAPACITY, false, 0, true, location)];
      clients, assignments, agents := map[], [], {};
      lastProxyIp, lastClientId := ip, -1;
      held, issued, blocked := {ip}, 1, {};
    }

    // ----- Rejuvenation -----

    method Rejuvenate()
      requires Valid()
      modifies this`proxies, this`assignments, this`held, this`issued
      ensures Valid() && old(held) <= held && Rejuvenation(old(Now()), Now(), old(held))
    {
      hide Rows, Names, Rejuvenating, Deleted, Migrated;
      var k := 0;
      RejuvenatingStart(Now(), held);
      while k < |proxies|
        invariant k <= |proxies| == |old(proxies)| && Valid() && old(held) <= held
        invariant Rejuvenating(old(Now()), Now(), k, old(held))
      {
        ghost var before := Now();
        if proxies[k].isActive {
          Migrate(k);
        }
        RejuvenatingNext(old(Now()), before, Now(), k, old(held));
        k := k + 1;
      }
      RejuvenatingEnd(old(Now()), Now(), old(held));
    }

    /** One proxy gets its next address, and starts afresh if it was blocked. */
    method Migrate(k: nat)
      requires Valid() && k < |proxies|
      modifies this`proxies, this`assignments, this`held, this`issued
      ensures Valid()
      ensures proxies == old(proxies)[k := Migrated(old(proxies)[k])]
      ensures proxies[k].ip !in old(held) && held == old(held) + {proxies[k].ip}
      ensures assignments == if old(proxies)[k].isBlocked then Deleted(old(assignments), k) else old(assignments)
    {
      hide Addressed, Single, Count, Deleted, MigrationIp, Regular, Owner, Migrations, ClientNumber;
      var row := proxies[k];
      row := row.(ip := MigrationIp(row.ip));
      if row.isBlocked {
        row := row.(isBlocked := false, capacity := MAX_PROXY_CAPACITY);
        forall j | 0 <= j < |proxies|
          ensures Count(Deleted(assignments, k), j) == if j == k then 0 else Count(assignments, j)
        {
          CountDeleted(assignments, k, j);
        }
        SingleDeleted(proxies, proxies[k := row], assignments, k);
        assignments := Deleted(assignments, k);
      } else {
        SingleFewer(proxies, proxies[k := row], assignments);
      }
      MigrationKeeps(proxies, held, blocked, k, row);
      held, issued := held + {row.ip}, issued + 1;
      proxies := proxies[k := row];
    }

    // ----- New proxies and clients -----

    method CreateNewProxy(location: Location)
      requires Valid()
      modifies this`proxies, this`lastProxyIp, this`held, this`issued
      ensures Valid() && lastProxyIp == NextProxyIp(old(lastProxyIp)) && lastProxyIp !in old(held)
      ensures proxies == old(proxies) + [Proxy(lastProxyIp, MAX_PROXY_CAPACITY, false, 0, true, location)]
      ensures held == old(held) + {lastProxyIp}
    {
      hide Addressed, Single, Count, ClientNumber;
      var ip := NextProxyIp(lastProxyIp);
      var row := Proxy(ip, MAX_PROXY_CAPACITY, false, 0, true, location);
      NewProxyRow(proxies, clients, assignments, row);
      CreationKeeps(proxies, held, blocked, lastProxyIp, row);
      NextProxyIsNew(lastProxyIp);
      hide Linked, Conserved, AllActive;
      lastProxyIp := ip;
      held, issued := held + {ip}, issued + 1;
      proxies := proxies + [row];
    }

    /** `Proxy.objects.filter(is_blocked=False, is_active=True, capacity__gt=0).first()`; the
        number of rows stands for `None`. */
    method FirstFree() returns (k: nat)
      ensures IsFirstFree(proxies, k)
    {
      k := 0;
      while k < |proxies| && !Free(proxies[k])
        invariant k <= |proxies| && forall j :: 0 <= j < k ==> !Free(proxies[j])
      {
        k := k + 1;
      }
    }

    /** A client asks for its first proxy and gets the first with room. If there is none, the
        assignment is made with no proxy and the next access fails. */
    method RequestNewProxyNewClient(ip: Ip, now: int) returns (r: StepResult, ghost k: nat)
      requires Rows() && ip in clients && forall a :: a in assignments ==> a.client != ip
      modifies this`proxies, this`clients, this`assignments
      ensures IsFirstFree(old(proxies), k) && (r == Done <==> k < |old(proxies)|)
      ensures clients == old(clients)[ip := Requested(old(clients)[ip])]
      ensures r == NoFreeProxy ==> proxies == old(proxies) && Conserved(proxies, assignments)
      ensures r == NoFreeProxy ==> assignments == old(assignments) + [Assignment(NoProxy, ip, now)]
      ensures r == Done ==> Rows() && proxies == old(proxies)[k := Taken(old(proxies)[k], 1)]
      ensures r == Done ==> assignments == old(assignments) + [Assignment(Row(k), ip, now)]
    {
      hide Linked, Conserved, Single, CountPair;
      LinkedSame(proxies, clients, assignments, ip, Requested(clients[ip]));
      clients := clients[ip := Requested(clients[ip])];
      var chosen := FirstFree();
      k := chosen;
      if chosen == |proxies| {
        NobodysKeeps(proxies, assignments, ip, now);
        assignments := assignments + [Assignment(NoProxy, ip, now)];
        return NoFreeProxy, k;
      }
      FirstOfPair(assignments, chosen, ip, now);
      OneMoreKeeps(proxies, clients, assignments, k, ip, now);
      SingleAdd(proxies, assignments, Assignment(Row(chosen), ip, now));
      assignments := assignments + [Assignment(Row(chosen), ip, now)];
      if CountPair(assignments, chosen, ip) == 1 {
        SingleFewer(proxies, proxies[chosen := Taken(proxies[chosen], 1)], assignments);
        proxies := proxies[chosen := Taken(proxies[chosen], 1)];
      }
      r := Done;
    }

    method CreateNewClient(isAgent: bool, location: Location, now: int) returns (r: StepResult, ghost k: nat)
      requires Valid()
      modifies this`proxies, this`clients, this`assignments, this`agents, this`lastClientId
      ensures IsFirstFree(old(proxies), k) && (r == Done <==> k < |old(proxies)|)
      ensures ClientIp(old(lastClientId) + 1) !in old(clients)
      ensures var ip := ClientIp(old(lastClientId) + 1);
        clients == old(clients)[ip := Client(ip, isAgent, false, 1, 0, now, location)]
      ensures agents == if isAgent then old(agents) + {ClientIp(old(lastClientId) + 1)} else old(agents)
      ensures r == NoFreeProxy ==> proxies == old(proxies)
      ensures r == NoFreeProxy ==>
        assignments == old(assignments) + [Assignment(NoProxy, ClientIp(old(lastClientId) + 1), now)]
      ensures Safe()
      ensures r == Done ==> Valid() && lastClientId == old(lastClientId) + 1
      ensures r == Done ==> proxies == old(proxies)[k := Taken(old(proxies)[k], 1)]
      ensures r == Done ==> assignments == old(assignments) + [Assignment(Row(k), ClientIp(old(lastClientId) + 1), now)]
    {
      hide Linked, Conserved, Addressed, Single, AllActive, Regular, Owner, Migrations, ClientIp, ClientNumber;
      var id := lastClientId + 1;
      var ip := ClientIp(id);
      ClientIpRoundTrip(id);
      NewClientRow(proxies, clients, assignments, Client(ip, isAgent, false, 0, 0, now, location));
      clients := clients[ip := Client(ip, isAgent, false, 0, 0, now, location)];
      if isAgent {
        agents := agents + {ip};
      }
      r, k := RequestNewProxyNewClient(ip, now);
      if r == Done {
        AddressedSame(old(proxies), proxies, held, blocked);
        lastClientId := id;
      }
    }

    // ----- The censor -----

    /** Some agent was assigned to the proxy; an optimal censor waits before it uses that. */
    predicate Exposed(k: nat, now: int)
      reads this
    {
      exists a :: a in assignments && a.proxy == Row(k) && a.client in agents && (optimal ==> a.time < now - 2)
    }

    predicate Target(k: nat, now: int)
      requires k < |proxies|
      reads this
    {
      Exposed(k, now) && !proxies[k].isBlocked && proxies[k].isActive
    }

    method Censor(now: int) returns (targets: seq<nat>)
      ensures forall k: nat :: k in targets <==> k < |proxies| && Target(k, now)
      ensures Ascending(targets)
    {
      targets := [];
      var k := 0;
      while k < |proxies|
        invariant k <= |proxies| && forall j: nat :: j in targets <==> j < k && Target(j, now)
        invariant forall i :: 0 <= i < |targets| ==> targets[i] < k
        invariant forall i, j :: 0 <= i < j < |targets| ==> targets[i] < targets[j]
      {
        if Target(k, now) {
          targets := targets + [k];
        }
        k := k + 1;
      }
    }

    /** The rows of some clients, in any order. */
    method List(ips: set<Ip>) returns (rows: seq<Client>)
      requires ips <= clients.Keys && forall ip :: ip in clients ==> clients[ip].ip == ip
      ensures forall i :: 0 <= i < |rows| ==> rows[i].ip in ips && rows[i] == clients[rows[i].ip]
      ensures forall ip :: Listed(rows, ip) == if ip in ips then 1 else 0
    {
      rows := [];
      var left := ips;
      while left != {}
        invariant left <= ips
        invariant forall i :: 0 <= i < |rows| ==> rows[i].ip in ips && rows[i] == clients[rows[i].ip]
        invariant forall ip :: Listed(rows, ip) == if ip in ips - left then 1 else 0
        decreases |left|
      {
        var ip :| ip in left;
        forall other ensures Listed(rows + [clients[ip]], other) ==
          Listed(rows, other) + (if other == ip then 1 else 0) {
          assert (rows + [clients[ip]])[..|rows|] == rows;
        }
        left := left - {ip};
        rows := rows + [clients[ip]];
      }
    }

    /** A proxy is blocked: every client assigned to it learns of that. */
    method BlockProxy(k: nat, now: int) returns (hit: seq<Client>)
      requires Valid() && k < |proxies|
      modifies this`proxies, this`clients, this`blocked
      ensures Valid() && proxies == old(proxies)[k := BlockedAt(old(proxies)[k], now)]
      ensures blocked == old(blocked) + {proxies[k].ip}
      ensures clients == Learned(old(clients), assignments, [k])
      ensures forall i :: 0 <= i < |hit| ==> hit[i].ip in clients && hit[i] == clients[hit[i].ip]
      ensures forall c :: Listed(hit, c) == Times(assignments, [k], c)
    {
      hide Addressed, Linked, Conserved, Single, AllActive, Listed, Regular, Owner, Migrations, ClientNumber;
      BlockKeeps(proxies, held, blocked, k, BlockedAt(proxies[k], now));
      BlockedRows(proxies, clients, assignments, k, now);
      KnownClients(proxies, clients, assignments, k);
      proxies := proxies[k := BlockedAt(proxies[k], now)];
      blocked := blocked + {proxies[k].ip};
      var affected := AssignedTo(assignments, k);
      OneTarget(assignments, k);
      clients := map c | c in clients ::
        if c in affected then clients[c].(knownBlocked := clients[c].knownBlocked + 1) else clients[c];
      assert clients == Learned(old(clients), assignments, [k]);
      hide Learned, Times, AssignedTo;
      hit := List(affected);
    }

    /** Some proxies are blocked. A client is listed once for each of its proxies among them. */
    method BlockAll(chosen: seq<nat>, now: int) returns (hit: seq<Client>)
      requires Valid() && Ascending(chosen) && forall k :: k in chosen ==> k < |proxies|
      modifies this`proxies, this`clients, this`blocked
      ensures Valid() && old(blocked) <= blocked && Blocking(old(Now()), Now(), chosen, hit, now)
    {
      hide Rows, Names, BlockedAt, AssignedTo, Learned, Times, Listed, Copies;
      hit := [];
      NothingLearned(clients, assignments);
      var i := 0;
      assert chosen[..0] == [];
      while i < |chosen|
        invariant i <= |chosen| && Valid() && old(blocked) <= blocked
        invariant Blocking(old(Now()), Now(), chosen[..i], hit, now)
      {
        assert chosen[i] in chosen;
        ghost var before := Now();
        var rows := BlockProxy(chosen[i], now);
        BlockingNext(old(Now()), before, Now(), chosen, i, hit, rows, now);
        hit := hit + rows;
        i := i + 1;
      }
      assert chosen[..|chosen|] == chosen;
    }

    /** The censor blocks its targets. */
    method BlockTargets(now: int) returns (hit: seq<Client>, ghost targets: seq<nat>)
      requires Valid()
      modifies this`proxies, this`clients, this`blocked
      ensures Valid() && old(blocked) <= blocked
      ensures forall k: nat :: k in targets <==> k < |old(proxies)| && old(Target(k, now))
      ensures Ascending(targets)
      ensures Blocking(old(Now()), Now(), targets, hit, now)
      ensures forall i :: 0 <= i < |hit| ==> Idle(proxies, assignments, hit[i].ip)
    {
      assert Single(proxies, assignments);
      hide Rows, Names, Blocking, Idle, Single, Ascending;
      var chosen := Censor(now);
      targets := chosen;
      hit := BlockAll(chosen, now);
      AllHitAreIdle(old(Now()), Now(), targets, hit, now);
    }

    // ----- Requests for new proxies -----

    /** The utility of each client that is not flagged; the last copy of a client decides. */
    method GeneralUtilities(proposing: seq<Client>, now: int) returns (general: map<Ip, real>)
      requires Rows()
      ensures general.Keys == Unflagged(proposing) && HasUtilities(general, proxies, assignments, proposing, now)
    {
      hide Conserved, Single, GeneralUtility, BlockedUsage, HasUtilities, Unflagged;
      general := map[];
      NoUtilitiesYet(proxies, assignments, now);
      assert proposing[..0] == [];
      for i := 0 to |proposing|
        invariant general.Keys == Unflagged(proposing[..i])
        invariant HasUtilities(general, proxies, assignments, proposing[..i], now)
      {
        var c := proposing[i];
        UnflaggedNext(proposing, i);
        UtilitiesNext(general, proxies, assignments, proposing, i, now);
        if !c.flagged {
          general := general[c.ip := GeneralUtility(c, BlockedUsage(assignments, proxies, c.ip), now)];
        }
      }
      assert proposing[..|proposing|] == proposing;
    }

    /** One proxy ranks the clients, and flags those of too little utility. A client that it
        flags is ranked by it all the same. */
    method RankClients(k: nat, proposing: seq<Client>, general: map<Ip, real>, ghost sc: Scene)
        returns (after: seq<Client>, ranking: seq<Ip>, flagged: seq<Client>)
      requires Rows() && k < |proxies| && sc.proxies == proxies && Unflagged(proposing) <= general.Keys
      requires sc.w.general == general && sc.w.distance == distance && PlacesOf(proposing, sc.w.places)
      requires SamePeople(sc.people, proposing) && Consistent(proposing) && Current(clients, proposing)
      requires forall i :: 0 <= i < |proposing| ==> proposing[i].ip in clients
      modifies this`clients
      ensures Rows() && clients == FlagRows(old(clients), Unflagged(proposing) - Unflagged(after))
      ensures Judged(proxies[k], sc.w, proposing, after) && flagged == NewlyFlagged(proposing, after)
      ensures NoDup(ranking) && Elems(ranking) == Unflagged(proposing) && ByWorth(sc, k, ranking)
    {
      hide Linked, Conserved, Single, AllActive, Ranked, NewlyFlagged, Unflagged, Judged;
      hide Flags, Saved, Worth, Current, Consistent, InListOrder, ByWorth;
      after, flagged := [], [];
      var order: seq<Ip>, utilities: map<Ip, real> := [], map[];
      NobodyYet(proxies[k], sc.w);
      NothingSaved(clients);
      NoneInListOrder(proposing);
      assert proposing[..0] == [];
      for i := 0 to |proposing|
        invariant Rows() && clients.Keys == old(clients).Keys
        invariant Judged(proxies[k], sc.w, proposing[..i], after) && |after| == i
        invariant NoDup(order) && Elems(order) == utilities.Keys == Unflagged(proposing[..i])
        invariant InListOrder(proposing, order)
        invariant flagged == NewlyFlagged(proposing[..i], after)
        invariant forall ip :: ip in utilities ==> utilities[ip] == Worth(sc.w, proxies[k], ip)
        invariant Saved(old(clients), clients, proposing[..i], utilities)
      {
        var c := proposing[i];
        UnflaggedNext(proposing, i);
        UnflaggedPart(proposing, i + 1);
        var judged := c;
        if c.flagged {
          SavedSkip(old(clients), clients, proposing, i, utilities);
        } else {
          var utility;
          ghost var before := clients;
          judged, utility := JudgeClient(k, c, general, sc.w);
          SavedNext(old(clients), before, proposing, i, utilities, utility);
          if judged.flagged {
            flagged := flagged + [judged];
          }
          if c.ip !in utilities {
            NextInListOrder(proposing, i, order);
            order := order + [c.ip];
          }
          utilities := utilities[c.ip := utility];
        }
        JudgedNext(proxies[k], sc.w, proposing, i, after, judged);
        after := after + [judged];
      }
      assert proposing[..|proposing|] == proposing;
      RankedElems(order, utilities);
      ranking := Ranked(order, utilities);
      RankedByWorth(sc, k, proposing, order, utilities);
      FlaggedByWorth(sc, k, proposing, after, utilities);
      SavedRows(old(clients), clients, proposing, utilities, Unflagged(proposing) - Unflagged(after));
    }

    /** The utility of one client for one proxy, which flags the client and saves it if that is too little. */
    method JudgeClient(k: nat, c: Client, general: map<Ip, real>, ghost w: Judge)
        returns (judged: Client, utility: real)
      requires Rows() && k < |proxies| && !c.flagged && c.ip in clients && c.ip in general
      requires w.general == general && w.distance == distance && c.ip in w.places && w.places[c.ip] == c.location
      modifies this`clients
      ensures Rows() && utility == Worth(w, proxies[k], c.ip)
      ensures judged == c.(flagged := Flags(proxies[k], general, distance, c))
      ensures judged.flagged <==> utility < CLIENT_UTILITY_THRESHOLD
      ensures clients == if judged.flagged then old(clients)[c.ip := judged] else old(clients)
    {
      hide Linked, Conserved, Single;
      judged := c;
      utility := general[c.ip] - 10.0 * distance(proxies[k].location, c.location);
      if utility < CLIENT_UTILITY_THRESHOLD {
        judged := c.(flagged := true);
        LinkedSame(proxies, clients, assignments, c.ip, judged);
        clients := clients[c.ip := judged];
      }
    }

    /** All available proxies rank the clients, one after the other. What is left are the
        clients that none of them flagged. */
    method RankAll(rows: seq<nat>, proposing: seq<Client>, general: map<Ip, real>, ghost sc: Scene)
        returns (after: seq<Client>, prefs: map<Ip, seq<Ip>>, capacities: map<Ip, int>, flagged: seq<Client>)
      requires Rows() && Available(proxies, rows) && Distinct(proxies)
      requires sc.proxies == proxies && sc.people == proposing && general.Keys == Unflagged(proposing)
      requires sc.w.general == general && sc.w.distance == distance && PlacesOf(proposing, sc.w.places)
      requires Consistent(proposing) && Current(clients, proposing)
      requires forall i :: 0 <= i < |proposing| ==> proposing[i].ip in clients
      modifies this`clients
      ensures Rows() && clients == FlagRows(old(clients), Unflagged(proposing) - Unflagged(after))
      ensures SamePeople(proposing, after) && PlacesOf(after, sc.w.places)
      ensures Unflagged(after) == Standing(sc, |proxies|) && ProxySide(sc, |proxies|, prefs, capacities)
      ensures PeopleOf(flagged) == Unflagged(proposing) - Unflagged(after)
    {
      hide Linked, Conserved, Single, AllActive, NewlyFlagged, Unflagged, Judged, FlagRows, Standing;
      hide Consistent, Current, SamePeople, ProxySide, Available, Reach, PlacesOf, Worth, ByWorth, Distinct;
      assert PeopleOf([]) == {};
      hide PeopleOf;
      after, prefs, capacities, flagged := proposing, map[], map[], [];
      AllTheSame(proposing);
      NobodyFlagged(clients, Unflagged(proposing));
      EmptySide(sc);
      NoneBetween(proxies, rows, 0);
      SideExtends(sc, 0, Reach(proxies, rows, 0), prefs, capacities);
      for i := 0 to |rows|
        invariant Rows() && clients == FlagRows(old(clients), Unflagged(proposing) - Unflagged(after))
        invariant SamePeople(proposing, after) && Consistent(after) && Current(clients, after)
        invariant PlacesOf(after, sc.w.places) && Unflagged(after) <= Unflagged(proposing)
        invariant Unflagged(after) == Standing(sc, Reach(proxies, rows, i))
        invariant ProxySide(sc, Reach(proxies, rows, i), prefs, capacities)
        invariant PeopleOf(flagged) == Unflagged(proposing) - Unflagged(after)
      {
        var k := rows[i];
        RowExists(proxies, rows, i);
        ReachIs(proxies, rows, i);
        KnownPeople(old(clients), clients, Unflagged(proposing) - Unflagged(after), proposing, after);
        ghost var were := clients;
        var next, ranking, newly := RankClients(k, after, general, sc);
        StillCurrentNext(proxies[k], sc, old(clients), were, Unflagged(proposing), proposing, after, next);
        JudgedStanding(sc, k, after, next);
        JudgedConsistent(proxies[k], sc.w, after, after, next);
        NewlyFlaggedPeople(after, next);
        PeopleOfBoth(flagged, newly, Unflagged(proposing), Unflagged(after), Unflagged(next));
        SideNext(sc, k, prefs, capacities, ranking);
        prefs, capacities := prefs[proxies[k].ip := ranking], capacities[proxies[k].ip := proxies[k].capacity];
        NoneBetween(proxies, rows, i + 1);
        SideExtends(sc, k + 1, Reach(proxies, rows, i + 1), prefs, capacities);
        after, flagged := next, flagged + newly;
      }
      ReachIs(proxies, rows, |rows|);
    }

    method AvailableRows() returns (rows: seq<nat>)
      ensures Available(proxies, rows)
    {
      rows := [];
      var k := 0;
      while k < |proxies|
        invariant k <= |proxies| && forall j: nat :: j in rows <==> j < k && Free(proxies[j])
        invariant forall i :: 0 <= i < |rows| ==> rows[i] < k
        invariant forall i, j :: 0 <= i < j < |rows| ==> rows[i] < rows[j]
      {
        if Free(proxies[k]) {
          rows := rows + [k];
        }
        k := k + 1;
      }
    }

    /** A client ranks the available proxies: those that more clients know, that have more
        connected clients, and that are nearer come first. */
    method RankProxies(rows: seq<nat>, place: Location) returns (ranking: seq<Ip>)
      requires Available(proxies, rows) && Distinct(proxies)
      ensures RanksAll(proxies, ranking) && ByProxyUtility(proxies, assignments, distance, place, ranking)
    {
      hide Ranked, ProxyUtility, RanksAll, ByProxyUtility, Available, Distinct;
      var order: seq<Ip>, utilities: map<Ip, real> := [], map[];
      NoRowsYet(proxies, assignments, distance, place, rows);
      for i := 0 to |rows|
        invariant RowsSoFar(proxies, assignments, distance, place, rows, i, order, utilities)
      {
        hide RowsSoFar;
        RowExists(proxies, rows, i);
        RowsNext(proxies, assignments, distance, place, rows, i, order, utilities);
        var ip := proxies[rows[i]].ip;
        if ip !in utilities {
          order := order + [ip];
        }
        utilities := utilities[ip := ProxyUtility(proxies, assignments, distance, rows[i], place)];
      }
      ranking := Ranked(order, utilities);
      RowsRanked(proxies, assignments, distance, place, rows, order, utilities);
    }

    /** The clients that are not flagged rank the available proxies. */
    method RankForClients(rows: seq<nat>, proposing: seq<Client>, ghost sc: Scene)
        returns (prefs: map<Ip, seq<Ip>>, order: seq<Ip>)
      requires Available(proxies, rows) && Distinct(proxies) && PlacesOf(proposing, sc.w.places)
      requires sc.proxies == proxies && sc.assignments == assignments && sc.w.distance == distance
      ensures NoDup(order) && Elems(order) == prefs.Keys && ClientSide(sc, prefs, Unflagged(proposing))
    {
      hide Unflagged, Available, Distinct, RanksAll, ByProxyUtility;
      prefs, order := map[], [];
      NobodyUnflagged();
      assert proposing[..0] == [];
      for i := 0 to |proposing|
        invariant NoDup(order) && Elems(order) == prefs.Keys && ClientSide(sc, prefs, Unflagged(proposing[..i]))
      {
        var c := proposing[i];
        UnflaggedNext(proposing, i);
        if !c.flagged {
          var ranking := RankProxies(rows, c.location);
          if c.ip !in prefs {
            order := order + [c.ip];
          }
          prefs := prefs[c.ip := ranking];
        }
      }
      assert proposing[..|proposing|] == proposing;
    }

    /** The market of the tables and the proposing clients. Clients of too little utility for
        some available proxy are flagged, and stay out of it. */
    method BuildMarket(proposing: seq<Client>, now: int)
        returns (m: Market, order: seq<Ip>, flagged: seq<Client>, ghost sc: Scene)
      requires Valid() && Copies(clients, proposing)
      modifies this`clients
      ensures Valid() && clients.Keys == old(clients).Keys
      ensures IsScene(sc, proxies, old(clients), assignments, distance, proposing, now) && IsMarket(sc, m)
      ensures NoDup(order) && Elems(order) == m.clientPrefs.Keys
      ensures m.clientPrefs.Keys <= Unflagged(proposing) && Unflagged(proposing) <= clients.Keys
      ensures clients == FlagRows(old(clients), Unflagged(proposing) - m.clientPrefs.Keys)
      ensures PeopleOf(flagged) == Unflagged(proposing) - m.clientPrefs.Keys
    {
      hide Linked, Conserved, Single, AllActive, Addressed, Consistent, Current, Unflagged, NoDup, Elems;
      hide Available, Copies, ProxySide, ClientSide, Worth, SamePeople, FlagRows;
      hide Regular, Owner, Migrations, ClientNumber, PlacesOf, HasUtilities, Distinct, Standing;
      CopiesAreRows(clients, proposing);
      UnflaggedKnown(clients, proposing);
      AllDistinct(proxies, held, blocked);
      var rows := AvailableRows();
      var general := GeneralUtilities(proposing, now);
      sc := Scene(proxies, assignments, proposing, Judge(general, Places(clients), distance));
      var after, proxyPrefs, capacities, newly := RankAll(rows, proposing, general, sc);
      var clientPrefs, clientOrder := RankForClients(rows, after, sc);
      m, order, flagged := Market(clientPrefs, proxyPrefs, capacities), clientOrder, newly;
      SideKeys(sc, m, Unflagged(after));
      StandingKnown(sc);
      SameKeys(old(clients), Unflagged(proposing) - Unflagged(after));
    }

    // ----- Applying the matches -----

    method AssignAll(k: nat, ips: set<Ip>, now: int)
      requires Single(proxies, assignments) && forall c :: c in ips ==> Idle(proxies, assignments, c)
      modifies this`assignments
      ensures Adds(old(assignments), assignments, k, ips, now)
      ensures forall j :: Count(assignments, j) == Count(old(assignments), j) + (if j == k then |ips| else 0)
      ensures Single(proxies, assignments)
    {
      hide Count, Single, Adds;
      var left := ips;
      AddsNothing(assignments, k, now);
      assert ips - left == {};
      while left != {}
        invariant left <= ips && Adds(old(assignments), assignments, k, ips - left, now)
        invariant forall j :: Count(assignments, j) == Count(old(assignments), j) + (if j == k then |ips - left| else 0)
        invariant Single(proxies, assignments)
        decreases |left|
      {
        var ip :| ip in left;
        forall j: nat
          ensures Count(assignments + [Assignment(Row(k), ip, now)], j) ==
            Count(assignments, j) + (if j == k then 1 else 0)
        {
          CountAdd(assignments, Assignment(Row(k), ip, now), j);
        }
        AddsIdle(proxies, old(assignments), assignments, k, ips - left, now, ip);
        SingleAdd(proxies, assignments, Assignment(Row(k), ip, now));
        AddsOne(old(assignments), assignments, k, ips - left, now, ip);
        assert ips - (left - {ip}) == ips - left + {ip};
        left := left - {ip};
        assignments := assignments + [Assignment(Row(k), ip, now)];
      }
      assert ips - left == ips;
    }

    /** One proxy takes in the clients that it was matched with. */
    method Accept(k: nat, accepted: seq<Ip>, now: int)
      requires Rows() && k < |proxies| && NoDup(accepted) && |accepted| <= proxies[k].capacity
      requires forall c :: c in accepted ==> c in clients && Idle(proxies, assignments, c)
      modifies this`proxies, this`clients, this`assignments
      ensures Rows() && proxies == old(proxies)[k := Taken(old(proxies)[k], |accepted|)]
      ensures clients ==
        map c | c in old(clients) :: if c in accepted then Requested(old(clients)[c]) else old(clients)[c]
      ensures Adds(old(assignments), assignments, k, Elems(accepted), now)
    {
      hide Linked, Conserved, Count, NoDup, Single, Idle, Adds, AllActive;
      var rows := set c | c in accepted && c in clients;
      assert rows == Elems(accepted);
      NoDupCardinality(accepted);
      clients := map c | c in clients :: if c in rows then Requested(clients[c]) else clients[c];
      AssignAll(k, rows, now);
      AcceptedRows(proxies, old(clients), clients, old(assignments), assignments, k, rows, now);
      proxies := proxies[k := Taken(proxies[k], |rows|)];
    }

    /** `Proxy.objects.get(ip=...)`, which fails unless there is exactly one. */
    method GetProxy(ip: Ip) returns (k: nat)
      requires Distinct(proxies) && exists j :: 0 <= j < |proxies| && proxies[j].ip == ip
      ensures k < |proxies| && proxies[k].ip == ip && forall j :: 0 <= j < |proxies| && proxies[j].ip == ip ==> j == k
    {
      k := 0;
      while proxies[k].ip != ip
        invariant k < |proxies| && forall j :: 0 <= j < k ==> proxies[j].ip != ip
        decreases |proxies| - k
      {
        k := k + 1;
      }
    }

    /** Every match is applied: room, assignments and request counts change by the results
        and by nothing else. */
    method Apply(results: Matching, now: int)
      requires Rows() && Distinct(proxies) && Applicable(proxies, clients, results)
      requires AllIdle(proxies, assignments, results)
      modifies this`proxies, this`clients, this`assignments
      ensures Rows() && Applied(old(proxies), proxies, results)
      ensures AssignedAll(old(assignments), assignments, proxies, results, now)
      ensures clients == CountedUp(old(clients), results)
    {
      hide Rows, Distinct, Applicable, Applied, AssignedAll, CountedUp, InProgress;
      var pending := results.Keys;
      ghost var first := Now();
      NothingApplied(first, results, now);
      while pending != {}
        invariant Rows() && InProgress(first, Now(), results, pending, now)
        decreases |pending|
      {
        var ip :| ip in pending;
        NextResult(first, Now(), results, pending, ip, now);
        var k := GetProxy(ip);
        ghost var before := Now();
        Accept(k, results[ip], now);
        ProgressNext(first, before, Now(), results, pending, ip, k, now);
        pending := pending - {ip};
      }
      AllApplied(first, Now(), results, now);
    }

    /** The clients ask for new proxies: the best stable matching of their market is applied. */
    method RequestNewProxy(proposing: seq<Client>, now: int)
        returns (flagged: seq<Client>, ghost sc: Scene, ghost m: Market, ghost results: Matching)
      requires Valid() && Copies(clients, proposing)
      requires forall i :: 0 <= i < |proposing| ==> Idle(proxies, assignments, proposing[i].ip)
      modifies this`proxies, this`clients, this`assignments
      ensures Valid() && Serving(old(Now()), Now(), sc, m, results, distance, proposing, now)
      ensures PeopleOf(flagged) == Unflagged(proposing) - m.clientPrefs.Keys
    {
      hide Linked, Conserved, Single, AllActive, Addressed, Unflagged, BestStable, Idle, Distinct;
      hide Applied, AssignedAll, NoDup, Elems, Copies, IsMarket, IsScene, Applicable, CountedUp, FlagRows;
      hide Regular, Owner, Migrations, ClientNumber;
      var market, order, newly, scene := BuildMarket(proposing, now);
      MarketIsWellFormed(scene, market);
      var outcome, _ := GetMatchedClients(market, order);
      AllDistinct(proxies, held, blocked);
      SceneIs(scene, proxies, old(clients), assignments, distance, proposing, now);
      CanApply(scene, clients, market, outcome.results);
      MatchedAreIdle(proxies, assignments, proposing, market, outcome.results);
      Apply(outcome.results, now);
      CountedKeys(old(clients), Unflagged(proposing) - market.clientPrefs.Keys, outcome.results);
      SameAddresses(old(proxies), proxies, outcome.results, held, blocked);
      flagged, sc, m, results := newly, scene, market, outcome.results;
    }

    // ----- Steps -----

    /** The first part of a step: blocking, rejuvenation, and the requests of the blocked clients. */
    method Block(now: nat) returns (ghost log: Log)
      requires Valid()
      modifies this`proxies, this`clients, this`assignments, this`held, this`issued, this`blocked
      ensures Valid() && old(held) <= held && old(blocked) <= blocked
      ensures forall k: nat :: k in log.targets <==> k < |old(proxies)| && old(Target(k, now))
      ensures Ascending(log.targets)
      ensures Blocking(old(Now()), log.blocked, log.targets, log.hit, now)
      ensures if now % interval == 0 then Rejuvenation(log.blocked, log.moved, old(held)) else log.moved == log.blocked
      ensures Serving(log.moved, Now(), log.scene, log.market, log.results, distance, log.hit, now)
    {
      hide Rows, Names, Copies, Learned, Serving, Survivors, Idle;
      var hit, targets := BlockTargets(now);
      ghost var afterBlocking := Now();
      if now % interval == 0 {
        Rejuvenate();
        forall i | 0 <= i < |hit| ensures Idle(proxies, assignments, hit[i].ip) {
          IdleAfterRejuvenation(afterBlocking, Now(), old(held), hit[i].ip);
        }
      }
      ghost var afterMoving := Now();
      var flagged, sc, m, results := RequestNewProxy(hit, now);
      log := Log(targets, hit, afterBlocking, afterMoving, sc, m, results);
    }

    /** A new proxy arrives, if it is time. */
    method ProxyArrives(now: nat, chance: Chance)
      requires Valid()
      modifies this`proxies, this`lastProxyIp, this`held, this`issued
      ensures Valid() && proxies == Grown(old(proxies), old(lastProxyIp), chance, now) && old(held) <= held
      ensures lastProxyIp == NextLast(old(lastProxyIp), now)
      ensures forall j :: |old(proxies)| <= j < |proxies| ==> proxies[j].ip !in old(held)
      ensures AllOpen(old(proxies)) ==> AllOpen(proxies)
    {
      hide Rows, Names, NextProxyIp;
      if now % NEW_PROXY_INTERVAL == 0 {
        CreateNewProxy(chance.proxyLocation);
      }
    }

    /** A new client arrives, if it is time. */
    method ClientArrives(now: nat, chance: Chance) returns (r: StepResult, ghost k: nat)
      requires Valid()
      modifies this`proxies, this`clients, this`assignments, this`agents, this`lastClientId
      ensures Safe() && (r == Done ==> Valid())
      ensures r == Done ==> lastClientId == old(lastClientId) + (if NewClient(now) then 1 else 0)
      ensures |proxies| == |old(proxies)| && forall j :: 0 <= j < |proxies| ==> proxies[j].ip == old(proxies)[j].ip
      ensures Admission(old(Now()), Now(), k, old(lastClientId), chance, now)
      ensures r == NoFreeProxy <==> NewClient(now) && k == |old(proxies)|
      ensures agents == AgentsWith(old(agents), old(lastClientId), chance, now)
    {
      hide Rows, Names, ClientIp, Conserved, Addressed;
      IsSafe();
      r, k := Done, 0;
      if now % NEW_USER_RATE_INTERVAL == 0 {
        r, k := CreateNewClient(chance.isAgent, chance.clientLocation, now);
      }
    }

    lemma {:induction false} IsSafe()
      requires Valid()
      ensures Safe() && lastClientId >= -1
    {
    }

    /** The second part: arrivals. With no proxy blocked, and places for more clients than there
        are, a new client is always served. */
    method Arrive(now: nat, chance: Chance) returns (r: StepResult, ghost k: nat)
      requires Valid()
      modifies this`proxies, this`clients, this`assignments, this`agents, this`lastProxyIp, this`lastClientId,
        this`held, this`issued
      ensures Safe() && (r == Done ==> Valid()) && old(held) <= held
      ensures r == Done ==> lastClientId == old(lastClientId) + (if NewClient(now) then 1 else 0)
      ensures |proxies| == |Grown(old(proxies), old(lastProxyIp), chance, now)|
      ensures forall j :: 0 <= j < |proxies| ==>
        if j < |old(proxies)| then proxies[j].ip == old(proxies)[j].ip else proxies[j].ip !in old(held)
      ensures Arrival(old(Now()), Now(), k, old(lastProxyIp), old(lastClientId), chance, now)
      ensures lastProxyIp == NextLast(old(lastProxyIp), now)
      ensures r == NoFreeProxy <==> NewClient(now) && k == |proxies|
      ensures agents == AgentsWith(old(agents), old(lastClientId), chance, now)
      ensures AllOpen(old(proxies)) && |old(clients)| < MAX_PROXY_CAPACITY * |proxies| ==> r == Done
    {
      hide Rows, Names, ClientIp, Conserved, Addressed, AllOpen, NextProxyIp;
      IsSafe();
      ProxyArrives(now, chance);
      ghost var open := AllOpen(proxies) && |clients| < MAX_PROXY_CAPACITY * |proxies|;
      if open {
        RoomFound();
      }
      r, k := ClientArrives(now, chance);
    }

    /** If no proxy is blocked and there are places for more clients than there are, one is free. */
    lemma {:induction false} RoomFound()
      requires Valid() && AllOpen(proxies) && |clients| < MAX_PROXY_CAPACITY * |proxies|
      ensures exists k :: 0 <= k < |proxies| && Free(proxies[k])
    {
      hide Linked, Conserved, Single, Addressed, ClientNumber;
      SomeoneHasRoom(proxies, clients, assignments);
    }

    /** One step: its parts one after the other. A proxy keeps its address or gets one that
        nobody ever held. */
    method Step(now: nat, chance: Chance) returns (r: StepResult, ghost log: Log, ghost served: Tables, ghost k: nat)
      requires Valid()
      modifies this
      ensures Safe() && (r == Done ==> Valid()) && old(held) <= held && old(blocked) <= blocked
      ensures forall j :: 0 <= j < |proxies| ==>
        proxies[j].ip !in old(held) || (j < |old(proxies)| && proxies[j].ip == old(proxies)[j].ip)
      ensures forall j: nat :: j in log.targets <==> j < |old(proxies)| && old(Target(j, now))
      ensures Ascending(log.targets)
      ensures Passes(Passage(old(Now()), Now(), log, served, k, old(held), distance, old(lastProxyIp),
        old(lastClientId), chance, now, now % interval == 0))
      ensures lastProxyIp == NextLast(old(lastProxyIp), now)
      ensures r == NoFreeProxy <==> NewClient(now) && k == |proxies|
      ensures agents == AgentsWith(old(agents), old(lastClientId), chance, now)
      ensures |proxies| == |Grown(old(proxies), old(lastProxyIp), chance, now)|
      ensures r == Done ==> |clients| == |old(clients)| + (if NewClient(now) then 1 else 0)
      ensures now % interval == 0 && |old(clients)| < MAX_PROXY_CAPACITY * |proxies| ==> r == Done
    {
      hide Rows, Names, Conserved, Addressed, ClientIp, NextProxyIp, Blocking, Rejuvenation;
      hide IsScene, IsMarket, BestStable, AssignedAll, CountedUp, FlagRows, AllActive, AllOpen, Applied, Sound;
      Sizes();
      log := Block(now);
      served := Now();
      Sizes();
      if now % interval == 0 {
        AllOpenAfter(log.blocked, log.moved, served, old(held), log.results);
      }
      KeepsAddresses(old(Now()), log, served, old(held), now, now % interval == 0);
      r, k := Arrive(now, chance);
      if r == Done {
        Sizes();
      }
    }

    lemma {:induction false} Sizes()
      requires Valid()
      ensures |clients| == lastClientId + 1 && interval > 0 && AllActive(proxies) && Sound(Now())
      ensures ClientIp(lastClientId + 1) !in clients && forall k :: 0 <= k < |proxies| ==> proxies[k].ip in held
    {
      hide Conserved, Linked, Single, Distinct, Regular, Owner, Migrations, ClientIp, ClientNumber;
      AllDistinct(proxies, held, blocked);
      ClientIpRoundTrip(lastClientId + 1);
    }
  }
}
