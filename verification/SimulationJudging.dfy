/** How the market grows as one proxy after the other ranks the clients, and what becomes of
    the clients that they flag. */
module SimulationJudging {
  import opened Addresses
  import opened Lists
  import opened Rankings
  import opened SimulationTables
  import opened DeferredAcceptance
  import opened SimulationMarkets

  // ----- One proxy ranks the clients -----

  ghost predicate Flags(proxy: Proxy, general: map<Ip, real>, distance: (Location, Location) -> real, c: Client)
    requires c.ip in general
  {
    general[c.ip] - 10.0 * distance(proxy.location, c.location) < CLIENT_UTILITY_THRESHOLD
  }

  /** The clients after one proxy ranked them: those of too little utility are flagged. */
  ghost predicate Judged(proxy: Proxy, w: Judge, before: seq<Client>, after: seq<Client>) {
    && |after| == |before|
    && forall i :: 0 <= i < |before| ==>
         if before[i].flagged then after[i] == before[i]
         else
           && before[i].ip in w.general
           && after[i] == before[i].(flagged := Flags(proxy, w.general, w.distance, before[i]))
  }

  /** The copies that were flagged in between, in order. */
  function NewlyFlagged(before: seq<Client>, after: seq<Client>): seq<Client>
    requires |before| == |after|
  {
    if before == [] then []
    else
      var n := |before| - 1;
      NewlyFlagged(before[..n], after[..n]) + (if !before[n].flagged && after[n].flagged then [after[n]] else [])
  }

  ghost function PeopleOf(cs: seq<Client>): set<Ip> {
    set c | c in cs :: c.ip
  }

  lemma {:induction false} NewlyFlaggedAre(before: seq<Client>, after: seq<Client>, c: Client)
    requires |before| == |after|
    ensures c in NewlyFlagged(before, after) <==>
      exists i :: 0 <= i < |before| && !before[i].flagged && after[i].flagged && after[i] == c
  {
    if before != [] {
      var n := |before| - 1;
      NewlyFlaggedAre(before[..n], after[..n], c);
      if i :| 0 <= i < n && !before[i].flagged && after[i].flagged && after[i] == c {
        assert !before[..n][i].flagged && after[..n][i].flagged && after[..n][i] == c;
      }
    }
  }

  /** Those flagged in between were not flagged before, and are now. */
  lemma {:induction false} NewlyFlaggedPeople(before: seq<Client>, after: seq<Client>)
    requires SamePeople(before, after) && Consistent(before) && Consistent(after)
    ensures PeopleOf(NewlyFlagged(before, after)) == Unflagged(before) - Unflagged(after)
  {
    hide NewlyFlagged;
    forall c | c in NewlyFlagged(before, after) ensures c.ip in Unflagged(before) - Unflagged(after) {
      NewlyFlaggedAre(before, after, c);
    }
    forall ip | ip in Unflagged(before) - Unflagged(after) ensures ip in PeopleOf(NewlyFlagged(before, after)) {
      var i :| 0 <= i < |before| && !before[i].flagged && before[i].ip == ip;
      assert after[i].ip == ip;
      NewlyFlaggedAre(before, after, after[i]);
    }
  }

  lemma {:induction false} PeopleOfBoth(before: seq<Client>, newly: seq<Client>, all: set<Ip>, were: set<Ip>,
      are: set<Ip>)
    requires PeopleOf(before) == all - were && PeopleOf(newly) == were - are && are <= were <= all
    ensures PeopleOf(before + newly) == all - are
  {
    forall ip ensures ip in PeopleOf(before + newly) <==> ip in PeopleOf(before) || ip in PeopleOf(newly) {
      if c :| c in before && c.ip == ip {
        assert c in before + newly;
      }
      if c :| c in newly && c.ip == ip {
        assert c in before + newly;
      }
    }
  }

  lemma {:induction false} NobodyYet(proxy: Proxy, w: Judge)
    ensures Judged(proxy, w, [], []) && NewlyFlagged([], []) == [] && Unflagged([]) == {}
  {
  }

  lemma {:induction false} JudgedNext(proxy: Proxy, w: Judge, before: seq<Client>, i: nat, after: seq<Client>,
      judged: Client)
    requires i < |before| && |after| == i && Judged(proxy, w, before[..i], after)
    requires if before[i].flagged then judged == before[i]
             else before[i].ip in w.general &&
                  judged == before[i].(flagged := Flags(proxy, w.general, w.distance, before[i]))
    ensures Judged(proxy, w, before[..i + 1], after + [judged])
    ensures NewlyFlagged(before[..i + 1], after + [judged]) ==
            NewlyFlagged(before[..i], after) + (if !before[i].flagged && judged.flagged then [judged] else [])
  {
    assert before[..i + 1][..i] == before[..i] && (after + [judged])[..i] == after;
    assert forall j :: 0 <= j < i ==> before[..i + 1][j] == before[..i][j];
  }

  lemma {:induction false} JudgedConsistent(proxy: Proxy, w: Judge, first: seq<Client>, before: seq<Client>,
      after: seq<Client>)
    requires Judged(proxy, w, before, after) && Consistent(before) && SamePeople(first, before)
    ensures Consistent(after) && Unflagged(after) <= Unflagged(before) && SamePeople(first, after)
  {
    forall ip | ip in Unflagged(after) ensures ip in Unflagged(before) {
      var i :| 0 <= i < |after| && !after[i].flagged && after[i].ip == ip;
      assert !before[i].flagged;
    }
  }

  lemma {:induction false} JudgedByWorth(proxy: Proxy, w: Judge, before: seq<Client>, after: seq<Client>)
    requires Judged(proxy, w, before, after) && PlacesOf(before, w.places)
    ensures forall ip :: ip in Unflagged(after) <==>
      ip in Unflagged(before) && Worth(w, proxy, ip) >= CLIENT_UTILITY_THRESHOLD
  {
    forall ip
      ensures ip in Unflagged(after) <==> ip in Unflagged(before) && Worth(w, proxy, ip) >= CLIENT_UTILITY_THRESHOLD
    {
      if ip in Unflagged(after) {
        var j :| 0 <= j < |after| && !after[j].flagged && after[j].ip == ip;
        assert !before[j].flagged && before[j].ip == ip;
      }
      if ip in Unflagged(before) && Worth(w, proxy, ip) >= CLIENT_UTILITY_THRESHOLD {
        var j :| 0 <= j < |before| && !before[j].flagged && before[j].ip == ip;
        assert !after[j].flagged && after[j].ip == ip;
      }
    }
  }

  lemma {:induction false} FlaggedByWorth(sc: Scene, k: nat, before: seq<Client>, after: seq<Client>, u: map<Ip, real>)
    requires k < |sc.proxies| && Judged(sc.proxies[k], sc.w, before, after) && PlacesOf(before, sc.w.places)
    requires u.Keys == Unflagged(before) && forall ip :: ip in u ==> u[ip] == Worth(sc.w, sc.proxies[k], ip)
    ensures forall ip :: ip in Unflagged(before) - Unflagged(after) <==> ip in u && u[ip] < CLIENT_UTILITY_THRESHOLD
  {
    hide Worth, Judged, PlacesOf, Unflagged;
    JudgedByWorth(sc.proxies[k], sc.w, before, after);
  }

  /** The clients that stand are those that stood and that the proxy does not flag. */
  lemma {:induction false} JudgedStanding(sc: Scene, k: nat, before: seq<Client>, after: seq<Client>)
    requires k < |sc.proxies| && Free(sc.proxies[k]) && Judged(sc.proxies[k], sc.w, before, after)
    requires PlacesOf(before, sc.w.places) && Unflagged(before) == Standing(sc, k)
    ensures Unflagged(after) == Standing(sc, k + 1) && PlacesOf(after, sc.w.places)
  {
    hide Worth, Unflagged, Standing;
    JudgedByWorth(sc.proxies[k], sc.w, before, after);
    StandingNext(sc, k);
  }

  lemma {:induction false} StandingNext(sc: Scene, k: nat)
    requires k < |sc.proxies| && Free(sc.proxies[k])
    ensures forall ip :: ip in Standing(sc, k + 1) <==>
      ip in Standing(sc, k) && Worth(sc.w, sc.proxies[k], ip) >= CLIENT_UTILITY_THRESHOLD
  {
    hide Worth;
  }

  // ----- Rows that the ranking writes -----

  /** The last copy of each client that is not flagged is its row. */
  ghost predicate Current(clients: map<Ip, Client>, cs: seq<Client>) {
    forall i :: IsLastCopy(cs, i) ==> cs[i].ip in clients && cs[i] == clients[cs[i].ip]
  }

  /** The rows with the clients in `who` flagged, and nothing else changed. */
  ghost function FlagRows(clients: map<Ip, Client>, who: set<Ip>): map<Ip, Client> {
    map c | c in clients :: if c in who then clients[c].(flagged := true) else clients[c]
  }

  /** The rows after some copies were looked at: a client of too little utility has its last
      copy so far as its row, flagged. */
  ghost predicate Saved(before: map<Ip, Client>, now: map<Ip, Client>, cs: seq<Client>, u: map<Ip, real>) {
    && now.Keys == before.Keys
    && (forall c :: c in now && !(c in u && u[c] < CLIENT_UTILITY_THRESHOLD) ==> now[c] == before[c])
    && (forall j :: IsLastCopy(cs, j) && cs[j].ip in u && u[cs[j].ip] < CLIENT_UTILITY_THRESHOLD && cs[j].ip in now ==>
          now[cs[j].ip] == cs[j].(flagged := true))
  }

  lemma {:induction false} NothingSaved(clients: map<Ip, Client>)
    ensures Saved(clients, clients, [], map[])
  {
  }

  lemma {:induction false} SavedNext(before: map<Ip, Client>, now: map<Ip, Client>, cs: seq<Client>, i: nat,
      u: map<Ip, real>, utility: real)
    requires i < |cs| && !cs[i].flagged && cs[i].ip in now && Saved(before, now, cs[..i], u)
    requires cs[i].ip in u ==> u[cs[i].ip] == utility
    ensures Saved(before,
      if utility < CLIENT_UTILITY_THRESHOLD then now[cs[i].ip := cs[i].(flagged := true)] else now,
      cs[..i + 1], u[cs[i].ip := utility])
  {
    LastCopyNext(cs, i);
    assert forall j :: 0 <= j < i ==> cs[..i + 1][j] == cs[..i][j];
  }

  lemma {:induction false} SavedSkip(before: map<Ip, Client>, now: map<Ip, Client>, cs: seq<Client>, i: nat,
      u: map<Ip, real>)
    requires i < |cs| && cs[i].flagged && Saved(before, now, cs[..i], u)
    ensures Saved(before, now, cs[..i + 1], u)
  {
    LastCopyNext(cs, i);
    assert forall j :: 0 <= j < i ==> cs[..i + 1][j] == cs[..i][j];
  }

  /** Since the last copy of a client is its row, saving copies changes nothing but the flag. */
  lemma {:induction false} SavedRows(before: map<Ip, Client>, now: map<Ip, Client>, cs: seq<Client>, u: map<Ip, real>,
      who: set<Ip>)
    requires Saved(before, now, cs, u) && Current(before, cs) && u.Keys == Unflagged(cs)
    requires forall c :: c in who <==> c in u && u[c] < CLIENT_UTILITY_THRESHOLD
    ensures now == FlagRows(before, who)
  {
    forall c | c in now ensures now[c] == if c in who then before[c].(flagged := true) else before[c] {
      if c in who {
        var i :| 0 <= i < |cs| && !cs[i].flagged && cs[i].ip == c;
        var j := LastCopyFrom(cs, i);
      }
    }
  }

  /** The copies that are left are still rows. */
  lemma {:induction false} StillCurrent(proxy: Proxy, w: Judge, clients: map<Ip, Client>, before: seq<Client>,
      after: seq<Client>)
    requires Judged(proxy, w, before, after) && Consistent(after) && Current(clients, before)
    ensures Current(FlagRows(clients, Unflagged(before) - Unflagged(after)), after)
  {
    forall i | IsLastCopy(after, i)
      ensures after[i].ip in clients && after[i].ip in Unflagged(after) && after[i] == clients[after[i].ip]
    {
      assert after[i] == before[i];
      forall j | i < j < |before| && !before[j].flagged ensures before[j].ip != before[i].ip {
        assert after[j].ip == before[j].ip;
      }
      assert IsLastCopy(before, i);
    }
  }

  lemma {:induction false} FlagRowsTwice(clients: map<Ip, Client>, all: set<Ip>, left: set<Ip>, fewer: set<Ip>)
    requires fewer <= left <= all
    ensures FlagRows(FlagRows(clients, all - left), left - fewer) == FlagRows(clients, all - fewer)
  {
  }

  lemma {:induction false} NobodyFlagged(clients: map<Ip, Client>, all: set<Ip>)
    ensures FlagRows(clients, all - all) == clients
  {
  }

  // ----- Rankings, entry by entry -----

  lemma {:induction false} RankedPrefers(keys: seq<Ip>, u: map<Ip, real>, x: Ip, y: Ip)
    requires NoDup(keys) && Elems(keys) == u.Keys && Prefers(Ranked(keys, u), x, y)
    ensures Before(keys, u, x, y)
  {
    var r := Ranked(keys, u);
    assert forall z :: z in keys ==> z in Elems(keys);
    RankedOrder(keys, u);
    assert Before(keys, u, r[IndexOf(r, x)], r[IndexOf(r, y)]);
  }

  lemma {:induction false} RankedElems(keys: seq<Ip>, u: map<Ip, real>)
    requires NoDup(keys) && Elems(keys) == u.Keys
    ensures NoDup(Ranked(keys, u)) && Elems(Ranked(keys, u)) == Elems(keys)
  {
    assert forall x :: x in keys ==> x in Elems(keys);
    RankedOrder(keys, u);
  }

  lemma {:induction false} WorthIs(sc: Scene, k: nat, u: map<Ip, real>, x: Ip)
    requires k < |sc.proxies| && x in u && forall ip :: ip in u ==> u[ip] == Worth(sc.w, sc.proxies[k], ip)
    ensures u[x] == Worth(sc.w, sc.proxies[k], x)
  {
  }

  lemma {:induction false} RankedByWorth(sc: Scene, k: nat, cs: seq<Client>, keys: seq<Ip>, u: map<Ip, real>)
    requires k < |sc.proxies| && NoDup(keys) && Elems(keys) == u.Keys
    requires forall ip :: ip in u ==> u[ip] == Worth(sc.w, sc.proxies[k], ip)
    requires SamePeople(sc.people, cs) && InListOrder(cs, keys)
    ensures ByWorth(sc, k, Ranked(keys, u))
  {
    hide Worth, NoDup;
    assert forall x :: x in keys ==> x in Elems(keys);
    hide Elems;
    forall x, y | Prefers(Ranked(keys, u), x, y) ensures ComesFirst(sc, k, x, y) {
      RankedPrefers(keys, u, x, y);
      SameFirst(sc.people, cs, x);
      SameFirst(sc.people, cs, y);
      var a, b := IndexOf(keys, y), IndexOf(keys, x);
      assert keys[a] == y && keys[b] == x && (a < b ==> FirstAt(cs, keys[a]) < FirstAt(cs, keys[b]));
      WorthIs(sc, k, u, x);
      WorthIs(sc, k, u, y);
    }
  }

  // ----- The proxies' side, row by row -----

  /** The rows that `Proxy.objects.filter(is_blocked=False, is_active=True, capacity__gt=0)` finds. */
  ghost predicate Available(proxies: seq<Proxy>, rows: seq<nat>) {
    && (forall k: nat :: k in rows <==> k < |proxies| && Free(proxies[k]))
    && (forall i, j :: 0 <= i < j < |rows| ==> rows[i] < rows[j])
  }

  /** How far the market goes when the first `i` available rows are done. */
  ghost function Reach(proxies: seq<Proxy>, rows: seq<nat>, i: nat): nat
    requires i <= |rows|
  {
    if i < |rows| then rows[i] else |proxies|
  }

  lemma {:induction false} RowExists(proxies: seq<Proxy>, rows: seq<nat>, i: nat)
    requires Available(proxies, rows) && i < |rows|
    ensures rows[i] < |proxies| && Free(proxies[rows[i]])
  {
    assert rows[i] in rows;
  }

  lemma {:induction false} NoneBetween(proxies: seq<Proxy>, rows: seq<nat>, i: nat)
    requires Available(proxies, rows) && i <= |rows|
    ensures (if i == 0 then 0 else rows[i - 1] + 1) <= Reach(proxies, rows, i) <= |proxies|
    ensures forall k: nat :: (if i == 0 then 0 else rows[i - 1] + 1) <= k < Reach(proxies, rows, i) ==>
      !Free(proxies[k])
  {
    if i < |rows| {
      RowExists(proxies, rows, i);
    }
    if i > 0 {
      RowExists(proxies, rows, i - 1);
    }
    forall k: nat | (if i == 0 then 0 else rows[i - 1] + 1) <= k < Reach(proxies, rows, i) ensures !Free(proxies[k]) {
      forall j | 0 <= j < |rows| ensures rows[j] != k {
        assert j < i - 1 ==> rows[j] < rows[i - 1];
      }
    }
  }

  lemma {:induction false} SideExtends(sc: Scene, k: nat, n: nat, prefs: map<Ip, seq<Ip>>, capacities: map<Ip, int>)
    requires k <= n <= |sc.proxies| && ProxySide(sc, k, prefs, capacities)
    requires forall j: nat :: k <= j < n ==> !Free(sc.proxies[j])
    ensures ProxySide(sc, n, prefs, capacities) && Standing(sc, n) == Standing(sc, k)
  {
    hide Offered, Worth;
  }

  lemma {:induction false} EmptySide(sc: Scene)
    ensures ProxySide(sc, 0, map[], map[]) && Standing(sc, 0) == Unflagged(sc.people)
  {
    hide Worth;
  }

  lemma {:induction false} SideNext(sc: Scene, k: nat, prefs: map<Ip, seq<Ip>>, capacities: map<Ip, int>,
      ranking: seq<Ip>)
    requires Distinct(sc.proxies) && k < |sc.proxies| && Free(sc.proxies[k]) && ProxySide(sc, k, prefs, capacities)
    requires NoDup(ranking) && Elems(ranking) == Standing(sc, k) && ByWorth(sc, k, ranking)
    ensures var proxy := sc.proxies[k];
      ProxySide(sc, k + 1, prefs[proxy.ip := ranking], capacities[proxy.ip := proxy.capacity])
  {
    hide NoDup, Elems, ByWorth, Standing;
    var proxy := sc.proxies[k];
    var prefs', capacities' := prefs[proxy.ip := ranking], capacities[proxy.ip := proxy.capacity];
    forall j: nat | j < k + 1 && Free(sc.proxies[j]) ensures Offered(sc, j, prefs', capacities') {
      if j < k {
        assert Offered(sc, j, prefs, capacities);
      }
    }
    forall ip | ip in prefs' ensures exists j: nat :: j < k + 1 && Free(sc.proxies[j]) && sc.proxies[j].ip == ip {
      if ip in prefs {
        var j: nat :| j < k && Free(sc.proxies[j]) && sc.proxies[j].ip == ip;
      }
    }
  }

  // ----- The clients' side -----

  /** The dictionary that a client's list is sorted from: the first `i` rows, in order. */
  ghost predicate RowsSoFar(proxies: seq<Proxy>, assignments: seq<Assignment>, distance: (Location, Location) -> real,
      place: Location, rows: seq<nat>, i: nat, keys: seq<Ip>, u: map<Ip, real>) {
    && i <= |rows| && |keys| == i && Elems(keys) == u.Keys
    && forall j :: 0 <= j < i ==>
         && rows[j] < |proxies| && keys[j] == proxies[rows[j]].ip && keys[j] in u
         && u[keys[j]] == ProxyUtility(proxies, assignments, distance, rows[j], place)
  }

  lemma {:induction false} NoRowsYet(proxies: seq<Proxy>, assignments: seq<Assignment>,
      distance: (Location, Location) -> real, place: Location, rows: seq<nat>)
    ensures RowsSoFar(proxies, assignments, distance, place, rows, 0, [], map[])
  {
  }

  lemma {:induction false} RowsNext(proxies: seq<Proxy>, assignments: seq<Assignment>,
      distance: (Location, Location) -> real, place: Location, rows: seq<nat>, i: nat, keys: seq<Ip>, u: map<Ip, real>)
    requires Available(proxies, rows) && Distinct(proxies) && i < |rows| && rows[i] < |proxies|
    requires RowsSoFar(proxies, assignments, distance, place, rows, i, keys, u)
    ensures proxies[rows[i]].ip !in u
    ensures RowsSoFar(proxies, assignments, distance, place, rows, i + 1, keys + [proxies[rows[i]].ip],
      u[proxies[rows[i]].ip := ProxyUtility(proxies, assignments, distance, rows[i], place)])
  {
    hide ProxyUtility;
    var ip := proxies[rows[i]].ip;
    forall j | 0 <= j < |keys| ensures keys[j] != ip {
      assert rows[j] < rows[i];
    }
    assert ip !in Elems(keys);
    assert Elems(keys + [ip]) == Elems(keys) + {ip};
  }

  lemma {:induction false} RowsRanked(proxies: seq<Proxy>, assignments: seq<Assignment>,
      distance: (Location, Location) -> real, place: Location, rows: seq<nat>, keys: seq<Ip>, u: map<Ip, real>)
    requires Available(proxies, rows) && Distinct(proxies)
    requires RowsSoFar(proxies, assignments, distance, place, rows, |rows|, keys, u)
    ensures NoDup(keys) && RanksAll(proxies, Ranked(keys, u))
    ensures ByProxyUtility(proxies, assignments, distance, place, Ranked(keys, u))
  {
    hide ProxyUtility;
    forall i, j | 0 <= i < j < |keys| ensures keys[i] != keys[j] {
      assert rows[i] < rows[j];
    }
    RankedElems(keys, u);
    RowsAreRanked(proxies, assignments, distance, place, rows, keys, u);
    forall k: nat, l: nat | k < |proxies| && l < |proxies| && Prefers(Ranked(keys, u), proxies[k].ip, proxies[l].ip)
      ensures RowComesFirst(proxies, assignments, distance, place, k, l)
    {
      PreferredRow(proxies, assignments, distance, place, rows, keys, u, k, l);
    }
  }

  lemma {:induction false} PreferredRow(proxies: seq<Proxy>, assignments: seq<Assignment>,
      distance: (Location, Location) -> real, place: Location, rows: seq<nat>, keys: seq<Ip>, u: map<Ip, real>,
      k: nat, l: nat)
    requires Available(proxies, rows) && Distinct(proxies) && NoDup(keys) && k < |proxies| && l < |proxies|
    requires RowsSoFar(proxies, assignments, distance, place, rows, |rows|, keys, u)
    requires Elems(Ranked(keys, u)) == Elems(keys)
    requires Prefers(Ranked(keys, u), proxies[k].ip, proxies[l].ip)
    ensures RowComesFirst(proxies, assignments, distance, place, k, l)
  {
    hide ProxyUtility, Ranked, NoDup;
    RankedPrefers(keys, u, proxies[k].ip, proxies[l].ip);
    var a, b := IndexOf(keys, proxies[k].ip), IndexOf(keys, proxies[l].ip);
    assert rows[a] == k && rows[b] == l;
  }

  lemma {:induction false} RowsAreRanked(proxies: seq<Proxy>, assignments: seq<Assignment>,
      distance: (Location, Location) -> real, place: Location, rows: seq<nat>, keys: seq<Ip>, u: map<Ip, real>)
    requires Available(proxies, rows) && RowsSoFar(proxies, assignments, distance, place, rows, |rows|, keys, u)
    requires NoDup(Ranked(keys, u)) && Elems(Ranked(keys, u)) == Elems(keys)
    ensures RanksAll(proxies, Ranked(keys, u))
  {
    hide ProxyUtility, NoDup;
    var r := Ranked(keys, u);
    forall ip ensures ip in r <==> exists k: nat :: k < |proxies| && Free(proxies[k]) && proxies[k].ip == ip {
      assert ip in r <==> ip in Elems(r);
      assert ip in keys <==> ip in Elems(keys);
      if ip in keys {
        var j :| 0 <= j < |keys| && keys[j] == ip;
        RowExists(proxies, rows, j);
      }
      if k: nat :| k < |proxies| && Free(proxies[k]) && proxies[k].ip == ip {
        assert k in rows;
        var j :| 0 <= j < |rows| && rows[j] == k;
        assert keys[j] in keys;
      }
    }
  }

  // ----- What the loops start from and end with -----

  lemma {:induction false} NoneInListOrder(cs: seq<Client>)
    ensures InListOrder(cs, [])
  {
  }

  lemma {:induction false} AllTheSame(cs: seq<Client>)
    ensures SamePeople(cs, cs)
  {
  }

  lemma {:induction false} ReachIs(proxies: seq<Proxy>, rows: seq<nat>, i: nat)
    requires i <= |rows|
    ensures Reach(proxies, rows, i) == if i < |rows| then rows[i] else |proxies|
  {
  }

  lemma {:induction false} KnownPeople(first: map<Ip, Client>, clients: map<Ip, Client>, who: set<Ip>,
      before: seq<Client>, after: seq<Client>)
    requires clients == FlagRows(first, who) && SamePeople(before, after)
    requires forall i :: 0 <= i < |before| ==> before[i].ip in first
    ensures forall i :: 0 <= i < |after| ==> after[i].ip in clients
  {
  }

  lemma {:induction false} SameKeys(clients: map<Ip, Client>, who: set<Ip>)
    ensures FlagRows(clients, who).Keys == clients.Keys
  {
  }

  lemma {:induction false} StillCurrentNext(proxy: Proxy, sc: Scene, first: map<Ip, Client>, were: map<Ip, Client>,
      all: set<Ip>, proposing: seq<Client>, before: seq<Client>, after: seq<Client>)
    requires Judged(proxy, sc.w, before, after) && Consistent(before) && SamePeople(proposing, before)
    requires were == FlagRows(first, all - Unflagged(before)) && Current(were, before) && Unflagged(before) <= all
    ensures Consistent(after) && SamePeople(proposing, after) && Unflagged(after) <= Unflagged(before)
    ensures var now := FlagRows(were, Unflagged(before) - Unflagged(after));
      Current(now, after) && now == FlagRows(first, all - Unflagged(after))
  {
    hide Judged, Consistent, SamePeople, Current, Unflagged, FlagRows;
    JudgedConsistent(proxy, sc.w, proposing, before, after);
    StillCurrent(proxy, sc.w, were, before, after);
    FlagRowsTwice(first, all, Unflagged(before), Unflagged(after));
  }

  lemma {:induction false} UnflaggedKnown(clients: map<Ip, Client>, cs: seq<Client>)
    requires forall i :: 0 <= i < |cs| ==> cs[i].ip in clients
    ensures Unflagged(cs) <= clients.Keys
  {
  }

  lemma {:induction false} StandingKnown(sc: Scene)
    ensures Standing(sc, |sc.proxies|) <= Unflagged(sc.people)
  {
    hide Worth;
  }

  /** Both sides make the market. */
  lemma {:induction false} SideKeys(sc: Scene, m: Market, who: set<Ip>)
    requires ProxySide(sc, |sc.proxies|, m.proxyPrefs, m.capacities) && ClientSide(sc, m.clientPrefs, who)
    requires who == Standing(sc, |sc.proxies|)
    ensures IsMarket(sc, m) && m.clientPrefs.Keys == who
  {
    hide ProxySide, Standing, RanksAll, ByProxyUtility;
  }

  lemma {:induction false} SceneIs(sc: Scene, proxies: seq<Proxy>, clients: map<Ip, Client>,
      assignments: seq<Assignment>, distance: (Location, Location) -> real, people: seq<Client>, now: int)
    requires IsScene(sc, proxies, clients, assignments, distance, people, now)
    ensures sc.proxies == proxies && sc.assignments == assignments && sc.people == people
  {
    hide HasUtilities;
  }
}
