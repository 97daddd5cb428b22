/** Who holds a proxy: no client ever has two assignments at proxies that are not blocked, so
    proxies that are not blocked have room for more clients than there are. */
module SimulationHolders {
  import opened Addresses
  import opened Lists
  import opened SimulationTables

  /** The assignment is to a proxy that is not blocked. */
  ghost predicate Live(proxies: seq<Proxy>, a: Assignment) {
    a.proxy.Row? && a.proxy.id < |proxies| && !proxies[a.proxy.id].isBlocked
  }

  /** The client has no live assignment. */
  ghost predicate Idle(proxies: seq<Proxy>, assignments: seq<Assignment>, c: Ip) {
    forall a :: a in assignments && Live(proxies, a) ==> a.client != c
  }

  /** No client has two live assignments. */
  ghost predicate Single(proxies: seq<Proxy>, assignments: seq<Assignment>) {
    assignments == [] ||
    var init, last := assignments[..|assignments| - 1], assignments[|assignments| - 1];
    Single(proxies, init) && (Live(proxies, last) ==> Idle(proxies, init, last.client))
  }

  lemma {:induction false} SingleAdd(proxies: seq<Proxy>, assignments: seq<Assignment>, a: Assignment)
    requires Single(proxies, assignments) && (Live(proxies, a) ==> Idle(proxies, assignments, a.client))
    ensures Single(proxies, assignments + [a])
  {
    assert (assignments + [a])[..|assignments|] == assignments;
  }

  /** Two live assignments of one client are one. */
  lemma {:induction false} SingleUnique(proxies: seq<Proxy>, assignments: seq<Assignment>, a: Assignment, b: Assignment)
    requires Single(proxies, assignments) && a in assignments && b in assignments
    requires Live(proxies, a) && Live(proxies, b) && a.client == b.client
    ensures a == b
  {
    var n := |assignments| - 1;
    assert assignments == assignments[..n] + [assignments[n]];
    if a in assignments[..n] && b in assignments[..n] {
      SingleUnique(proxies, assignments[..n], a, b);
    }
  }

  /** What holds while fewer assignments are live. */
  lemma {:induction false} SingleFewer(proxies: seq<Proxy>, other: seq<Proxy>, assignments: seq<Assignment>)
    requires Single(proxies, assignments)
    requires forall a :: a in assignments && Live(other, a) ==> Live(proxies, a)
    ensures Single(other, assignments)
  {
    if assignments != [] {
      var n := |assignments| - 1;
      assert assignments == assignments[..n] + [assignments[n]];
      SingleFewer(proxies, other, assignments[..n]);
    }
  }

  lemma {:induction false} SingleDeleted(proxies: seq<Proxy>, other: seq<Proxy>, assignments: seq<Assignment>, k: nat)
    requires Single(proxies, assignments)
    requires forall a :: a in assignments && a.proxy != Row(k) && Live(other, a) ==> Live(proxies, a)
    ensures Single(other, Deleted(assignments, k))
  {
    if assignments != [] {
      var n := |assignments| - 1;
      var init, last := assignments[..n], assignments[n];
      assert assignments == init + [last];
      SingleDeleted(proxies, other, init, k);
      if last.proxy == Row(k) {
        assert Deleted(assignments, k) == Deleted(init, k);
      } else {
        assert Deleted(assignments, k) == Deleted(init, k) + [last];
        SingleAdd(other, Deleted(init, k), last);
      }
    }
  }

  /** A new proxy has all its room. */
  lemma {:induction false} NewProxyRow(proxies: seq<Proxy>, clients: map<Ip, Client>, assignments: seq<Assignment>,
      row: Proxy)
    requires Linked(proxies, clients, assignments) && Conserved(proxies, assignments) && Single(proxies, assignments)
    requires AllActive(proxies) && row.capacity == MAX_PROXY_CAPACITY && row.isActive
    ensures var more := proxies + [row];
      Linked(more, clients, assignments) && Conserved(more, assignments) && Single(more, assignments) && AllActive(more)
  {
    hide Count, Single;
    CountNone(assignments, |proxies|);
    SingleFewer(proxies, proxies + [row], assignments);
  }

  // ----- Counting -----

  ghost function Clients(assignments: seq<Assignment>): set<Ip> {
    set a | a in assignments :: a.client
  }

  lemma {:induction false} OneEach(proxies: seq<Proxy>, assignments: seq<Assignment>)
    requires Single(proxies, assignments) && forall a :: a in assignments ==> Live(proxies, a)
    ensures |Clients(assignments)| == |assignments|
  {
    if assignments != [] {
      var n := |assignments| - 1;
      var init, last := assignments[..n], assignments[n];
      assert assignments == init + [last];
      OneEach(proxies, init);
      assert Clients(assignments) == Clients(init) + {last.client};
      assert last.client !in Clients(init);
    }
  }

  ghost function SumCounts(assignments: seq<Assignment>, n: nat): nat {
    if n == 0 then 0 else SumCounts(assignments, n - 1) + Count(assignments, n - 1)
  }

  lemma {:induction false} SumAdd(assignments: seq<Assignment>, a: Assignment, n: nat)
    ensures SumCounts(assignments + [a], n) ==
            SumCounts(assignments, n) + (if a.proxy.Row? && a.proxy.id < n then 1 else 0)
  {
    hide Count;
    if n > 0 {
      SumAdd(assignments, a, n - 1);
      CountAdd(assignments, a, n - 1);
    }
  }

  lemma {:induction false} SumNone(n: nat)
    ensures SumCounts([], n) == 0
  {
    if n > 0 {
      SumNone(n - 1);
    }
  }

  /** Every assignment is counted at one proxy. */
  lemma {:induction false} SumIsAll(assignments: seq<Assignment>, n: nat)
    requires forall a :: a in assignments ==> a.proxy.Row? && a.proxy.id < n
    ensures SumCounts(assignments, n) == |assignments|
  {
    if assignments == [] {
      SumNone(n);
    } else {
      var m := |assignments| - 1;
      assert assignments == assignments[..m] + [assignments[m]];
      SumIsAll(assignments[..m], n);
      SumAdd(assignments[..m], assignments[m], n);
    }
  }

  lemma {:induction false} SumFull(proxies: seq<Proxy>, assignments: seq<Assignment>, n: nat)
    requires n <= |proxies| && Conserved(proxies, assignments)
    requires forall k :: 0 <= k < n ==> proxies[k].capacity == 0
    ensures SumCounts(assignments, n) == MAX_PROXY_CAPACITY * n
  {
    hide Count;
    if n > 0 {
      SumFull(proxies, assignments, n - 1);
    }
  }

  /** If no proxy is blocked and all are active, and there are more places than clients, then
      some proxy has room. */
  lemma {:induction false} SomeoneHasRoom(proxies: seq<Proxy>, clients: map<Ip, Client>, assignments: seq<Assignment>)
    requires Linked(proxies, clients, assignments) && Conserved(proxies, assignments) && Single(proxies, assignments)
    requires forall k :: 0 <= k < |proxies| ==> proxies[k].isActive && !proxies[k].isBlocked
    requires |clients| < MAX_PROXY_CAPACITY * |proxies|
    ensures exists k :: 0 <= k < |proxies| && Free(proxies[k])
  {
    hide Count, SumCounts;
    if forall k :: 0 <= k < |proxies| ==> !Free(proxies[k]) {
      SumFull(proxies, assignments, |proxies|);
      SumIsAll(assignments, |proxies|);
      OneEach(proxies, assignments);
      SubsetBySize(Clients(assignments), clients.Keys);
    }
  }
}
