/** What repeated matching does to the loads of a fixed pool of proxies. */
module LoadBalance {
  import opened GoHeap

  // ----- One match, as a list of entries -----

  function Requeued<T>(h: seq<Entry<T>>): (r: seq<Entry<T>>)
    requires |h| > 0
    ensures |r| == |h|
  {
    Up(PopList(h), |h| - 1)
  }

  function RequeuedIndex<T>(h: seq<Entry<T>>): (i: nat)
    requires |h| > 0
    ensures i < |h|
  {
    UpIndex(PopList(h), |h| - 1)
  }

  /** The heap after a match, as a list of entries. */
  function Match<T>(h: seq<Entry<T>>): (r: seq<Entry<T>>)
    requires |h| > 0
    ensures |r| == |h|
  {
    Requeued(h)[RequeuedIndex(h) := Entry(h[0].item, h[0].key + 1)]
  }

  lemma {:induction false} RequeuedAt<T>(h: seq<Entry<T>>)
    requires |h| > 0
    ensures Requeued(h)[RequeuedIndex(h)] == h[0]
  {
    PoppedRoot(h);
    UpLands(PopList(h), |h| - 1);
  }

  lemma {:induction false} PoppedRoot<T>(h: seq<Entry<T>>)
    requires |h| > 0
    ensures var s, n := PopList(h), |h| - 1; s[n] == h[0] && s[..n] + [s[n]] == s
  {
    PopIsEvictRoot(h);
    EvictedLast(h, 0);
  }

  ghost predicate DistinctItems<T>(h: seq<Entry<T>>) {
    forall i, j :: 0 <= i < j < |h| ==> h[i].item != h[j].item
  }

  // ----- Order -----

  lemma {:induction false} RootIsLeastOfAll<T>(h: seq<Entry<T>>)
    requires IsHeap(h) && |h| > 0
    ensures forall e :: e in h ==> h[0].key <= e.key
  {
    forall e | e in h ensures h[0].key <= e.key {
      var k :| 0 <= k < |h| && h[k] == e;
      RootIsLeast(h, |h|, k);
    }
  }

  lemma {:induction false} PoppedHeap<T>(h: seq<Entry<T>>)
    requires IsHeap(h) && |h| > 0
    ensures HeapUpTo(PopList(h), |h| - 1)
  {
    PopIsEvictRoot(h);
    EvictedOrders(h, 0);
    hide Evicted, PopList;
    forall k | 1 <= k < |h| - 1 ensures Ordered(PopList(h), k) {
      assert Ordered(PopList(h)[..|h| - 1], k);
    }
  }

  lemma {:induction false} LeafIsExempt<T>(s: seq<Entry<T>>, n: nat)
    requires |s| == n + 1 && HeapUpTo(s, n)
    ensures HeapBut(s, n, |s|) && AboveChildren(s, n, |s|) && StrictlyAbove(s, n, s[n].key)
  {
  }

  lemma {:induction false} RequeuedHeap<T>(h: seq<Entry<T>>)
    requires IsHeap(h) && |h| > 0
    ensures IsHeap(Requeued(h)) && StrictlyAbove(Requeued(h), RequeuedIndex(h), h[0].key)
  {
    PoppedHeap(h);
    LeafIsExempt(PopList(h), |h| - 1);
    PoppedRoot(h);
    UpOrders(PopList(h), |h| - 1, |h|);
    UpLandsAbove(PopList(h), |h| - 1);
  }

  /** `Match` keeps the heap although it raises a key without sifting. */
  lemma {:induction false} MatchKeepsHeap<T>(h: seq<Entry<T>>)
    requires IsHeap(h) && |h| > 0
    ensures IsHeap(Match(h))
  {
    RequeuedHeap(h);
    RequeuedAt(h);
    RaisedKeepsHeap(Requeued(h), RequeuedIndex(h));
  }

  ghost function Charged<T>(e: Entry<T>): Entry<T> {
    Entry(e.item, e.key + 1)
  }

  lemma {:induction false} RequeuedMembers<T>(h: seq<Entry<T>>)
    requires |h| > 0
    ensures multiset(Requeued(h)) == multiset(h)
  {
    PopIsEvictRoot(h);
    EvictedMembers(h, 0);
    UpMembers(PopList(h), |h| - 1);
  }

  /** A match replaces the root entry by the same entry with one more client. */
  lemma {:induction false} MatchMembers<T>(h: seq<Entry<T>>)
    requires |h| > 0
    ensures multiset(Match(h)) == multiset(h) - multiset{h[0]} + multiset{Charged(h[0])}
  {
    RequeuedMembers(h);
    RequeuedAt(h);
    assert Match(h) == Requeued(h)[RequeuedIndex(h) := Charged(h[0])];
  }

  lemma {:induction false} MatchEntry<T>(h: seq<Entry<T>>, e: Entry<T>)
    requires |h| > 0 && e in h
    ensures (if e == h[0] then Charged(e) else e) in Match(h)
  {
    MatchMembers(h);
    assert e in multiset(h);
    assert (if e == h[0] then Charged(e) else e) in multiset(Match(h));
  }

  lemma {:induction false} MatchedEntry<T>(h: seq<Entry<T>>, e: Entry<T>)
    requires |h| > 0 && e in Match(h)
    ensures e in h || e == Charged(h[0])
  {
    MatchMembers(h);
    assert e in multiset(Match(h));
  }

  // ----- Distinct items -----

  lemma {:induction false} UpDistinct<T>(h: seq<Entry<T>>, j: nat)
    requires j < |h| && DistinctItems(h)
    ensures DistinctItems(Up(h, j))
    decreases j
  {
    if j == 0 || !(h[j].key < h[Parent(j)].key) {
    } else {
      UpDistinct(Swapped(h, Parent(j), j), Parent(j));
    }
  }

  lemma {:induction false} DownDistinct<T>(h: seq<Entry<T>>, i: nat, n: nat)
    requires i < n <= |h| && DistinctItems(h)
    ensures DistinctItems(Down(h, i, n))
    decreases n - i
  {
    if Sinks(h, i, n) {
      var j := LesserChild(h, i, n);
      DownDistinct(Swapped(h, i, j), j, n);
    }
  }

  lemma {:induction false} MatchDistinct<T>(h: seq<Entry<T>>)
    requires |h| > 0 && DistinctItems(h)
    ensures DistinctItems(Match(h))
  {
    var n := |h| - 1;
    if n > 0 { DownDistinct(Swapped(h, 0, n), 0, n); }
    UpDistinct(PopList(h), n);
    RequeuedAt(h);
  }

  lemma {:induction false} ItemDecides<T>(h: seq<Entry<T>>, a: Entry<T>, b: Entry<T>)
    requires DistinctItems(h) && a in h && b in h && a.item == b.item
    ensures a == b
  {
  }

  // ----- Runs of matches -----

  /** The pool after `n` matches. */
  ghost function Matches<T>(h: seq<Entry<T>>, n: nat): (r: seq<Entry<T>>)
    requires |h| > 0
    ensures |r| == |h|
  {
    if n == 0 then h else Match(Matches(h, n - 1))
  }

  /** The proxies handed out by the first `n` matches, in order. */
  ghost function Chosen<T>(h: seq<Entry<T>>, n: nat): (r: seq<T>)
    requires |h| > 0
    ensures |r| == n
  {
    if n == 0 then [] else Chosen(h, n - 1) + [Matches(h, n - 1)[0].item]
  }

  ghost predicate Least<T>(h: seq<Entry<T>>, e: Entry<T>) {
    e in h && forall i :: 0 <= i < |h| ==> e.key <= h[i].key
  }

  lemma {:induction false} RunKeepsHeap<T>(h: seq<Entry<T>>, n: nat)
    requires |h| > 0 && IsHeap(h) && DistinctItems(h)
    ensures IsHeap(Matches(h, n)) && DistinctItems(Matches(h, n))
    ensures Least(Matches(h, n), Matches(h, n)[0])
  {
    if n == 0 {
    } else {
      RunKeepsHeap(h, n - 1);
      MatchKeepsHeap(Matches(h, n - 1));
      MatchDistinct(Matches(h, n - 1));
    }
    var s := Matches(h, n);
    forall i | 0 <= i < |s| ensures s[0].key <= s[i].key {
      RootIsLeast(s, |s|, i);
    }
  }

  /** Entry `e` after the items of `chosen` were each charged one client. */
  ghost function After<T>(e: Entry<T>, chosen: seq<T>): Entry<T> {
    Entry(e.item, e.key + multiset(chosen)[e.item])
  }

  lemma {:induction false} CountStep<T>(s: seq<Entry<T>>, chosen: seq<T>, e: Entry<T>)
    requires |s| > 0 && DistinctItems(s) && After(e, chosen) in s
    ensures After(e, chosen + [s[0].item]) in Match(s)
  {
    var now := After(e, chosen);
    MatchEntry(s, now);
    if now.item == s[0].item { ItemDecides(s, now, s[0]); }
  }

  /** Every proxy carries its first load plus once for every time it was chosen. */
  lemma {:induction false} LoadsCounted<T>(h: seq<Entry<T>>, n: nat, e: Entry<T>)
    requires |h| > 0 && IsHeap(h) && DistinctItems(h) && e in h
    ensures After(e, Chosen(h, n)) in Matches(h, n)
  {
    if n == 0 {
    } else {
      LoadsCounted(h, n - 1, e);
      RunKeepsHeap(h, n - 1);
      CountStep(Matches(h, n - 1), Chosen(h, n - 1), e);
    }
  }

  /** No proxy in `chosen` carries more than the least load plus one. */
  ghost predicate Balanced<T>(h: seq<Entry<T>>, chosen: seq<T>)
    requires |h| > 0
  {
    forall i :: 0 <= i < |h| && h[i].item in chosen ==> h[i].key <= h[0].key + 1
  }

  lemma {:induction false} BalanceStep<T>(s: seq<Entry<T>>, chosen: seq<T>)
    requires |s| > 0 && Least(s, s[0]) && DistinctItems(Match(s)) && Balanced(s, chosen)
    ensures Balanced(Match(s), chosen + [s[0].item])
  {
    var r := Match(s);
    MatchedEntry(s, r[0]);
    MatchEntry(s, s[0]);
    hide Match;
    forall i | 0 <= i < |r| && r[i].item in chosen + [s[0].item] ensures r[i].key <= r[0].key + 1 {
      MatchedEntry(s, r[i]);
      if r[i].item == s[0].item { ItemDecides(r, r[i], Charged(s[0])); }
    }
  }

  /** After any number of matches, a proxy chosen at least once carries at most one
      client more than the least loaded proxy. */
  lemma {:induction false} RunIsBalanced<T>(h: seq<Entry<T>>, n: nat)
    requires |h| > 0 && IsHeap(h) && DistinctItems(h)
    ensures Balanced(Matches(h, n), Chosen(h, n))
    ensures Least(Matches(h, n), Matches(h, n)[0])
  {
    RunKeepsHeap(h, n);
    if n == 0 {
    } else {
      RunIsBalanced(h, n - 1);
      BalanceStep(Matches(h, n - 1), Chosen(h, n - 1));
    }
  }

  ghost function Total<T>(h: seq<Entry<T>>): int {
    if h == [] then 0 else h[0].key + Total(h[1..])
  }

  lemma {:induction false} TotalUpdate<T>(h: seq<Entry<T>>, i: nat, e: Entry<T>)
    requires i < |h|
    ensures Total(h[i := e]) == Total(h) - h[i].key + e.key
  {
    if i == 0 {
      assert h[i := e] == [e] + h[1..];
    } else {
      assert h[i := e][1..] == h[1..][i - 1 := e];
      TotalUpdate(h[1..], i - 1, e);
    }
  }

  lemma {:induction false} TotalSwapped<T>(h: seq<Entry<T>>, i: nat, j: nat)
    requires i < |h| && j < |h|
    ensures Total(Swapped(h, i, j)) == Total(h)
  {
    TotalUpdate(h, i, h[j]);
    TotalUpdate(h[i := h[j]], j, h[i]);
  }

  lemma {:induction false} TotalUp<T>(h: seq<Entry<T>>, j: nat)
    requires j < |h|
    ensures Total(Up(h, j)) == Total(h)
    decreases j
  {
    if j == 0 || !(h[j].key < h[Parent(j)].key) {
    } else {
      TotalSwapped(h, Parent(j), j);
      TotalUp(Swapped(h, Parent(j), j), Parent(j));
    }
  }

  lemma {:induction false} TotalDown<T>(h: seq<Entry<T>>, i: nat, n: nat)
    requires i < n <= |h|
    ensures Total(Down(h, i, n)) == Total(h)
    decreases n - i
  {
    if Sinks(h, i, n) {
      TotalSwapped(h, i, LesserChild(h, i, n));
      TotalDown(Swapped(h, i, LesserChild(h, i, n)), LesserChild(h, i, n), n);
    }
  }

  lemma {:induction false} TotalRequeued<T>(s: seq<Entry<T>>)
    requires |s| > 0
    ensures Total(Requeued(s)) == Total(s)
  {
    var n := |s| - 1;
    TotalSwapped(s, 0, n);
    if n > 0 { TotalDown(Swapped(s, 0, n), 0, n); }
    TotalUp(PopList(s), n);
  }

  lemma {:induction false} TotalMatch<T>(s: seq<Entry<T>>)
    requires |s| > 0
    ensures Total(Match(s)) == Total(s) + 1
  {
    TotalRequeued(s);
    RequeuedAt(s);
    hide Requeued, RequeuedIndex;
    var r, i := Requeued(s), RequeuedIndex(s);
    assert r[i].key == s[0].key;
    TotalUpdate(r, i, Charged(s[0]));
  }

  /** `n` matches add exactly `n` clients to the pool. */
  lemma {:induction false} TotalGrows<T>(h: seq<Entry<T>>, n: nat)
    requires |h| > 0
    ensures Total(Matches(h, n)) == Total(h) + n
  {
    if n == 0 {
    } else {
      TotalGrows(h, n - 1);
      TotalMatch(Matches(h, n - 1));
    }
  }
}
