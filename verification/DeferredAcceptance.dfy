/** The deferred acceptance matcher: clients propose to proxies in the order of
    their own preference lists, proxies keep the clients they rank highest. */
module DeferredAcceptance {
  import opened Lists

  import Addresses

  /** Clients and proxies are named by their addresses. */
  type Id = Addresses.Ip

  type Matching = map<Id, seq<Id>>

  datatype Market = Market(
    clientPrefs: map<Id, seq<Id>>,
    proxyPrefs: map<Id, seq<Id>>,
    capacities: map<Id, int>)

  /** The exceptions the matcher's lookups can raise. */
  datatype LookupError = MissingKey | NotRanked | EmptyResult

  datatype Outcome = Matched(results: Matching) | Failed(error: LookupError)

  // ----- What the matcher demands of its inputs, and what it promises -----

  /** No list has repeats; a proxy that some client lists exists, has room for
      at least one client and ranks that client. */
  ghost predicate WellFormed(m: Market) {
    && (forall p :: p in m.proxyPrefs ==> NoDup(m.proxyPrefs[p]))
    && (forall c :: c in m.clientPrefs ==> NoDup(m.clientPrefs[c]))
    && (forall c, p :: c in m.clientPrefs && p in m.clientPrefs[c] ==> Acceptable(m, c, p))
  }

  ghost predicate Acceptable(m: Market, c: Id, p: Id) {
    && p in m.capacities && m.capacities[p] >= 1
    && p in m.proxyPrefs && c in m.proxyPrefs[p]
  }

  ghost predicate Prefers(ranking: seq<Id>, x: Id, y: Id) {
    x in ranking && y in ranking && IndexOf(ranking, x) < IndexOf(ranking, y)
  }

  ghost predicate InRankOrder(ranking: seq<Id>, l: seq<Id>) {
    && (forall i :: 0 <= i < |l| ==> l[i] in ranking)
    && (forall i, j :: 0 <= i < j < |l| ==> Prefers(ranking, l[i], l[j]))
  }

  ghost predicate Placed(r: Matching, c: Id, p: Id) {
    p in r && c in r[p]
  }

  /** A proxy's list: ranked clients only, best first, within the capacity. */
  ghost predicate Roster(m: Market, p: Id, l: seq<Id>) {
    l == [] || (p in m.capacities && |l| <= m.capacities[p] && p in m.proxyPrefs && InRankOrder(m.proxyPrefs[p], l))
  }

  ghost predicate Feasible(m: Market, r: Matching) {
    && r.Keys == m.capacities.Keys
    && (forall p :: p in r ==> NoDup(r[p]) && (r[p] == [] || |r[p]| <= m.capacities[p]))
    && (forall c, p :: Placed(r, c, p) ==>
          c in m.clientPrefs && p in m.clientPrefs[c] && p in m.proxyPrefs && c in m.proxyPrefs[p])
    && (forall c, p, q :: Placed(r, c, p) && Placed(r, c, q) ==> p == q)
  }

  /** Client `c` and proxy `p` would both rather have each other. */
  ghost predicate Blocks(m: Market, r: Matching, c: Id, p: Id) {
    && c in m.clientPrefs && p in m.clientPrefs[c] && p in m.proxyPrefs && c in m.proxyPrefs[p]
    && p in r && p in m.capacities
    && c !in r[p]
    && (forall q :: Placed(r, c, q) ==> Prefers(m.clientPrefs[c], p, q))
    && (|r[p]| < m.capacities[p] || exists d :: d in r[p] && Prefers(m.proxyPrefs[p], c, d))
  }

  ghost predicate Stable(m: Market, r: Matching) {
    Feasible(m, r) && forall c, p :: !Blocks(m, r, c, p)
  }

  ghost predicate AtLeastAsGood(ranking: seq<Id>, p: Id, q: Id) {
    p == q || Prefers(ranking, p, q)
  }

  /** `r` gives client `c` something at least as good as `other` does. */
  ghost predicate DoesAsWell(m: Market, r: Matching, other: Matching, c: Id) {
    forall q :: Placed(other, c, q) ==>
      c in m.clientPrefs && exists p :: Placed(r, c, p) && AtLeastAsGood(m.clientPrefs[c], p, q)
  }

  ghost predicate ClientOptimal(m: Market, r: Matching) {
    forall other, c :: Stable(m, other) ==> DoesAsWell(m, r, other, c)
  }

  ghost predicate Sorted(m: Market, r: Matching) {
    forall p :: p in r ==> Roster(m, p, r[p])
  }

  // ----- The invariant of a run -----

  /** Preference lists as consumed so far, the waiting list, and the lists of the proxies. */
  datatype State = State(remaining: map<Id, seq<Id>>, waiting: seq<Id>, results: Matching)

  ghost predicate IsTail(rest: seq<Id>, whole: seq<Id>) {
    |rest| <= |whole| && rest == whole[|whole| - |rest|..]
  }

  ghost predicate Shape(m: Market, st: State) {
    && st.remaining.Keys == m.clientPrefs.Keys
    && st.results.Keys == m.capacities.Keys
    && NoDup(st.waiting)
    && (forall c :: c in st.waiting ==> c in m.clientPrefs)
    && (forall c :: c in m.clientPrefs ==> IsTail(st.remaining[c], m.clientPrefs[c]))
    && Sorted(m, st.results)
  }

  /** How many proxies `c` has proposed to. */
  ghost function Proposals(m: Market, st: State, c: Id): nat
    requires Shape(m, st) && c in m.clientPrefs
  {
    |m.clientPrefs[c]| - |st.remaining[c]|
  }

  ghost predicate Unplaced(r: Matching, c: Id) {
    forall p :: !Placed(r, c, p)
  }

  ghost predicate SeatedAt(prefs: seq<Id>, rest: seq<Id>, p: Id) {
    |rest| < |prefs| && prefs[|prefs| - |rest| - 1] == p
  }

  /** A placed client sits with the proxy it proposed to last. */
  ghost predicate Seated(m: Market, st: State)
    requires Shape(m, st)
  {
    forall c, p :: Placed(st.results, c, p) ==>
      c in m.clientPrefs && SeatedAt(m.clientPrefs[c], st.remaining[c], p)
  }

  /** A waiting client has no place; a client with neither has exhausted its list. */
  ghost predicate Accounted(m: Market, st: State)
    requires Shape(m, st)
  {
    && (forall c :: c in st.waiting ==> Unplaced(st.results, c))
    && (forall c :: c in m.clientPrefs && c !in st.waiting && Unplaced(st.results, c) ==> st.remaining[c] == [])
  }

  ghost predicate Full(m: Market, r: Matching, p: Id, c: Id) {
    && p in r && p in m.capacities && p in m.proxyPrefs
    && |r[p]| == m.capacities[p]
    && (forall d :: d in r[p] ==> Prefers(m.proxyPrefs[p], d, c))
  }

  /** No stable matching places `c` with `p`. */
  ghost predicate Unachievable(m: Market, c: Id, p: Id) {
    forall other :: Stable(m, other) ==> !Placed(other, c, p)
  }

  /** `p` either has `c`, or turned `c` away for good. */
  ghost predicate Settled(m: Market, r: Matching, c: Id, p: Id) {
    Placed(r, c, p) || (Full(m, r, p, c) && Unachievable(m, c, p))
  }

  /** The first `n` choices of `c` are settled. */
  ghost predicate SettledUpTo(m: Market, r: Matching, c: Id, n: int) {
    c in m.clientPrefs && n <= |m.clientPrefs[c]| &&
    forall i :: 0 <= i < n ==> Settled(m, r, c, m.clientPrefs[c][i])
  }

  ghost predicate Refusals(m: Market, st: State)
    requires Shape(m, st)
  {
    forall c :: c in m.clientPrefs ==> SettledUpTo(m, st.results, c, Proposals(m, st, c))
  }

  ghost predicate Inv(m: Market, st: State) {
    Shape(m, st) && Seated(m, st) && Accounted(m, st) && Refusals(m, st)
  }

  // ----- Rank order -----

  lemma {:induction false} KeepInRankOrder(ranking: seq<Id>, keep: seq<Id>)
    requires NoDup(ranking)
    ensures InRankOrder(ranking, KeepIn(ranking, keep))
  {
    if ranking == [] {
    } else {
      var rest := KeepIn(ranking[1..], keep);
      KeepInRankOrder(ranking[1..], keep);
      forall x | x in ranking[1..] ensures x in ranking && IndexOf(ranking, x) == 1 + IndexOf(ranking[1..], x) {
        assert ranking[0] != x;
      }
    }
  }

  lemma {:induction false} RankOrderNoDup(ranking: seq<Id>, l: seq<Id>)
    requires InRankOrder(ranking, l)
    ensures NoDup(l)
  {
    forall i, j | 0 <= i < j < |l| ensures l[i] != l[j] {
      assert Prefers(ranking, l[i], l[j]);
    }
  }

  /** Adding a ranked newcomer to a roster and sorting again adds exactly that client. */
  lemma {:induction false} InsertRanked(ranking: seq<Id>, l: seq<Id>, c: Id)
    requires NoDup(ranking) && InRankOrder(ranking, l) && c in ranking && c !in l
    ensures var r := KeepIn(ranking, l + [c]);
      InRankOrder(ranking, r) && |r| == |l| + 1 && (forall x :: x in r <==> x in l || x == c)
  {
    var r := KeepIn(ranking, l + [c]);
    KeepInRankOrder(ranking, l + [c]);
    RankOrderNoDup(ranking, r);
    RankOrderNoDup(ranking, l);
    NoDupCardinality(r);
    NoDupCardinality(l);
    assert Elems(r) == Elems(l) + {c};
  }

  lemma {:induction false} FirstRanksBest(ranking: seq<Id>, l: seq<Id>, x: Id)
    requires InRankOrder(ranking, l) && x in l
    ensures l[0] == x || Prefers(ranking, l[0], x)
  {
    var i :| 0 <= i < |l| && l[i] == x;
    assert i == 0 || Prefers(ranking, l[0], l[i]);
  }

  lemma {:induction false} LastRanksWorst(ranking: seq<Id>, l: seq<Id>, x: Id)
    requires InRankOrder(ranking, l) && x in l
    ensures l[|l| - 1] == x || Prefers(ranking, x, l[|l| - 1])
  {
    var i :| 0 <= i < |l| && l[i] == x;
    assert i == |l| - 1 || Prefers(ranking, l[i], l[|l| - 1]);
  }

  lemma {:induction false} EmptyTogether(a: seq<Id>, b: seq<Id>)
    requires forall x :: x in a <==> x in b
    ensures a == [] <==> b == []
  {
    if |a| > 0 {
      assert a[0] in b;
    }
    if |b| > 0 {
      assert b[0] in a;
    }
  }

  /** Two lists in the same rank order with the same members are the same list. */
  lemma {:induction false} RankOrderUnique(ranking: seq<Id>, a: seq<Id>, b: seq<Id>)
    requires InRankOrder(ranking, a) && InRankOrder(ranking, b)
    requires forall x :: x in a <==> x in b
    ensures a == b
  {
    if a == [] || b == [] {
      assert forall x :: x !in a <==> x !in b;
      EmptyTogether(a, b);
    } else {
      FirstRanksBest(ranking, a, b[0]);
      FirstRanksBest(ranking, b, a[0]);
      RankOrderNoDup(ranking, a);
      RankOrderNoDup(ranking, b);
      assert a == [a[0]] + a[1..] && b == [b[0]] + b[1..];
      forall x ensures x in a[1..] <==> x in b[1..] {
        assert x in a[1..] <==> x in a && x != a[0];
        assert x in b[1..] <==> x in b && x != b[0];
      }
      RankOrderUnique(ranking, a[1..], b[1..]);
    }
  }

  // ----- Why a refusal is final -----

  /** Nothing `c` prefers to `p` is within its reach. */
  ghost predicate BestLeft(m: Market, c: Id, p: Id) {
    && c in m.clientPrefs && p in m.clientPrefs[c]
    && (forall q :: Prefers(m.clientPrefs[c], q, p) ==> Unachievable(m, c, q))
  }

  /** If a proxy can fill its places with clients that it prefers to `c` and for which
      it is the best left, then no stable matching gives it `c`. */
  lemma {:induction false} CrowdedOut(m: Market, p: Id, c: Id, roster: seq<Id>)
    requires WellFormed(m)
    requires p in m.capacities && p in m.proxyPrefs && InRankOrder(m.proxyPrefs[p], roster)
    requires |roster| == m.capacities[p]
    requires forall d :: d in roster ==> Prefers(m.proxyPrefs[p], d, c) && BestLeft(m, d, p)
    ensures Unachievable(m, c, p)
  {
    forall other | Stable(m, other) && Placed(other, c, p) ensures false {
      RankOrderNoDup(m.proxyPrefs[p], roster);
      NoDupCardinality(roster);
      NoDupCardinality(other[p]);
      if d :| d in roster && d !in other[p] {
        forall q | Placed(other, d, q) ensures Prefers(m.clientPrefs[d], p, q) {
          assert !Prefers(m.clientPrefs[d], q, p);
          assert IndexOf(m.clientPrefs[d], q) != IndexOf(m.clientPrefs[d], p);
        }
        assert Prefers(m.proxyPrefs[p], d, c);
        assert Blocks(m, other, d, p);
      } else {
        assert c !in roster;
        assert Elems(roster) + {c} <= Elems(other[p]);
        SubsetBySize(Elems(roster) + {c}, Elems(other[p]));
      }
      assert false;
    }
  }

  /** A client seated at `p` has been refused by everything it prefers to `p`. */
  lemma {:induction false} SeatedIsBestLeft(m: Market, st: State, c: Id, p: Id)
    requires WellFormed(m) && Inv(m, st) && Placed(st.results, c, p)
    ensures BestLeft(m, c, p)
  {
    var prefs := m.clientPrefs[c];
    IndexOfAt(prefs, Proposals(m, st, c) - 1);
    forall q | Prefers(prefs, q, p) ensures Unachievable(m, c, q) {
      assert q == prefs[IndexOf(prefs, q)];
    }
  }

  /** A waiting client has been refused by everything it prefers to its next choice. */
  lemma {:induction false} NextIsBestLeft(m: Market, st: State, c: Id)
    requires WellFormed(m) && Inv(m, st) && c in st.waiting && st.remaining[c] != []
    ensures BestLeft(m, c, st.remaining[c][0])
  {
    var prefs := m.clientPrefs[c];
    var k := Proposals(m, st, c);
    assert prefs[k] == st.remaining[c][0];
    IndexOfAt(prefs, k);
    forall q | Prefers(prefs, q, prefs[k]) ensures Unachievable(m, c, q) {
      assert q == prefs[IndexOf(prefs, q)];
    }
  }

  // ----- One turn of the inner loop -----

  lemma {:induction false} InitInv(m: Market, order: seq<Id>, results: Matching)
    requires WellFormed(m) && NoDup(order) && Elems(order) == m.clientPrefs.Keys
    requires results == map p | p in m.capacities :: []
    ensures Inv(m, State(m.clientPrefs, order, results))
  {
    assert forall c :: c in order <==> c in Elems(order);
  }

  lemma {:induction false} InitBooks(m: Market, order: seq<Id>, results: Matching)
    requires Elems(order) == m.clientPrefs.Keys
    requires results == map p | p in m.capacities :: []
    ensures Books(m, order, State(m.clientPrefs, order, results))
  {
    assert forall c :: c in order <==> c in Elems(order);
  }

  lemma {:induction false} ExhaustedKeepsInv(m: Market, st: State, c: Id)
    requires WellFormed(m) && Inv(m, st) && c in st.waiting && st.remaining[c] == []
    ensures Inv(m, st.(waiting := Without(st.waiting, c)))
  {
  }

  /** The state after `c` proposed to `p`, whose roster is `roster` from then on. */
  function Proposed(st: State, c: Id, p: Id, roster: seq<Id>, waiting: seq<Id>): State
    requires c in st.remaining && st.remaining[c] != []
  {
    State(st.remaining[c := st.remaining[c][1..]], waiting, st.results[p := roster])
  }

  /** `c` waits and its next choice is `p`. */
  ghost predicate Proposes(m: Market, st: State, c: Id, p: Id) {
    && Shape(m, st) && c in st.waiting
    && c in st.remaining && st.remaining[c] != [] && p == st.remaining[c][0]
    && p in st.results && p in m.proxyPrefs && c in m.proxyPrefs[p] && m.capacities[p] >= 1
  }

  /** The proxy keeps some of its roster and the proposer; whoever it does not keep waits. */
  ghost predicate Rearranged(m: Market, st: State, c: Id, p: Id, roster: seq<Id>, waiting: seq<Id>)
    requires Proposes(m, st, c, p)
  {
    && Roster(m, p, roster)
    && NoDup(waiting)
    && (forall x :: x in roster ==> x in st.results[p] || x == c)
    && (forall x :: x in waiting <==>
          (x in st.waiting && (x == c ==> c !in roster)) || (x in st.results[p] && x !in roster))
  }

  lemma {:induction false} TailAfterPop(rest: seq<Id>, whole: seq<Id>)
    requires IsTail(rest, whole) && rest != []
    ensures IsTail(rest[1..], whole)
    ensures whole[|whole| - |rest|] == rest[0]
  {
  }

  lemma {:induction false} ProposalShape(m: Market, st: State, c: Id, p: Id, roster: seq<Id>, waiting: seq<Id>)
    requires Proposes(m, st, c, p) && Seated(m, st) && Rearranged(m, st, c, p, roster, waiting)
    ensures Shape(m, Proposed(st, c, p, roster, waiting))
  {
    TailAfterPop(st.remaining[c], m.clientPrefs[c]);
    forall x | x in waiting ensures x in m.clientPrefs {
      assert x in st.waiting || Placed(st.results, x, p);
    }
  }

  lemma {:induction false} StaysSeated(m: Market, st: State, c: Id, p: Id, roster: seq<Id>, d: Id, q: Id)
    requires Proposes(m, st, c, p) && Seated(m, st) && Unplaced(st.results, c)
    requires d in roster ==> d in st.results[p] || d == c
    requires Placed(st.results[p := roster], d, q)
    ensures d in m.clientPrefs
    ensures SeatedAt(m.clientPrefs[d], if d == c then st.remaining[c][1..] else st.remaining[d], q)
  {
    TailAfterPop(st.remaining[c], m.clientPrefs[c]);
    hide NoDup, IsTail, Sorted;
    if d == c {
      assert !Placed(st.results, d, q);
    } else {
      assert Placed(st.results, d, q);
    }
  }

  lemma {:induction false} ProposalSeated(m: Market, st: State, c: Id, p: Id, roster: seq<Id>, waiting: seq<Id>)
    requires Proposes(m, st, c, p) && Seated(m, st) && Accounted(m, st) && Rearranged(m, st, c, p, roster, waiting)
    requires Shape(m, Proposed(st, c, p, roster, waiting))
    ensures Seated(m, Proposed(st, c, p, roster, waiting))
  {
    hide NoDup, IsTail, Sorted, Roster, SeatedAt;
    var st' := Proposed(st, c, p, roster, waiting);
    forall d, q | Placed(st'.results, d, q)
      ensures d in m.clientPrefs && SeatedAt(m.clientPrefs[d], st'.remaining[d], q)
    {
      StaysSeated(m, st, c, p, roster, d, q);
    }
  }

  lemma {:induction false} ProposalAccounted(m: Market, st: State, c: Id, p: Id, roster: seq<Id>, waiting: seq<Id>)
    requires Proposes(m, st, c, p) && Seated(m, st) && Accounted(m, st) && Rearranged(m, st, c, p, roster, waiting)
    requires Shape(m, Proposed(st, c, p, roster, waiting))
    ensures Accounted(m, Proposed(st, c, p, roster, waiting))
  {
    var st' := Proposed(st, c, p, roster, waiting);
    assert !Placed(st.results, c, p);
    forall d, q | d in waiting ensures !Placed(st'.results, d, q) {
      if d in st.waiting {
        assert !Placed(st.results, d, q) && !Placed(st.results, d, p);
      } else {
        assert Placed(st.results, d, p);
        assert Placed(st.results, d, q) ==> q == p;
      }
    }
    forall d | d in m.clientPrefs && d !in waiting && Unplaced(st'.results, d)
      ensures st'.remaining[d] == []
    {
      assert !Placed(st'.results, d, p);
      assert d !in st.waiting && d != c;
      forall q ensures !Placed(st.results, d, q) {
        assert !Placed(st'.results, d, q);
      }
      assert Unplaced(st.results, d);
    }
  }

  lemma {:induction false} SettledPersists(m: Market, r: Matching, p: Id, roster: seq<Id>, d: Id, n: int)
    requires p in r && SettledUpTo(m, r, d, n)
    requires d in r[p] && d !in roster ==> Full(m, r[p := roster], p, d) && Unachievable(m, d, p)
    requires Full(m, r, p, d) ==> Full(m, r[p := roster], p, d)
    ensures SettledUpTo(m, r[p := roster], d, n)
  {
    hide Unachievable, NoDup;
    forall i | 0 <= i < n ensures Settled(m, r[p := roster], d, m.clientPrefs[d][i]) {
      assert Settled(m, r, d, m.clientPrefs[d][i]);
    }
  }

  lemma {:induction false} SettledExtends(m: Market, r: Matching, c: Id, n: nat)
    requires SettledUpTo(m, r, c, n) && n < |m.clientPrefs[c]| && Settled(m, r, c, m.clientPrefs[c][n])
    ensures SettledUpTo(m, r, c, n + 1)
  {
  }

  lemma {:induction false} ProposalRefusals(m: Market, st: State, c: Id, p: Id, roster: seq<Id>, waiting: seq<Id>)
    requires Proposes(m, st, c, p) && Seated(m, st) && Refusals(m, st) && Rearranged(m, st, c, p, roster, waiting)
    requires Shape(m, Proposed(st, c, p, roster, waiting))
    requires forall d :: (d in st.results[p] || d == c) && d !in roster ==>
      Full(m, st.results[p := roster], p, d) && Unachievable(m, d, p)
    requires forall d :: Full(m, st.results, p, d) ==> Full(m, st.results[p := roster], p, d)
    ensures Refusals(m, Proposed(st, c, p, roster, waiting))
  {
    var st' := Proposed(st, c, p, roster, waiting);
    TailAfterPop(st.remaining[c], m.clientPrefs[c]);
    assert Settled(m, st'.results, c, p);
    hide Seated, Full, Unachievable, Rearranged, NoDup, Sorted, Settled, SettledUpTo, IsTail;
    forall d | d in m.clientPrefs ensures SettledUpTo(m, st'.results, d, Proposals(m, st', d)) {
      SettledPersists(m, st.results, p, roster, d, Proposals(m, st, d));
      if d == c {
        SettledExtends(m, st'.results, c, Proposals(m, st, c));
      }
    }
  }

  /** A proposal keeps the invariant when the clients left out are refused for good. */
  lemma {:induction false} ProposalKeepsInv(m: Market, st: State, c: Id, p: Id, roster: seq<Id>, waiting: seq<Id>)
    requires Proposes(m, st, c, p) && Inv(m, st) && Rearranged(m, st, c, p, roster, waiting)
    requires forall d :: (d in st.results[p] || d == c) && d !in roster ==>
      Full(m, st.results[p := roster], p, d) && Unachievable(m, d, p)
    requires forall d :: Full(m, st.results, p, d) ==> Full(m, st.results[p := roster], p, d)
    ensures Inv(m, Proposed(st, c, p, roster, waiting))
  {
    ProposalShape(m, st, c, p, roster, waiting);
    ProposalSeated(m, st, c, p, roster, waiting);
    ProposalAccounted(m, st, c, p, roster, waiting);
    ProposalRefusals(m, st, c, p, roster, waiting);
  }

  /** The roster is sorted, within capacity, and does not hold the proposer. */
  lemma {:induction false} ProposalFacts(m: Market, st: State, c: Id, p: Id)
    requires WellFormed(m) && Inv(m, st) && Proposes(m, st, c, p)
    ensures NoDup(m.proxyPrefs[p]) && InRankOrder(m.proxyPrefs[p], st.results[p])
    ensures c !in st.results[p] && |st.results[p]| <= m.capacities[p]
    ensures forall x :: x in st.results[p] ==> x !in st.waiting
  {
    forall x | x in st.results[p] ensures x !in st.waiting {
      assert Placed(st.results, x, p);
    }
  }

  lemma {:induction false} FreeSlotKeepsInv(m: Market, st: State, c: Id, p: Id)
    requires WellFormed(m) && Inv(m, st) && Proposes(m, st, c, p) && |st.results[p]| < m.capacities[p]
    ensures Inv(m, Proposed(st, c, p, KeepIn(m.proxyPrefs[p], st.results[p] + [c]), Without(st.waiting, c)))
  {
    ProposalFacts(m, st, c, p);
    hide WellFormed, Seated, Refusals, NoDup, InRankOrder;
    InsertRanked(m.proxyPrefs[p], st.results[p], c);
    var roster := KeepIn(m.proxyPrefs[p], st.results[p] + [c]);
    ProposalKeepsInv(m, st, c, p, roster, Without(st.waiting, c));
  }

  lemma {:induction false} RejectKeepsInv(m: Market, st: State, c: Id, p: Id)
    requires WellFormed(m) && Inv(m, st) && Proposes(m, st, c, p) && |st.results[p]| >= m.capacities[p]
    requires !Prefers(m.proxyPrefs[p], c, st.results[p][|st.results[p]| - 1])
    ensures Inv(m, st.(remaining := st.remaining[c := st.remaining[c][1..]]))
  {
    var roster := st.results[p];
    var ranking := m.proxyPrefs[p];
    assert !Placed(st.results, c, p);
    forall d | d in roster ensures Prefers(ranking, d, c) && BestLeft(m, d, p) && d !in st.waiting {
      assert Placed(st.results, d, p);
      LastRanksWorst(ranking, roster, d);
      SeatedIsBestLeft(m, st, d, p);
    }
    CrowdedOut(m, p, c, roster);
    assert st.results[p := roster] == st.results;
    ProposalKeepsInv(m, st, c, p, roster, st.waiting);
  }

  /** A proxy that drops the last of its roster for a better client has refused it for good. */
  lemma {:induction false} DisplacedIsRefused(m: Market, st: State, c: Id, p: Id, roster: seq<Id>, d: Id)
    requires WellFormed(m) && Inv(m, st) && Proposes(m, st, c, p)
    requires |roster| == m.capacities[p] && InRankOrder(m.proxyPrefs[p], roster + [d])
    requires forall x :: x in roster ==> x in st.results[p] || x == c
    ensures Full(m, st.results[p := roster], p, d) && Unachievable(m, d, p)
  {
    var r := roster + [d];
    RankOrderNoDup(m.proxyPrefs[p], r);
    assert r[..|roster|] == roster;
    forall x | x in roster ensures Prefers(m.proxyPrefs[p], x, d) && BestLeft(m, x, p) {
      assert x in r;
      LastRanksWorst(m.proxyPrefs[p], r, x);
      if x == c {
        NextIsBestLeft(m, st, c);
      } else {
        assert Placed(st.results, x, p);
        SeatedIsBestLeft(m, st, x, p);
      }
    }
    CrowdedOut(m, p, d, roster);
  }

  lemma {:induction false} DisplaceRearranges(m: Market, st: State, c: Id, p: Id, roster: seq<Id>, d: Id)
    requires Proposes(m, st, c, p) && Accounted(m, st)
    requires |roster| == m.capacities[p] && InRankOrder(m.proxyPrefs[p], roster + [d])
    requires forall x :: x in roster + [d] <==> x in st.results[p] || x == c
    requires d in st.results[p]
    ensures Rearranged(m, st, c, p, roster, Without(st.waiting, c) + [d])
    ensures d !in roster && c in roster
  {
    var r := roster + [d];
    RankOrderNoDup(m.proxyPrefs[p], r);
    assert forall i :: 0 <= i < |roster| ==> r[i] == roster[i];
    assert r[|roster|] == d;
    assert forall x :: x in r <==> x in roster || x == d;
    assert !Placed(st.results, c, p);
    forall x | x in st.results[p] ensures x !in st.waiting {
      assert Placed(st.results, x, p);
    }
  }

  /** The ranked list without its last, and that last, which was last before. */
  lemma {:induction false} CutLast(ranking: seq<Id>, before: seq<Id>, c: Id) returns (roster: seq<Id>, d: Id)
    requires NoDup(ranking) && InRankOrder(ranking, before) && before != [] && c !in before && c in ranking
    requires Prefers(ranking, c, before[|before| - 1])
    ensures KeepIn(ranking, before + [c]) == roster + [d] && |roster| == |before|
    ensures InRankOrder(ranking, roster + [d]) && d == before[|before| - 1]
    ensures forall x :: x in roster + [d] <==> x in before || x == c
  {
    hide KeepIn, NoDup, InRankOrder, Prefers;
    InsertRanked(ranking, before, c);
    LastIsDisplaced(ranking, before, c);
    var r := KeepIn(ranking, before + [c]);
    d, roster := r[|r| - 1], r[..|r| - 1];
    assert r == roster + [d];
  }

  lemma {:induction false} DisplaceKeepsInv(m: Market, st: State, c: Id, p: Id)
    requires WellFormed(m) && Inv(m, st) && Proposes(m, st, c, p) && |st.results[p]| >= m.capacities[p]
    requires Prefers(m.proxyPrefs[p], c, st.results[p][|st.results[p]| - 1])
    ensures var r := KeepIn(m.proxyPrefs[p], st.results[p] + [c]);
      r != [] && Inv(m, Proposed(st, c, p, r[..|r| - 1], Without(st.waiting, c) + [r[|r| - 1]]))
  {
    ProposalFacts(m, st, c, p);
    hide WellFormed, KeepIn, Without, Seated, Refusals, Rearranged, Full, Unachievable, NoDup, InRankOrder, Sorted;
    var roster, d := CutLast(m.proxyPrefs[p], st.results[p], c);
    DisplaceRearranges(m, st, c, p, roster, d);
    DisplacedIsRefused(m, st, c, p, roster, d);
    FullAfterDisplacement(m, st, c, p, roster, d);
    ProposalKeepsInv(m, st, c, p, roster, Without(st.waiting, c) + [d]);
  }

  /** Clients refused before the exchange rank below the new roster too. */
  lemma {:induction false} FullAfterDisplacement(m: Market, st: State, c: Id, p: Id, roster: seq<Id>, d: Id)
    requires Proposes(m, st, c, p) && d in st.results[p]
    requires Full(m, st.results[p := roster], p, d)
    ensures forall x :: Full(m, st.results, p, x) ==> Full(m, st.results[p := roster], p, x)
  {
  }

  /** Sorting in a client that beats the last of the roster leaves that one last. */
  lemma {:induction false} LastIsDisplaced(ranking: seq<Id>, before: seq<Id>, c: Id)
    requires NoDup(ranking) && InRankOrder(ranking, before) && before != [] && c !in before
    requires Prefers(ranking, c, before[|before| - 1])
    ensures var r := KeepIn(ranking, before + [c]); r != [] && r[|r| - 1] == before[|before| - 1]
  {
    InsertRanked(ranking, before, c);
    var r := KeepIn(ranking, before + [c]);
    var last := before[|before| - 1];
    LastRanksWorst(ranking, r, last);
    if r[|r| - 1] != c {
      LastRanksWorst(ranking, before, r[|r| - 1]);
    }
  }

  // ----- The matcher -----

  /** Total length of the preference lists not yet consumed. */
  ghost function Left(order: seq<Id>, remaining: map<Id, seq<Id>>): nat
    requires forall c :: c in order ==> c in remaining
  {
    if order == [] then 0 else |remaining[order[0]]| + Left(order[1..], remaining)
  }

  lemma {:induction false} PopShrinks(order: seq<Id>, remaining: map<Id, seq<Id>>, c: Id, rest: seq<Id>)
    requires forall d :: d in order ==> d in remaining
    requires c in remaining && |rest| < |remaining[c]|
    ensures Left(order, remaining[c := rest]) <= Left(order, remaining)
    ensures c in order ==> Left(order, remaining[c := rest]) < Left(order, remaining)
  {
    if order == [] {
    } else {
      PopShrinks(order[1..], remaining, c, rest);
    }
  }

  /** What the final lists of a well-formed market look like. */
  ghost predicate BestStable(m: Market, r: Matching) {
    Stable(m, r) && ClientOptimal(m, r) && Sorted(m, r)
  }

  /** A client prefers the proxy it sits with to every proxy it has not asked. */
  lemma {:induction false} LastIsWorstSoFar(m: Market, st: State, c: Id, p: Id)
    requires WellFormed(m) && Inv(m, st) && c in m.clientPrefs && p in m.clientPrefs[c]
    requires IndexOf(m.clientPrefs[c], p) >= Proposals(m, st, c)
    ensures forall q :: Placed(st.results, c, q) ==> Prefers(m.clientPrefs[c], q, p)
  {
    if Proposals(m, st, c) > 0 {
      IndexOfAt(m.clientPrefs[c], Proposals(m, st, c) - 1);
    }
  }

  /** When nobody waits any more, the lists form the best stable matching for the clients. */
  lemma {:induction false} FinalIsStable(m: Market, st: State)
    requires WellFormed(m) && Inv(m, st) && st.waiting == []
    ensures Stable(m, st.results)
  {
    var r := st.results;
    forall p | p in r ensures NoDup(r[p]) && (r[p] == [] || |r[p]| <= m.capacities[p]) {
      if r[p] != [] {
        RankOrderNoDup(m.proxyPrefs[p], r[p]);
      }
    }
    forall c, p ensures !Blocks(m, r, c, p) {
      if c in m.clientPrefs && p in m.clientPrefs[c] {
        NotBlocked(m, st, c, p);
      }
    }
  }

  lemma {:induction false} NotBlocked(m: Market, st: State, c: Id, p: Id)
    requires WellFormed(m) && Inv(m, st) && st.waiting == []
    requires c in m.clientPrefs && p in m.clientPrefs[c]
    ensures !Blocks(m, st.results, c, p)
  {
    var prefs := m.clientPrefs[c];
    var i := IndexOf(prefs, p);
    if i < Proposals(m, st, c) {
      assert Settled(m, st.results, c, prefs[i]);
    } else {
      assert !Unplaced(st.results, c);
      var q :| Placed(st.results, c, q);
      LastIsWorstSoFar(m, st, c, p);
    }
  }

  lemma {:induction false} FinalIsOptimal(m: Market, st: State)
    requires WellFormed(m) && Inv(m, st) && st.waiting == []
    ensures ClientOptimal(m, st.results)
  {
    forall other, c | Stable(m, other) ensures DoesAsWell(m, st.results, other, c) {
      forall q | Placed(other, c, q)
        ensures exists p :: Placed(st.results, c, p) && AtLeastAsGood(m.clientPrefs[c], p, q)
      {
        var prefs := m.clientPrefs[c];
        var i := IndexOf(prefs, q);
        if i < Proposals(m, st, c) {
          assert Settled(m, st.results, c, prefs[i]);
          assert Placed(st.results, c, q);
        } else {
          assert !Unplaced(st.results, c);
          var p :| Placed(st.results, c, p);
          LastIsWorstSoFar(m, st, c, q);
          assert AtLeastAsGood(prefs, p, q);
        }
      }
    }
  }

  lemma {:induction false} FinalIsBest(m: Market, st: State)
    requires WellFormed(m) && Inv(m, st) && st.waiting == []
    ensures BestStable(m, st.results)
  {
    FinalIsStable(m, st);
    FinalIsOptimal(m, st);
  }

  /** What is left of the lists: a client that is placed asked its proxy last, and one that is not
      has asked them all. */
  ghost predicate Consumed(m: Market, r: Matching, remaining: map<Id, seq<Id>>) {
    forall c :: c in m.clientPrefs && c in remaining ==>
      && (forall p :: Placed(r, c, p) ==>
            p in m.clientPrefs[c] && remaining[c] == m.clientPrefs[c][IndexOf(m.clientPrefs[c], p) + 1..])
      && (Unplaced(r, c) ==> remaining[c] == [])
  }

  lemma {:induction false} FinalLists(m: Market, st: State)
    requires WellFormed(m) && Inv(m, st) && st.waiting == []
    ensures Consumed(m, st.results, st.remaining)
  {
    forall c, p | c in m.clientPrefs && Placed(st.results, c, p)
      ensures p in m.clientPrefs[c] && st.remaining[c] == m.clientPrefs[c][IndexOf(m.clientPrefs[c], p) + 1..]
    {
      assert SeatedAt(m.clientPrefs[c], st.remaining[c], p);
      IndexOfAt(m.clientPrefs[c], |m.clientPrefs[c]| - |st.remaining[c]| - 1);
    }
  }

  lemma {:induction false} WaitingNoDup(m: Market, st: State)
    requires Inv(m, st)
    ensures NoDup(st.waiting)
  {
  }

  /** What holds of every run, on well-formed inputs and others: lists are consumed
      from the front, and only clients of the market wait or are placed. */
  ghost predicate Books(m: Market, order: seq<Id>, st: State) {
    && st.remaining.Keys == m.clientPrefs.Keys && st.results.Keys == m.capacities.Keys
    && (forall c :: c in st.remaining ==> IsTail(st.remaining[c], m.clientPrefs[c]))
    && (forall c :: c in st.waiting ==> c in order)
    && (forall c, p :: Placed(st.results, c, p) ==> c in order)
    && (forall c :: c in order ==> c in m.clientPrefs)
  }

  ghost predicate Exists(m: Market, p: Id) {
    p in m.capacities && p in m.proxyPrefs
  }

  /** Only proxies that exist were asked, and only clients that they rank are placed there. Who does
      not wait has asked some proxy, or has none to ask. */
  ghost predicate Asked(m: Market, st: State) {
    OnlyRanked(m, st.results) && OnlyExisting(m, st.remaining) && AskedOrWaiting(m, st)
  }

  ghost predicate OnlyRanked(m: Market, r: Matching) {
    forall c, p :: Placed(r, c, p) ==> p in m.proxyPrefs && c in m.proxyPrefs[p]
  }

  ghost predicate OnlyExisting(m: Market, remaining: map<Id, seq<Id>>) {
    forall c :: c in remaining && c in m.clientPrefs ==>
      AllExist(m, m.clientPrefs[c], |m.clientPrefs[c]| - |remaining[c]|)
  }

  ghost predicate AskedOrWaiting(m: Market, st: State) {
    forall c :: c in st.remaining && c in m.clientPrefs && m.clientPrefs[c] != [] && c !in st.waiting ==>
      |st.remaining[c]| < |m.clientPrefs[c]|
  }

  /** Each client has asked, if its list is not empty, and only proxies that exist. */
  ghost predicate AllAsked(m: Market, remaining: map<Id, seq<Id>>) {
    forall c :: c in m.clientPrefs && c in remaining ==>
      && AllExist(m, m.clientPrefs[c], |m.clientPrefs[c]| - |remaining[c]|)
      && (m.clientPrefs[c] != [] ==> |remaining[c]| < |m.clientPrefs[c]|)
  }

  lemma {:induction false} NobodyWaits(m: Market, st: State)
    requires Asked(m, st) && st.waiting == []
    ensures AllAsked(m, st.remaining)
  {
  }

  ghost predicate AllExist(m: Market, prefs: seq<Id>, n: int) {
    forall i :: 0 <= i < n && i < |prefs| ==> Exists(m, prefs[i])
  }

  /** What an exception says of the dictionaries. */
  ghost predicate Fault(m: Market, error: LookupError) {
    match error
    case MissingKey => exists c, p :: c in m.clientPrefs && p in m.clientPrefs[c] && !Exists(m, p)
    case NotRanked =>
      exists c, p :: c in m.clientPrefs && p in m.clientPrefs[c] && Exists(m, p) && c !in m.proxyPrefs[p]
    case EmptyResult =>
      exists c, p :: c in m.clientPrefs && p in m.clientPrefs[c] && Exists(m, p) && m.capacities[p] <= 0
  }

  lemma {:induction false} NobodyAsked(m: Market, order: seq<Id>)
    requires Elems(order) == m.clientPrefs.Keys
    ensures Asked(m, State(m.clientPrefs, order, map p | p in m.capacities :: []))
  {
    forall c | c in m.clientPrefs ensures c in order {
      assert c in Elems(order);
    }
  }

  lemma {:induction false} FaultAt(m: Market, c: Id, p: Id)
    requires c in m.clientPrefs && p in m.clientPrefs[c]
    ensures !Exists(m, p) ==> Fault(m, MissingKey)
    ensures Exists(m, p) && c !in m.proxyPrefs[p] ==> Fault(m, NotRanked)
    ensures Exists(m, p) && m.capacities[p] <= 0 ==> Fault(m, EmptyResult)
  {
  }

  /** A turn that raises an exception has found a fault in the dictionaries. */
  lemma {:induction false} TurnFault(m: Market, order: seq<Id>, st: State, student: Id)
    requires Books(m, order, st) && Asked(m, st) && student in order
    ensures Turn(m, st, student).Stop? ==> Fault(m, Turn(m, st, student).error)
  {
    if Turn(m, st, student).Stop? {
      var rest := st.remaining[student];
      TailAfterPop(rest, m.clientPrefs[student]);
      assert rest[0] in m.clientPrefs[student];
      hide IsTail, NoDup, Fault;
      FaultAt(m, student, rest[0]);
      if Exists(m, rest[0]) && st.results[rest[0]] != [] {
        var accepted := st.results[rest[0]];
        assert Placed(st.results, accepted[|accepted| - 1], rest[0]);
      }
    }
  }

  lemma {:induction false} NextExists(m: Market, st: State, student: Id)
    requires student in st.remaining && st.results.Keys == m.capacities.Keys
    requires Turn(m, st, student).Next? && st.remaining[student] != []
    ensures Exists(m, st.remaining[student][0])
  {
  }

  lemma {:induction false} TurnPops(m: Market, st: State, student: Id)
    requires student in st.remaining && st.results.Keys == m.capacities.Keys && Turn(m, st, student).Next?
    ensures var rest := st.remaining[student];
      Turn(m, st, student).st.remaining == if rest == [] then st.remaining else st.remaining[student := rest[1..]]
    ensures st.remaining[student] == [] ==> Turn(m, st, student).st.results == st.results
  {
  }

  /** Who is placed is ranked. */
  lemma {:induction false} TurnRanks(m: Market, order: seq<Id>, st: State, student: Id)
    requires Books(m, order, st) && Asked(m, st) && student in order && Turn(m, st, student).Next?
    ensures OnlyRanked(m, Turn(m, st, student).st.results)
  {
    hide IsTail, NoDup, AllExist, Turn;
    TurnPops(m, st, student);
    if st.remaining[student] != [] {
      NextExists(m, st, student);
      var p := st.remaining[student][0];
      TurnPlaces(m, st, student, KeepIn(m.proxyPrefs[p], st.results[p] + [student]));
    }
  }

  /** A proxy that is asked exists. */
  lemma {:induction false} TurnExists(m: Market, order: seq<Id>, st: State, student: Id)
    requires Books(m, order, st) && Asked(m, st) && student in order && Turn(m, st, student).Next?
    ensures OnlyExisting(m, Turn(m, st, student).st.remaining)
  {
    hide NoDup, Turn, Exists;
    TurnPops(m, st, student);
    var prefs, rest := m.clientPrefs[student], st.remaining[student];
    assert AllExist(m, prefs, |prefs| - |rest|);
    if rest != [] {
      NextExists(m, st, student);
      TailAfterPop(rest, prefs);
      assert AllExist(m, prefs, |prefs| - |rest| + 1);
    }
    hide AllExist, IsTail;
  }

  lemma {:induction false} TurnWaits(m: Market, order: seq<Id>, st: State, student: Id)
    requires Books(m, order, st) && Asked(m, st) && student in order && Turn(m, st, student).Next?
    ensures AskedOrWaiting(m, Turn(m, st, student).st)
  {
    hide NoDup, Turn, OnlyRanked, OnlyExisting;
    TurnPops(m, st, student);
    hide Placed;
    var st' := Turn(m, st, student).st;
    forall c | c in st'.remaining && c in m.clientPrefs && m.clientPrefs[c] != [] && c !in st'.waiting
      ensures |st'.remaining[c]| < |m.clientPrefs[c]|
    {
      if c in st.waiting && c != student {
        TurnKeepsOthers(m, st, student, c);
      }
    }
  }

  lemma {:induction false} TurnAsked(m: Market, order: seq<Id>, st: State, student: Id)
    requires Books(m, order, st) && Asked(m, st) && student in order && Turn(m, st, student).Next?
    ensures Asked(m, Turn(m, st, student).st)
  {
    TurnRanks(m, order, st, student);
    TurnExists(m, order, st, student);
    TurnWaits(m, order, st, student);
    hide Books, Turn, OnlyRanked, OnlyExisting, AskedOrWaiting;
  }

  /** Either a preference was consumed, or `c` just left the waiting list. */
  ghost predicate Progress(order: seq<Id>, before: State, after: State, c: Id)
    requires forall d :: d in order ==> d in before.remaining && d in after.remaining
  {
    || Left(order, after.remaining) < Left(order, before.remaining)
    || (after.remaining == before.remaining && after.waiting == Without(before.waiting, c))
  }

  datatype TurnResult = Next(st: State) | Stop(error: LookupError, st: State)

  /** One turn of the inner loop, for one client of the batch. */
  function Turn(m: Market, st: State, student: Id): TurnResult
    requires student in st.remaining && st.results.Keys == m.capacities.Keys
  {
    if st.remaining[student] == [] then
      Next(st.(waiting := Without(st.waiting, student)))
    else
      var choice := st.remaining[student][0];
      var popped := st.(remaining := st.remaining[student := st.remaining[student][1..]]);
      if choice !in st.results || choice !in m.proxyPrefs then Stop(MissingKey, popped)
      else
        var ranking, accepted := m.proxyPrefs[choice], st.results[choice];
        if |accepted| < m.capacities[choice] then
          Next(Proposed(st, student, choice, KeepIn(ranking, accepted + [student]), Without(st.waiting, student)))
        else if student !in ranking then Stop(NotRanked, popped)
        else if accepted == [] then Stop(EmptyResult, popped)
        else
          var last := accepted[|accepted| - 1];
          if last !in ranking then Stop(NotRanked, popped)
          else if IndexOf(ranking, student) < IndexOf(ranking, last) then
            var sorted := KeepIn(ranking, accepted + [student]);
            assert student in sorted;
            Next(Proposed(st, student, choice, sorted[..|sorted| - 1],
              Without(st.waiting, student) + [sorted[|sorted| - 1]]))
          else
            Next(popped)
  }

  /** A turn consumes a preference or shortens the waiting list, on any inputs. */
  lemma {:induction false} TurnProgress(m: Market, order: seq<Id>, st: State, student: Id)
    requires Books(m, order, st) && student in order
    requires Turn(m, st, student).Next?
    ensures forall c :: c in order ==> c in Turn(m, st, student).st.remaining
    ensures Progress(order, st, Turn(m, st, student).st, student)
  {
    if st.remaining[student] != [] {
      PopShrinks(order, st.remaining, student, st.remaining[student][1..]);
    }
  }

  lemma {:induction false} TurnBooks(m: Market, order: seq<Id>, st: State, student: Id)
    requires Books(m, order, st) && student in order
    ensures Books(m, order, Turn(m, st, student).st)
  {
    if st.remaining[student] != [] {
      TailAfterPop(st.remaining[student], m.clientPrefs[student]);
      hide IsTail, NoDup;
      var choice := st.remaining[student][0];
      if choice in st.results && choice in m.proxyPrefs {
        var sorted := KeepIn(m.proxyPrefs[choice], st.results[choice] + [student]);
        forall c | c in sorted ensures c in order {
          assert c == student || Placed(st.results, c, choice);
        }
        TurnPlaces(m, st, student, sorted);
      }
    }
  }

  /** Whoever is placed or waits after a turn was placed, waited, or was sorted in. */
  lemma {:induction false} TurnPlaces(m: Market, st: State, student: Id, sorted: seq<Id>)
    requires student in st.remaining && st.remaining[student] != [] && st.results.Keys == m.capacities.Keys
    requires var p := st.remaining[student][0];
      p in st.results && p in m.proxyPrefs && sorted == KeepIn(m.proxyPrefs[p], st.results[p] + [student])
    ensures var st' := Turn(m, st, student).st;
      (forall c, q :: Placed(st'.results, c, q) ==>
        Placed(st.results, c, q) || (q == st.remaining[student][0] && c in sorted)) &&
      (forall c :: c in st'.waiting ==> c in st.waiting || c in sorted)
  {
  }

  /** On a well-formed market no lookup fails, and the invariant is kept. */
  lemma {:induction false} TurnKeepsInv(m: Market, st: State, student: Id)
    requires WellFormed(m) && Inv(m, st) && student in st.waiting
    ensures Turn(m, st, student).Next? && Inv(m, Turn(m, st, student).st)
  {
    if st.remaining[student] == [] {
      ExhaustedKeepsInv(m, st, student);
    } else {
      var p := st.remaining[student][0];
      NextIsAcceptable(m, st, student);
      ProposalFacts(m, st, student, p);
      hide WellFormed, Inv, Acceptable, NoDup, InRankOrder;
      if |st.results[p]| < m.capacities[p] {
        FreeSlotKeepsInv(m, st, student, p);
      } else if Prefers(m.proxyPrefs[p], student, st.results[p][|st.results[p]| - 1]) {
        DisplaceKeepsInv(m, st, student, p);
      } else {
        RejectKeepsInv(m, st, student, p);
      }
    }
  }

  /** A turn takes nobody but its own client off the waiting list. */
  lemma {:induction false} TurnKeepsOthers(m: Market, st: State, student: Id, d: Id)
    requires student in st.remaining && st.results.Keys == m.capacities.Keys
    requires Turn(m, st, student).Next? && d in st.waiting && d != student
    ensures d in Turn(m, st, student).st.waiting
  {
  }

  lemma {:induction false} NextIsAcceptable(m: Market, st: State, c: Id)
    requires WellFormed(m) && Inv(m, st) && c in st.waiting && st.remaining[c] != []
    ensures Acceptable(m, c, st.remaining[c][0])
    ensures Proposes(m, st, c, st.remaining[c][0])
  {
    assert st.remaining[c][0] in m.clientPrefs[c];
  }

  /** Matches clients to proxies; `order` is the order in which the dictionary
      of client preferences lists its keys. The lists left in `remaining` are
      what the caller finds in its dictionary afterwards. */
  method GetMatchedClients(m: Market, order: seq<Id>) returns (outcome: Outcome, remaining: map<Id, seq<Id>>)
    requires NoDup(order) && Elems(order) == m.clientPrefs.Keys
    ensures WellFormed(m) ==> outcome.Matched? && BestStable(m, outcome.results)
    ensures WellFormed(m) ==> Consumed(m, outcome.results, remaining)
    ensures outcome.Failed? ==> Fault(m, outcome.error)
    ensures outcome.Matched? ==> AllAsked(m, remaining)
    ensures remaining.Keys == m.clientPrefs.Keys
    ensures forall c :: c in remaining ==> IsTail(remaining[c], m.clientPrefs[c])
  {
    hide WellFormed, Inv, Turn, IsTail, BestStable, Asked, AllAsked, Fault, Consumed;
    var st := State(m.clientPrefs, order, map p | p in m.capacities :: []);
    assert forall c :: c in order <==> c in Elems(order);
    InitBooks(m, order, st.results);
    NobodyAsked(m, order);
    if WellFormed(m) { InitInv(m, order, st.results); }
    while st.waiting != []
      invariant Books(m, order, st) && Asked(m, st)
      invariant WellFormed(m) ==> Inv(m, st)
      decreases Left(order, st.remaining), |st.waiting|
    {
      var batch := st.waiting;
      if WellFormed(m) { WaitingNoDup(m, st); }
      ghost var start := st;
      for i := 0 to |batch|
        invariant Books(m, order, st) && Asked(m, st)
        invariant WellFormed(m) ==> Inv(m, st)
        invariant WellFormed(m) ==> NoDup(batch)
        invariant WellFormed(m) ==> forall j :: i <= j < |batch| ==> batch[j] in st.waiting
        invariant i == 0 ==> st == start
        invariant Left(order, st.remaining) <= Left(order, start.remaining)
        invariant Left(order, st.remaining) == Left(order, start.remaining) && i > 0 ==> |st.waiting| < |batch|
      {
        TurnBooks(m, order, st, batch[i]);
        TurnFault(m, order, st, batch[i]);
        if Turn(m, st, batch[i]).Next? {
          TurnProgress(m, order, st, batch[i]);
          TurnAsked(m, order, st, batch[i]);
        }
        if WellFormed(m) {
          TurnKeepsInv(m, st, batch[i]);
          forall j | i < j < |batch| ensures batch[j] in Turn(m, st, batch[i]).st.waiting {
            TurnKeepsOthers(m, st, batch[i], batch[j]);
          }
        }
        match Turn(m, st, batch[i]) {
          case Stop(error, last) => return Failed(error), last.remaining;
          case Next(next) => st := next;
        }
      }
    }
    if WellFormed(m) {
      FinalIsBest(m, st);
      FinalLists(m, st);
    }
    NobodyWaits(m, st);
    return Matched(st.results), st.remaining;
  }

  // ----- What the guarantee pins down -----

  /** There is one best stable matching, so the result does not depend on the order
      in which clients wait or on how the turns interleave. */
  lemma {:induction false} OrderIrrelevant(m: Market, a: Matching, b: Matching)
    requires WellFormed(m) && BestStable(m, a) && BestStable(m, b)
    ensures a == b
  {
    forall p | p in m.capacities ensures a[p] == b[p] {
      forall c ensures c in a[p] <==> c in b[p] {
        if Placed(a, c, p) { SamePlace(m, a, b, c, p); }
        if Placed(b, c, p) { SamePlace(m, b, a, c, p); }
      }
      if a[p] == [] || b[p] == [] {
        EmptyTogether(a[p], b[p]);
      } else {
        RankOrderUnique(m.proxyPrefs[p], a[p], b[p]);
      }
    }
  }

  lemma {:induction false} SamePlace(m: Market, a: Matching, b: Matching, c: Id, p: Id)
    requires BestStable(m, a) && BestStable(m, b) && Placed(a, c, p)
    ensures Placed(b, c, p)
  {
    assert DoesAsWell(m, b, a, c) && DoesAsWell(m, a, b, c);
    var q :| Placed(b, c, q) && AtLeastAsGood(m.clientPrefs[c], q, p);
  }

  /** The proxies pay for it: whatever a proxy gains over the best matching for the
      clients, in any other stable matching, it prefers to what it loses. */
  lemma {:induction false} WorstForProxies(m: Market, best: Matching, other: Matching, p: Id, lost: Id, gained: Id)
    requires WellFormed(m) && BestStable(m, best) && Stable(m, other)
    requires Placed(best, lost, p) && !Placed(other, lost, p)
    requires Placed(other, gained, p) && !Placed(best, gained, p)
    ensures |other[p]| == m.capacities[p] && Prefers(m.proxyPrefs[p], gained, lost)
  {
    PrefersLost(m, best, other, lost, p);
    assert !Blocks(m, other, lost, p);
    assert IndexOf(m.proxyPrefs[p], gained) != IndexOf(m.proxyPrefs[p], lost);
  }

  lemma {:induction false} PrefersLost(m: Market, best: Matching, other: Matching, c: Id, p: Id)
    requires BestStable(m, best) && Stable(m, other)
    requires Placed(best, c, p) && !Placed(other, c, p)
    ensures forall q :: Placed(other, c, q) ==> Prefers(m.clientPrefs[c], p, q)
  {
    assert DoesAsWell(m, best, other, c);
  }

  /** A proxy serves no more clients in the best matching than in any other stable one. */
  lemma {:induction false} ServesNoMore(m: Market, best: Matching, other: Matching, p: Id)
    requires WellFormed(m) && BestStable(m, best) && Stable(m, other) && p in m.capacities
    ensures |best[p]| <= |other[p]|
  {
    if other[p] == [] || |other[p]| < m.capacities[p] {
      forall c | c in best[p] ensures c in other[p] {
        assert Placed(best, c, p);
        if !Placed(other, c, p) {
          PrefersLost(m, best, other, c, p);
          assert Acceptable(m, c, p);
          assert Blocks(m, other, c, p);
        }
      }
      NoDupCardinality(best[p]);
      NoDupCardinality(other[p]);
      SubsetBySize(Elems(best[p]), Elems(other[p]));
    }
  }

  ghost predicate ServedBy(r: Matching, ps: set<Id>, c: Id) {
    exists p :: p in ps && Placed(r, c, p)
  }

  ghost function Served(m: Market, r: Matching, ps: set<Id>): set<Id> {
    set c | c in m.clientPrefs && ServedBy(r, ps, c)
  }

  lemma {:induction false} ServedBySplits(r: Matching, ps: set<Id>, p: Id, c: Id)
    requires p in ps && p in r
    ensures ServedBy(r, ps, c) <==> ServedBy(r, ps - {p}, c) || c in r[p]
  {
    if q :| q in ps && Placed(r, c, q) {
      assert q in ps - {p} || q == p;
    }
    if c in r[p] { assert Placed(r, c, p); }
  }

  lemma {:induction false} ServedSplits(m: Market, r: Matching, ps: set<Id>, p: Id)
    requires Feasible(m, r) && p in ps && ps <= m.capacities.Keys
    ensures |Served(m, r, ps)| == |Served(m, r, ps - {p})| + |r[p]|
  {
    NoDupCardinality(r[p]);
    var here, rest := Elems(r[p]), Served(m, r, ps - {p});
    forall c | c in here ensures c in m.clientPrefs && c !in rest {
      assert Placed(r, c, p);
    }
    hide Feasible, NoDup, ServedBy;
    forall c ensures c in Served(m, r, ps) <==> c in rest + here {
      ServedBySplits(r, ps, p, c);
    }
    assert Served(m, r, ps) == rest + here;
  }

  lemma {:induction false} ServedBySize(m: Market, best: Matching, other: Matching, ps: set<Id>)
    requires WellFormed(m) && BestStable(m, best) && Stable(m, other) && ps <= m.capacities.Keys
    ensures |Served(m, best, ps)| <= |Served(m, other, ps)|
    ensures |Served(m, best, ps)| == |Served(m, other, ps)| ==> forall p :: p in ps ==> |best[p]| == |other[p]|
    decreases ps
  {
    if p :| p in ps {
      ServedSplits(m, best, ps, p);
      ServedSplits(m, other, ps, p);
      ServesNoMore(m, best, other, p);
      ServedBySize(m, best, other, ps - {p});
    } else {
      assert Served(m, best, ps) == {} && Served(m, other, ps) == {};
    }
  }

  /** Every stable matching serves the same clients and fills the same number of places
      at each proxy; so the capacities left over do not depend on which one is found. */
  lemma {:induction false} SamePlacesFilled(m: Market, best: Matching, other: Matching)
    requires WellFormed(m) && BestStable(m, best) && Stable(m, other)
    ensures forall p :: p in m.capacities ==> |best[p]| == |other[p]|
    ensures forall c :: Unplaced(best, c) <==> Unplaced(other, c)
  {
    var ps := m.capacities.Keys;
    var served, servedToo := Served(m, best, ps), Served(m, other, ps);
    forall c | c in servedToo ensures c in served {
      assert DoesAsWell(m, best, other, c);
    }
    ServedBySize(m, best, other, ps);
    SubsetBySize(servedToo, served);
    assert served == servedToo + (served - servedToo);
    forall c ensures (c in served <==> !Unplaced(best, c)) && (c in servedToo <==> !Unplaced(other, c)) {
    }
  }
}
