/** The broker's heap of available proxies, ordered by the number of clients each
    one serves, with the position of every proxy kept in the proxy itself. */
module SnowflakeHeaps {
  import opened Lists
  import GoHeap
  import opened LoadBalance
  import opened Entries = GoHeap

  class Snowflake {
    const id: string
    const ip: string
    const host: string
    const natType: string
    var clients: int
    var index: int

    constructor (id: string, ip: string, host: string, natType: string, clients: int)
      ensures this.id == id && this.ip == ip && this.host == host && this.natType == natType
      ensures this.clients == clients && index == -1
    {
      this.id, this.ip, this.host, this.natType := id, ip, host, natType;
      this.clients, index := clients, -1;
    }
  }

  ghost function EntriesOf(flakes: seq<Snowflake>): (h: seq<Entry<Snowflake>>)
    reads flakes`clients
    ensures |h| == |flakes|
    ensures forall i :: 0 <= i < |flakes| ==> h[i] == Entry(flakes[i], flakes[i].clients)
  {
    if flakes == [] then [] else [Entry(flakes[0], flakes[0].clients)] + EntriesOf(flakes[1..])
  }

  lemma {:induction false} SwapMembers<T>(s: seq<T>, i: nat, j: nat)
    requires NoDup(s) && i < |s| && j < |s|
    ensures var r := s[i := s[j]][j := s[i]]; NoDup(r) && Elems(r) == Elems(s)
  {
    var r := s[i := s[j]][j := s[i]];
    forall x ensures x in r <==> x in s {
      if x in s {
        var k :| 0 <= k < |s| && s[k] == x;
        assert r[if k == i then j else if k == j then i else k] == x;
      }
    }
  }

  lemma {:induction false} AppendMember<T>(s: seq<T>, x: T)
    requires NoDup(s) && x !in s
    ensures NoDup(s + [x]) && Elems(s + [x]) == Elems(s) + {x}
  {
  }

  lemma {:induction false} DropMember<T>(s: seq<T>, i: nat)
    requires NoDup(s) && i < |s|
    ensures var r := s[..i] + s[i + 1..]; NoDup(r) && Elems(r) == Elems(s) - {s[i]}
  {
    var r := s[..i] + s[i + 1..];
    forall x ensures x in r <==> x in s && x != s[i] {
      if x in s && x != s[i] {
        var k :| 0 <= k < |s| && s[k] == x;
        assert r[if k < i then k else k - 1] == x;
      }
    }
  }

  lemma {:induction false} ShiftedEntries(flakes: seq<Snowflake>, p: nat)
    requires p <= |flakes|
    ensures EntriesOf(GoHeap.Shifted(flakes, p)) == GoHeap.Shifted(EntriesOf(flakes), p)
  {
  }

  class SnowflakeHeap {
    var flakes: seq<Snowflake>

    constructor ()
      ensures flakes == []
    {
      flakes := [];
    }

    /** No proxy is in the heap twice. */
    ghost predicate Valid()
      reads this
    {
      NoDup(flakes)
    }

    /** Every proxy knows its own position. */
    ghost predicate Indexed()
      reads this, flakes
    {
      forall i :: 0 <= i < |flakes| ==> flakes[i].index == i
    }

    ghost function Entries(): seq<Entry<Snowflake>>
      reads this, flakes`clients
    {
      EntriesOf(flakes)
    }

    ghost function Members(): set<Snowflake>
      reads this
    {
      Elems(flakes)
    }

    lemma {:induction false} NoMembers()
      ensures Members() == {} <==> flakes == []
    {
      if flakes != [] {
        assert flakes[0] in Members();
      }
    }

    ghost function Root(): Snowflake
      requires |flakes| > 0
      reads this
    {
      flakes[0]
    }

    method Swap(i: nat, j: nat)
      requires Valid() && i < |flakes| && j < |flakes|
      modifies this, Members()`index
      ensures flakes == old(flakes)[i := old(flakes)[j]][j := old(flakes)[i]]
      ensures Valid() && Members() == old(Members()) && |flakes| == old(|flakes|)
      ensures Entries() == GoHeap.Swapped(old(Entries()), i, j)
      ensures old(Indexed()) ==> Indexed()
    {
      SwapMembers(flakes, i, j);
      flakes := flakes[i := flakes[j]][j := flakes[i]];
      flakes[i].index := i;
      flakes[j].index := j;
    }

    method Up(j0: nat)
      requires Valid() && j0 < |flakes|
      modifies this, Members()`index
      ensures Valid() && Members() == old(Members())
      ensures Entries() == GoHeap.Up(old(Entries()), j0)
      ensures old(Indexed()) ==> Indexed()
    {
      hide NoDup;
      var j := j0;
      while true
        invariant 0 <= j < |flakes| && Valid() && Members() == old(Members())
        invariant GoHeap.Up(Entries(), j) == GoHeap.Up(old(Entries()), j0)
        invariant old(Indexed()) ==> Indexed()
        decreases j
      {
        var i := if j == 0 then 0 else (j - 1) / 2;
        if i == j || !(flakes[j].clients < flakes[i].clients) {
          break;
        }
        Swap(i, j);
        j := i;
      }
    }

    /** The child that `down` swaps with `i`, or `i` itself when none is less. */
    method LesserBelow(i: nat, n: nat) returns (j: nat)
      requires i < n <= |flakes|
      ensures j == if GoHeap.Sinks(Entries(), i, n) then GoHeap.LesserChild(Entries(), i, n) else i
    {
      var j1 := 2 * i + 1;
      if j1 >= n {
        return i;
      }
      j := j1;
      if j1 + 1 < n && flakes[j1 + 1].clients < flakes[j1].clients {
        j := j1 + 1;
      }
      if !(flakes[j].clients < flakes[i].clients) {
        return i;
      }
    }

    /** One turn of the loop of `down`. */
    method SinkOnce(i: nat, n: nat) returns (j: nat)
      requires Valid() && i < n <= |flakes|
      modifies this, Members()`index
      ensures Valid() && Members() == old(Members()) && |flakes| == old(|flakes|)
      ensures j == if GoHeap.Sinks(old(Entries()), i, n) then GoHeap.LesserChild(old(Entries()), i, n) else i
      ensures Entries() == if j == i then old(Entries()) else GoHeap.Swapped(old(Entries()), i, j)
      ensures old(Indexed()) ==> Indexed()
    {
      hide NoDup;
      j := LesserBelow(i, n);
      if j != i {
        Swap(i, j);
      }
    }

    method Down(i0: nat, n: nat) returns (moved: bool)
      requires Valid() && i0 < n <= |flakes|
      modifies this, Members()`index
      ensures Valid() && Members() == old(Members()) && |flakes| == old(|flakes|)
      ensures moved == GoHeap.Sinks(old(Entries()), i0, n)
      ensures Entries() == GoHeap.Down(old(Entries()), i0, n)
      ensures old(Indexed()) ==> Indexed()
    {
      hide NoDup;
      var i := i0;
      while true
        invariant i0 <= i < n <= |flakes| && Valid() && Members() == old(Members()) && |flakes| == old(|flakes|)
        invariant GoHeap.Down(Entries(), i, n) == GoHeap.Down(old(Entries()), i0, n)
        invariant i == i0 ==> Entries() == old(Entries())
        invariant i > i0 ==> GoHeap.Sinks(old(Entries()), i0, n)
        invariant old(Indexed()) ==> Indexed()
        decreases n - i
      {
        var j := SinkOnce(i, n);
        if j == i {
          break;
        }
        i := j;
      }
      return i > i0;
    }

    method Sift(i: nat, n: nat)
      requires Valid() && i < n <= |flakes|
      modifies this, Members()`index
      ensures Valid() && Members() == old(Members())
      ensures Entries() == GoHeap.Sift(old(Entries()), i, n)
      ensures old(Indexed()) ==> Indexed()
    {
      var moved := Down(i, n);
      if !moved {
        assert Entries() == old(Entries());
        Up(i);
      }
    }

    /** The type's own `Push`: appends the proxy and sets its index. */
    method Append(f: Snowflake)
      requires Valid() && f !in flakes
      modifies this, f`index
      ensures flakes == old(flakes) + [f] && f.index == |old(flakes)|
      ensures Valid() && Members() == old(Members()) + {f}
      ensures Entries() == old(Entries()) + [Entry(f, f.clients)]
      ensures old(Indexed()) ==> Indexed()
    {
      AppendMember(flakes, f);
      f.index := |flakes|;
      flakes := flakes + [f];
    }

    /** `heap.Push` */
    method HeapPush(f: Snowflake)
      requires Valid() && f !in flakes
      modifies this, Members()`index, f`index
      ensures Valid() && Members() == old(Members()) + {f}
      ensures Entries() == GoHeap.Push(old(Entries()), Entry(f, f.clients))
      ensures old(Indexed()) ==> Indexed()
    {
      hide NoDup;
      Append(f);
      Up(|flakes| - 1);
    }

    /** The type's own `Pop`: cuts off the last proxy and marks it as out of the heap. */
    method CutLast() returns (f: Snowflake)
      requires Valid() && |flakes| > 0
      modifies this, Members()`index
      ensures f == old(flakes)[|old(flakes)| - 1] && f.index == -1
      ensures flakes == old(flakes)[..|old(flakes)| - 1]
      ensures Valid() && Members() == old(Members()) - {f}
      ensures Entries() == old(Entries())[..|old(flakes)| - 1]
      ensures old(Indexed()) ==> Indexed()
    {
      var n := |flakes|;
      f := flakes[n - 1];
      f.index := -1;
      flakes := flakes[..n - 1];
      assert old(flakes) == flakes + [f];
    }

    /** `heap.Pop` */
    method HeapPop() returns (f: Snowflake)
      requires Valid() && |flakes| > 0
      modifies this, Members()`index
      ensures f == old(flakes)[0] && f.index == -1
      ensures Valid() && Members() == old(Members()) - {f}
      ensures Entries() == GoHeap.PopList(old(Entries()))[..|old(flakes)| - 1]
      ensures old(Indexed()) ==> Indexed()
    {
      ghost var before := Entries();
      var n := |flakes| - 1;
      Swap(0, n);
      if n > 0 {
        var _ := Down(0, n);
      }
      GoHeap.PopIsEvictRoot(before);
      GoHeap.EvictedLast(before, 0);
      assert Entries()[n] == before[0];
      f := CutLast();
    }

    /** The part of `heap.Remove` that moves an element to the end and repairs the rest. */
    method MoveToEnd(i: nat)
      requires Valid() && i < |flakes|
      modifies this, Members()`index
      ensures Valid() && Members() == old(Members()) && |flakes| == old(|flakes|)
      ensures Entries() == GoHeap.Evicted(old(Entries()), i)
      ensures old(Indexed()) ==> Indexed()
    {
      hide NoDup, GoHeap.Sift, SnowflakeHeap.Members;
      var n := |flakes| - 1;
      if n != i {
        Swap(i, n);
        Sift(i, n);
      }
    }

    /** `heap.Remove` */
    method HeapRemove(i: nat) returns (f: Snowflake)
      requires Valid() && i < |flakes|
      modifies this, Members()`index
      ensures f == old(flakes)[i] && f.index == -1
      ensures Valid() && Members() == old(Members()) - {f}
      ensures Entries() == GoHeap.Evicted(old(Entries()), i)[..|old(flakes)| - 1]
      ensures old(Indexed()) ==> Indexed()
    {
      hide GoHeap.Evicted, NoDup, SnowflakeHeap.Members;
      ghost var before := Entries();
      var n := |flakes| - 1;
      MoveToEnd(i);
      GoHeap.EvictedLast(before, i);
      assert Entries()[n] == before[i];
      f := CutLast();
    }

    ghost predicate Ordered()
      reads this, flakes
    {
      Indexed() && GoHeap.IsHeap(Entries())
    }

    /** The pool's `Remove`: `slices.Delete` shifts what follows and restores nothing. The
        position is that of the proxy, or the length if it is absent. */
    method Remove(f: Snowflake?) returns (ghost p: nat)
      requires Valid()
      modifies this
      ensures Valid() && Members() == old(Members()) - {f}
      ensures p <= |old(flakes)| && flakes == GoHeap.Shifted(old(flakes), p)
      ensures if p < |old(flakes)| then old(flakes)[p] == f else f !in old(flakes)
      ensures old(Indexed()) ==> (Indexed() <==> p >= |flakes|)
      ensures old(GoHeap.IsHeap(Entries())) ==> (GoHeap.IsHeap(Entries()) <==> GoHeap.FitsParents(old(Entries()), p))
    {
      hide GoHeap.IsHeap, GoHeap.FitsParents, EntriesOf, NoDup;
      ghost var before := flakes;
      var i := 0;
      while i < |flakes| && flakes[i] != f
        invariant 0 <= i <= |flakes| && f !in flakes[..i]
      {
        i := i + 1;
      }
      p := i;
      ShiftedEntries(flakes, i);
      if GoHeap.IsHeap(EntriesOf(flakes)) {
        GoHeap.ShiftedOrders(EntriesOf(flakes), i);
      }
      if i < |flakes| {
        DropMember(flakes, i);
        flakes := flakes[..i] + flakes[i + 1..];
        if i < |flakes| {
          assert flakes[i] == before[i + 1];
        }
      }
    }

    /** Pops the proxy at the root and pushes it back. */
    method Requeue() returns (f: Snowflake)
      requires Valid() && |flakes| > 0
      modifies this, Members()`index
      ensures f == old(flakes)[0]
      ensures Valid() && Members() == old(Members())
      ensures Entries() == Requeued(old(Entries()))
      ensures old(Indexed()) ==> Indexed()
    {
      hide NoDup, GoHeap.Down, GoHeap.Up, GoHeap.Swapped;
      PoppedRoot(Entries());
      f := HeapPop();
      HeapPush(f);
    }

    /** A match: the proxy at the root is requeued, and only then charged one more
        client, without `heap.Fix`. */
    method MatchLeast() returns (f: Snowflake)
      requires Valid() && |flakes| > 0
      modifies this, Members()`index, Root()`clients
      ensures f == old(flakes)[0] && f.clients == old(f.clients) + 1
      ensures Valid() && Members() == old(Members())
      ensures Entries() == Match(old(Entries()))
      ensures old(Indexed()) ==> Indexed()
    {
      hide Requeued, EntriesOf, GoHeap.Push, NoDup, SnowflakeHeap.Members;
      ghost var before := Entries();
      f := Requeue();
      ghost var requeued := Entries();
      RequeuedAt(before);
      f.clients := f.clients + 1;
      OneCharged(flakes, f, requeued, RequeuedIndex(before));
    }

    // ----- The operations of the broker, with what they keep -----

    /** A proxy registers. */
    method Enlist(f: Snowflake)
      requires Valid() && f !in flakes
      modifies this, Members()`index, f`index
      ensures Valid() && Members() == old(Members()) + {f}
      ensures Entries() == GoHeap.Push(old(Entries()), Entry(f, f.clients))
      ensures old(Ordered()) ==> Ordered()
    {
      ghost var before := Entries();
      HeapPush(f);
      hide GoHeap.Push, GoHeap.IsHeap, EntriesOf, Indexed, NoDup;
      if GoHeap.IsHeap(before) { GoHeap.PushOrders(before, Entry(f, f.clients)); }
    }

    /** A proxy times out: what is at the position it recorded is removed. */
    method Delist(f: Snowflake) returns (g: Snowflake)
      requires Valid() && 0 <= f.index < |flakes|
      modifies this, Members()`index
      ensures g == old(flakes)[old(f.index)] && (old(Indexed()) && f in old(flakes) ==> g == f)
      ensures g.index == -1 && Valid() && Members() == old(Members()) - {g}
      ensures Entries() == GoHeap.Evicted(old(Entries()), old(f.index))[..|old(flakes)| - 1]
      ensures old(Ordered()) ==> Ordered()
    {
      hide GoHeap.Evicted, GoHeap.IsHeap, EntriesOf, NoDup;
      ghost var before, i := Entries(), f.index;
      g := HeapRemove(f.index);
      if GoHeap.IsHeap(before) { GoHeap.EvictedOrders(before, i); }
    }

    /** A client is matched. */
    method HandOut() returns (f: Snowflake)
      requires Valid() && |flakes| > 0
      modifies this, Members()`index, Root()`clients
      ensures f == old(flakes)[0] && f.clients == old(f.clients) + 1
      ensures Valid() && Members() == old(Members())
      ensures Entries() == Match(old(Entries()))
      ensures old(Ordered()) ==> Ordered() && forall g :: g in old(flakes) ==> old(f.clients) <= old(g.clients)
    {
      ghost var before := Entries();
      assert forall g :: g in flakes ==> Entry(g, g.clients) in Entries();
      f := MatchLeast();
      hide Match, GoHeap.IsHeap, EntriesOf, Indexed, NoDup;
      if GoHeap.IsHeap(before) {
        MatchKeepsHeap(before);
        RootIsLeastOfAll(before);
      }
    }
  }

  lemma {:induction false} OneCharged(flakes: seq<Snowflake>, f: Snowflake, h: seq<Entry<Snowflake>>, i: nat)
    requires NoDup(flakes) && |h| == |flakes| && i < |h|
    requires h[i] == Entry(f, f.clients - 1)
    requires forall k :: 0 <= k < |h| ==> h[k].item == flakes[k]
    requires forall k :: 0 <= k < |h| && flakes[k] != f ==> h[k].key == flakes[k].clients
    ensures EntriesOf(flakes) == h[i := Entry(f, f.clients)]
  {
    assert flakes[i] == f;
  }
}
