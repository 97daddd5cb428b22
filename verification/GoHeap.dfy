/** Go's container/heap as functions on sequences of keyed entries. The two heaps
    of the repository (broker pool and client map) refine these functions; what
    the functions guarantee is proved here once. */
module GoHeap {

  datatype Entry<T> = Entry(item: T, key: int)

  function Parent(k: nat): nat {
    if k == 0 then 0 else (k - 1) / 2
  }

  function Swapped<T>(h: seq<Entry<T>>, i: nat, j: nat): (r: seq<Entry<T>>)
    requires i < |h| && j < |h|
    ensures |r| == |h|
  {
    h[i := h[j]][j := h[i]]
  }

  /** Moves entry `j` up while it is strictly less than its parent. */
  function Up<T>(h: seq<Entry<T>>, j: nat): (r: seq<Entry<T>>)
    requires j < |h|
    ensures |r| == |h|
    decreases j
  {
    if j == 0 || !(h[j].key < h[Parent(j)].key) then h
    else Up(Swapped(h, Parent(j), j), Parent(j))
  }

  /** The child of `i` among the first `n` entries that `down` compares with `i`. */
  function LesserChild<T>(h: seq<Entry<T>>, i: nat, n: nat): (j: nat)
    requires n <= |h| && 2 * i + 1 < n
    ensures i < j < n
  {
    if 2 * i + 2 < n && h[2 * i + 2].key < h[2 * i + 1].key then 2 * i + 2 else 2 * i + 1
  }

  /** Whether `down` finds a child of `i` that is strictly less. */
  predicate Sinks<T>(h: seq<Entry<T>>, i: nat, n: nat)
    requires i < n <= |h|
  {
    2 * i + 1 < n && h[LesserChild(h, i, n)].key < h[i].key
  }

  /** Moves entry `i` down among the first `n` while a child is strictly less. */
  function Down<T>(h: seq<Entry<T>>, i: nat, n: nat): (r: seq<Entry<T>>)
    requires i < n <= |h|
    ensures |r| == |h|
    decreases n - i
  {
    if Sinks(h, i, n) then
      var j := LesserChild(h, i, n);
      Down(Swapped(h, i, j), j, n)
    else h
  }

  function Push<T>(h: seq<Entry<T>>, e: Entry<T>): (r: seq<Entry<T>>)
    ensures |r| == |h| + 1
  {
    Up(h + [e], |h|)
  }

  /** Down among the first `n`, and up only when down did not move the entry. */
  function Sift<T>(h: seq<Entry<T>>, i: nat, n: nat): (r: seq<Entry<T>>)
    requires i < n <= |h|
    ensures |r| == |h|
  {
    if Sinks(h, i, n) then Down(h, i, n) else Up(h, i)
  }

  /** The backing list just before the last entry, the one removed, is cut off. */
  function Evicted<T>(h: seq<Entry<T>>, i: nat): (r: seq<Entry<T>>)
    requires i < |h|
    ensures |r| == |h|
  {
    var n := |h| - 1;
    if i == n then h
    else
      Sift(Swapped(h, i, n), i, n)
  }

  /** `Pop`: swap the root with the last entry and sift it down. */
  function PopList<T>(h: seq<Entry<T>>): (r: seq<Entry<T>>)
    requires |h| > 0
    ensures |r| == |h|
  {
    var n := |h| - 1;
    var s := Swapped(h, 0, n);
    if n == 0 then s else Down(s, 0, n)
  }

  /** `down` looks at nothing but what is below. */
  lemma {:induction false} DownKeeps<T>(h: seq<Entry<T>>, i: nat, n: nat, k: nat)
    requires i < n <= |h| && k < |h| && k != i && k < 2 * i + 1
    ensures Down(h, i, n)[k] == h[k]
    decreases n - i
  {
    if Sinks(h, i, n) {
      var j := LesserChild(h, i, n);
      DownKeeps(Swapped(h, i, j), j, n, k);
    }
  }

  /** Of two equal children the left one rises, and the right one stays where it is. */
  lemma {:induction false} LeftFirst<T>(h: seq<Entry<T>>, i: nat, n: nat)
    requires i < n <= |h| && 2 * i + 2 < n && h[2 * i + 1].key == h[2 * i + 2].key < h[i].key
    ensures Down(h, i, n)[i] == h[2 * i + 1] && Down(h, i, n)[2 * i + 2] == h[2 * i + 2]
  {
    var s := Swapped(h, i, 2 * i + 1);
    DownKeeps(s, 2 * i + 1, n, i);
    DownKeeps(s, 2 * i + 1, n, 2 * i + 2);
  }

  // ----- Members -----

  lemma {:induction false} SwappedMembers<T>(h: seq<Entry<T>>, i: nat, j: nat)
    requires i < |h| && j < |h|
    ensures multiset(Swapped(h, i, j)) == multiset(h)
  {
  }

  lemma {:induction false} UpMembers<T>(h: seq<Entry<T>>, j: nat)
    requires j < |h|
    ensures multiset(Up(h, j)) == multiset(h)
    decreases j
  {
    if j == 0 || !(h[j].key < h[Parent(j)].key) {
    } else {
      SwappedMembers(h, Parent(j), j);
      UpMembers(Swapped(h, Parent(j), j), Parent(j));
    }
  }

  lemma {:induction false} DownMembers<T>(h: seq<Entry<T>>, i: nat, n: nat)
    requires i < n <= |h|
    ensures multiset(Down(h, i, n)) == multiset(h)
    decreases n - i
  {
    if Sinks(h, i, n) {
      var j := LesserChild(h, i, n);
      SwappedMembers(h, i, j);
      DownMembers(Swapped(h, i, j), j, n);
    }
  }

  lemma {:induction false} UpStaysBelow<T>(h: seq<Entry<T>>, j: nat, k: nat)
    requires j < k < |h|
    ensures Up(h, j)[k] == h[k]
    decreases j
  {
    if j == 0 || !(h[j].key < h[Parent(j)].key) {
    } else {
      UpStaysBelow(Swapped(h, Parent(j), j), Parent(j), k);
    }
  }

  lemma {:induction false} DownStaysBelow<T>(h: seq<Entry<T>>, i: nat, n: nat, k: nat)
    requires i < n <= k < |h|
    ensures Down(h, i, n)[k] == h[k]
    decreases n - i
  {
    if Sinks(h, i, n) {
      var j := LesserChild(h, i, n);
      DownStaysBelow(Swapped(h, i, j), j, n, k);
    }
  }

  /** Removal permutes the entries ... */
  lemma {:induction false} EvictedMembers<T>(h: seq<Entry<T>>, i: nat)
    requires i < |h|
    ensures multiset(Evicted(h, i)) == multiset(h)
  {
    var n := |h| - 1;
    if i != n {
      SwappedMembers(h, i, n);
      UpMembers(Swapped(h, i, n), i);
      DownMembers(Swapped(h, i, n), i, n);
    }
  }

  /** ... and puts the one to remove last. */
  lemma {:induction false} EvictedLast<T>(h: seq<Entry<T>>, i: nat)
    requires i < |h|
    ensures Evicted(h, i)[|h| - 1] == h[i]
  {
    var n := |h| - 1;
    if i != n {
      UpStaysBelow(Swapped(h, i, n), i, n);
      DownStaysBelow(Swapped(h, i, n), i, n, n);
    }
  }

  lemma {:induction false} PopIsEvictRoot<T>(h: seq<Entry<T>>)
    requires |h| > 0
    ensures PopList(h) == Evicted(h, 0)
  {
    assert |h| == 1 ==> Swapped(h, 0, 0) == h;
  }

  // ----- Order -----

  lemma {:induction false} LesserChildIsLeast<T>(h: seq<Entry<T>>, i: nat, n: nat)
    requires n <= |h| && 2 * i + 1 < n
    ensures Parent(LesserChild(h, i, n)) == i
    ensures forall k :: 1 <= k < n && Parent(k) == i ==> h[LesserChild(h, i, n)].key <= h[k].key
  {
  }

  ghost predicate Ordered<T>(h: seq<Entry<T>>, k: nat)
    requires k < |h|
  {
    h[Parent(k)].key <= h[k].key
  }

  /** The first `n` entries form a heap. */
  ghost predicate HeapUpTo<T>(h: seq<Entry<T>>, n: nat)
    requires n <= |h|
  {
    forall k :: 1 <= k < n ==> Ordered(h, k)
  }

  ghost predicate IsHeap<T>(h: seq<Entry<T>>) {
    HeapUpTo(h, |h|)
  }

  /** The first `n` entries form a heap except that the key at `i` is arbitrary. */
  ghost predicate HeapBut<T>(h: seq<Entry<T>>, i: nat, n: nat)
    requires i < n <= |h|
  {
    && (forall k :: 1 <= k < n && k != i && Parent(k) != i ==> Ordered(h, k))
    && (forall k :: 1 <= k < n && Parent(k) == i && i > 0 ==> h[Parent(i)].key <= h[k].key)
  }

  ghost predicate AboveChildren<T>(h: seq<Entry<T>>, i: nat, n: nat)
    requires i < n <= |h|
  {
    forall k :: 1 <= k < n && Parent(k) == i ==> h[i].key <= h[k].key
  }

  lemma {:induction false} RootIsLeast<T>(h: seq<Entry<T>>, n: nat, k: nat)
    requires k < n <= |h| && HeapUpTo(h, n)
    ensures h[0].key <= h[k].key
    decreases k
  {
    if k > 0 {
      assert Ordered(h, k);
      RootIsLeast(h, n, Parent(k));
    }
  }

  lemma {:induction false} UpStep<T>(h: seq<Entry<T>>, j: nat, n: nat)
    requires 0 < j < n <= |h| && h[j].key < h[Parent(j)].key
    requires HeapBut(h, j, n) && AboveChildren(h, j, n)
    ensures var s := Swapped(h, Parent(j), j); HeapBut(s, Parent(j), n) && AboveChildren(s, Parent(j), n)
  {
    var p := Parent(j);
    var s := Swapped(h, p, j);
    assert p > 0 ==> Ordered(h, p);
    forall k | 1 <= k < n && k != p && Parent(k) != p ensures Ordered(s, k) {
      if k != j && Parent(k) != j { assert Ordered(h, k); }
    }
    forall k | 1 <= k < n && Parent(k) == p
      ensures s[p].key <= s[k].key && (p > 0 ==> s[Parent(p)].key <= s[k].key)
    {
      if k != j { assert Ordered(h, k); }
    }
  }

  lemma {:induction false} UpOrders<T>(h: seq<Entry<T>>, j: nat, n: nat)
    requires j < n <= |h| && HeapBut(h, j, n) && AboveChildren(h, j, n)
    ensures HeapUpTo(Up(h, j), n)
    decreases j
  {
    if j == 0 || !(h[j].key < h[Parent(j)].key) {
      forall k | 1 <= k < n ensures Ordered(h, k) {
      }
    } else {
      UpStep(h, j, n);
      UpOrders(Swapped(h, Parent(j), j), Parent(j), n);
    }
  }

  lemma {:induction false} SinkStep<T>(h: seq<Entry<T>>, i: nat, n: nat)
    requires i < n <= |h| && HeapBut(h, i, n) && Sinks(h, i, n)
    ensures var j := LesserChild(h, i, n);
      var s := Swapped(h, i, j);
      HeapBut(s, j, n) && s[Parent(j)].key <= s[j].key
  {
    var j := LesserChild(h, i, n);
    var s := Swapped(h, i, j);
    LesserChildIsLeast(h, i, n);
    forall k | 1 <= k < n && k != j && Parent(k) != j ensures Ordered(s, k) {
      if k != i && Parent(k) != i { assert Ordered(h, k); }
    }
    forall k | 1 <= k < n && Parent(k) == j ensures s[i].key <= s[k].key {
      assert Ordered(h, k);
    }
  }

  lemma {:induction false} DownOrders<T>(h: seq<Entry<T>>, i: nat, n: nat)
    requires i < n <= |h| && HeapBut(h, i, n)
    requires i > 0 ==> h[Parent(i)].key <= h[i].key || Sinks(h, i, n)
    ensures HeapUpTo(Down(h, i, n), n)
    decreases n - i
  {
    if Sinks(h, i, n) {
      SinkStep(h, i, n);
      DownOrders(Swapped(h, i, LesserChild(h, i, n)), LesserChild(h, i, n), n);
    } else {
      forall k | 1 <= k < n ensures Ordered(h, k) {
      }
    }
  }

  /** Down, or up when down does not apply, restores the order after one key changed. */
  lemma {:induction false} SiftOrders<T>(h: seq<Entry<T>>, i: nat, n: nat)
    requires i < n <= |h| && HeapBut(h, i, n)
    ensures HeapUpTo(Sift(h, i, n), n)
  {
    if Sinks(h, i, n) {
      DownOrders(h, i, n);
    } else {
      forall k | 1 <= k < n && Parent(k) == i ensures h[i].key <= h[k].key {
        LesserChildIsLeast(h, i, n);
      }
      UpOrders(h, i, n);
    }
  }

  lemma {:induction false} PushOrders<T>(h: seq<Entry<T>>, e: Entry<T>)
    requires IsHeap(h)
    ensures IsHeap(Push(h, e))
  {
    forall k | 1 <= k < |h| ensures Ordered(h + [e], k) {
      assert Ordered(h, k);
    }
    UpOrders(h + [e], |h|, |h| + 1);
  }

  /** Changing the key of one entry and calling `heap.Fix` there keeps a heap. */
  lemma {:induction false} FixOrders<T>(h: seq<Entry<T>>, i: nat, e: Entry<T>)
    requires IsHeap(h) && i < |h|
    ensures IsHeap(Sift(h[i := e], i, |h|))
  {
    ChangedKey(h, i, e);
    SiftOrders(h[i := e], i, |h|);
  }

  lemma {:induction false} ChangedKey<T>(h: seq<Entry<T>>, i: nat, e: Entry<T>)
    requires IsHeap(h) && i < |h|
    ensures HeapBut(h[i := e], i, |h|)
  {
    forall k | 1 <= k < |h| && k != i && Parent(k) != i ensures Ordered(h[i := e], k) {
      assert Ordered(h, k);
    }
    forall k | 1 <= k < |h| && Parent(k) == i && i > 0 ensures h[Parent(i)].key <= h[k].key {
      assert Ordered(h, k) && Ordered(h, i);
    }
  }

  /** What remains after a removal is a heap. */
  lemma {:induction false} EvictedOrders<T>(h: seq<Entry<T>>, i: nat)
    requires IsHeap(h) && i < |h|
    ensures IsHeap(Evicted(h, i)[..|h| - 1])
  {
    var n := |h| - 1;
    if i != n {
      var s := Swapped(h, i, n);
      ChangedKey(h, i, h[n]);
      forall k | 1 <= k < n && k != i && Parent(k) != i ensures Ordered(s, k) {
        assert Ordered(h[i := h[n]], k);
      }
      SiftOrders(s, i, n);
    }
    forall k | 1 <= k < n ensures Ordered(Evicted(h, i)[..n], k) {
      assert Ordered(Evicted(h, i), k);
    }
  }

  // ----- Where a pushed entry lands -----

  function UpIndex<T>(h: seq<Entry<T>>, j: nat): (i: nat)
    requires j < |h|
    ensures i < |h|
    decreases j
  {
    if j == 0 || !(h[j].key < h[Parent(j)].key) then j
    else UpIndex(Swapped(h, Parent(j), j), Parent(j))
  }

  /** Everything directly below position `i` has a key greater than `key`. */
  ghost predicate StrictlyAbove<T>(h: seq<Entry<T>>, i: nat, key: int) {
    forall k :: 1 <= k < |h| && Parent(k) == i ==> key < h[k].key
  }

  lemma {:induction false} UpLands<T>(h: seq<Entry<T>>, j: nat)
    requires j < |h|
    ensures Up(h, j)[UpIndex(h, j)] == h[j]
    decreases j
  {
    if j == 0 || !(h[j].key < h[Parent(j)].key) {
    } else {
      UpLands(Swapped(h, Parent(j), j), Parent(j));
    }
  }

  /** Because `up` passes a parent only when strictly less, everything below the
      place where it stops is strictly greater. */
  lemma {:induction false} UpLandsAbove<T>(h: seq<Entry<T>>, j: nat)
    requires j < |h| && HeapBut(h, j, |h|) && AboveChildren(h, j, |h|)
    requires StrictlyAbove(h, j, h[j].key)
    ensures StrictlyAbove(Up(h, j), UpIndex(h, j), h[j].key)
    decreases j
  {
    if j == 0 || !(h[j].key < h[Parent(j)].key) {
    } else {
      var p := Parent(j);
      var s := Swapped(h, p, j);
      UpStep(h, j, |h|);
      forall k | 1 <= k < |h| && Parent(k) == p ensures h[j].key < s[k].key {
        if k != j { assert Ordered(h, k); }
      }
      UpLandsAbove(s, p);
    }
  }

  /** A key can be raised by one, with no sifting, where the children are strictly greater. */
  lemma {:induction false} RaisedKeepsHeap<T>(h: seq<Entry<T>>, i: nat)
    requires IsHeap(h) && i < |h|
    requires StrictlyAbove(h, i, h[i].key)
    ensures IsHeap(h[i := Entry(h[i].item, h[i].key + 1)])
  {
    var raised := h[i := Entry(h[i].item, h[i].key + 1)];
    forall k | 1 <= k < |h| ensures Ordered(raised, k) {
      assert Ordered(h, k);
    }
  }

  // ----- Removal that repairs nothing -----

  /** The list without position `p`: what follows moves up by one. A position at the end of the
      list, where there is nothing, leaves it as it is. */
  function Shifted<T>(s: seq<T>, p: nat): seq<T>
    requires p <= |s|
  {
    if p == |s| then s else s[..p] + s[p + 1..]
  }

  /** The entries that get another parent are not less than that: up to `2 * p + 1`, those at
      odd positions fall to the entry before their old parent; from `2 * p + 2` on, those at
      even positions fall to the entry after it. */
  ghost predicate FitsParents<T>(h: seq<Entry<T>>, p: nat) {
    && (forall j :: 3 <= j < |h| && p < j <= 2 * p + 1 && j % 2 == 1 ==> h[(j - 3) / 2].key <= h[j].key)
    && (forall j :: 2 * p + 2 <= j < |h| && j % 2 == 0 ==> h[j / 2].key <= h[j].key)
  }

  /** A heap from which a position is removed in this way is still a heap exactly then. */
  lemma {:induction false} ShiftedOrders<T>(h: seq<Entry<T>>, p: nat)
    requires IsHeap(h) && p <= |h|
    ensures IsHeap(Shifted(h, p)) <==> FitsParents(h, p)
  {
    if p < |h| {
      if IsHeap(Shifted(h, p)) {
        ShiftedFits(h, p);
      }
      if FitsParents(h, p) {
        FittingIsHeap(h, p);
      }
    }
  }

  lemma {:induction false} ShiftedFits<T>(h: seq<Entry<T>>, p: nat)
    requires IsHeap(h) && p < |h| && IsHeap(Shifted(h, p))
    ensures FitsParents(h, p)
  {
    var r := Shifted(h, p);
    forall j | 3 <= j < |h| && p < j <= 2 * p + 1 && j % 2 == 1 ensures h[(j - 3) / 2].key <= h[j].key {
      assert Ordered(r, j - 1);
    }
    forall j | 2 * p + 2 <= j < |h| && j % 2 == 0 ensures h[j / 2].key <= h[j].key {
      assert Ordered(r, j - 1);
    }
  }

  lemma {:induction false} FittingIsHeap<T>(h: seq<Entry<T>>, p: nat)
    requires IsHeap(h) && p < |h| && FitsParents(h, p)
    ensures IsHeap(Shifted(h, p))
  {
    var r := Shifted(h, p);
    forall k | 1 <= k < |r| ensures Ordered(r, k) {
      if k < p {
        assert Ordered(h, k);
      } else {
        NewParent(h, p, k);
      }
    }
  }

  /** Entry `k + 1` comes to position `k`. */
  lemma {:induction false} NewParent<T>(h: seq<Entry<T>>, p: nat, k: nat)
    requires IsHeap(h) && FitsParents(h, p) && 1 <= k && p <= k < |h| - 1
    ensures (if Parent(k) < p then h[Parent(k)] else h[Parent(k) + 1]).key <= h[k + 1].key
  {
    var j := k + 1;
    assert Ordered(h, j);
    if j % 2 == 1 && Parent(k) < p {
      assert j >= 3 && (j - 3) / 2 == Parent(k);
    } else if j % 2 == 0 && Parent(k) >= p {
      assert j / 2 == Parent(k) + 1;
    }
  }

  function Keyed(keys: seq<int>): (h: seq<Entry<nat>>)
    ensures |h| == |keys| && forall i :: 0 <= i < |keys| ==> h[i] == Entry(i, keys[i])
  {
    seq(|keys|, i requires 0 <= i < |keys| => Entry(i, keys[i]))
  }

  /** The order can be lost, and it can be kept, by the removal of a position that is not last. */
  lemma {:induction false} OrderLost()
    ensures var h := Keyed([0, 1, 5, 2, 3, 6]); IsHeap(h) && !IsHeap(Shifted(h, 1))
  {
    var h := Keyed([0, 1, 5, 2, 3, 6]);
    assert h[4 / 2].key > h[4].key;
    forall k | 1 <= k < |h| ensures Ordered(h, k) {
    }
    ShiftedOrders(h, 1);
  }

  lemma {:induction false} OrderKept(key: int)
    ensures var h := Keyed([key, key, key]); IsHeap(h) && IsHeap(Shifted(h, 0))
  {
    var h := Keyed([key, key, key]);
    forall k | 1 <= k < |h| ensures Ordered(h, k) {
    }
    ShiftedOrders(h, 0);
  }
}
