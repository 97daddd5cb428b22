/** The map of live clients: a heap by the time each was last seen, next to a map from
    addresses to heap positions. Outside, it is a plain map with expiry. */
module ClientMap {
  import opened Lists
  import opened ClientIds
  import GoHeap
  import opened Entries = GoHeap

  // ----- The plain map that the structure stands for -----

  datatype Slot<Q> = Slot(lastSeen: int, queue: Q)

  /** A client is seen: an unknown one gets the queue `unused`. */
  function Touched<Q>(m: map<ClientID, Slot<Q>>, a: ClientID, now: int, unused: Q): map<ClientID, Slot<Q>> {
    m[a := Slot(now, if a in m then m[a].queue else unused)]
  }

  /** Clients last seen `timeout` ago or longer are dropped. */
  function Expired<Q>(m: map<ClientID, Slot<Q>>, now: int, timeout: int): map<ClientID, Slot<Q>> {
    map a | a in m && now - m[a].lastSeen < timeout :: m[a]
  }

  // ----- The structure -----

  /** A send queue is known by the number it was made under. */
  class ClientRecord {
    const addr: ClientID
    const queue: nat
    var lastSeen: int

    constructor (addr: ClientID, lastSeen: int, queue: nat)
      ensures this.addr == addr && this.lastSeen == lastSeen && this.queue == queue
    {
      this.addr, this.lastSeen, this.queue := addr, lastSeen, queue;
    }
  }

  ghost function EntriesOf(records: seq<ClientRecord>): (h: seq<Entry<ClientRecord>>)
    reads records`lastSeen
    ensures |h| == |records|
    ensures forall i :: 0 <= i < |records| ==> h[i] == Entry(records[i], records[i].lastSeen)
  {
    if records == [] then [] else [Entry(records[0], records[0].lastSeen)] + EntriesOf(records[1..])
  }

  // ----- The list and the map as a pair -----

  /** The list and the map are each other's inverse. */
  ghost predicate Inverse(l: seq<ClientRecord>, m: map<ClientID, int>) {
    && (forall i :: 0 <= i < |l| ==> l[i].addr in m && m[l[i].addr] == i)
    && (forall a :: a in m ==> 0 <= m[a] < |l| && l[m[a]].addr == a)
  }

  ghost function RecordsOf(l: seq<ClientRecord>, m: map<ClientID, int>): map<ClientID, ClientRecord>
    requires Inverse(l, m)
  {
    map a | a in m :: l[m[a]]
  }

  lemma {:induction false} InverseSize(l: seq<ClientRecord>, m: map<ClientID, int>)
    requires Inverse(l, m)
    ensures |l| == |m|
  {
    var addrs := seq(|l|, i requires 0 <= i < |l| => l[i].addr);
    forall i, j | 0 <= i < j < |addrs| ensures addrs[i] != addrs[j] {
      assert m[l[i].addr] == i && m[l[j].addr] == j;
    }
    NoDupCardinality(addrs);
    forall a ensures a in Elems(addrs) <==> a in m.Keys {
      if a in m { assert addrs[m[a]] == a; }
    }
    assert Elems(addrs) == m.Keys;
  }

  lemma {:induction false} InverseAt(l: seq<ClientRecord>, m: map<ClientID, int>, i: nat)
    requires Inverse(l, m) && i < |l|
    ensures l[i].addr in RecordsOf(l, m) && RecordsOf(l, m)[l[i].addr] == l[i]
    ensures l[i].addr in m && m[l[i].addr] == i
  {
  }

  lemma {:induction false} RecordsKeys(l: seq<ClientRecord>, m: map<ClientID, int>)
    requires Inverse(l, m)
    ensures RecordsOf(l, m).Keys == m.Keys
    ensures forall a :: a in m ==> 0 <= m[a] < |l| && l[m[a]].addr == a && RecordsOf(l, m)[a] == l[m[a]]
  {
  }

  lemma {:induction false} InverseSwap(l: seq<ClientRecord>, m: map<ClientID, int>, i: nat, j: nat)
    requires Inverse(l, m) && i < |l| && j < |l|
    ensures var l', m' := l[i := l[j]][j := l[i]], m[l[j].addr := i][l[i].addr := j];
      Inverse(l', m') && RecordsOf(l', m') == RecordsOf(l, m)
  {
  }

  lemma {:induction false} InverseAppend(l: seq<ClientRecord>, m: map<ClientID, int>, r: ClientRecord)
    requires Inverse(l, m) && r.addr !in m
    ensures var l', m' := l + [r], m[r.addr := |l|];
      Inverse(l', m') && RecordsOf(l', m') == RecordsOf(l, m)[r.addr := r]
  {
  }

  lemma {:induction false} InverseCut(l: seq<ClientRecord>, m: map<ClientID, int>)
    requires Inverse(l, m) && |l| > 0
    ensures var r := l[|l| - 1];
      var l', m' := l[..|l| - 1], m - {r.addr};
      Inverse(l', m') && RecordsOf(l', m') == RecordsOf(l, m) - {r.addr}
  {
  }

  // ----- Queues -----

  /** The queue of every live client is open and was made for that client. */
  ghost predicate Open(records: map<ClientID, ClientRecord>, owners: seq<ClientID>, closed: set<nat>) {
    && (forall q :: q in closed ==> q < |owners|)
    && (forall a :: a in records ==>
          records[a].queue < |owners| && owners[records[a].queue] == a && records[a].queue !in closed)
  }

  lemma {:induction false} OpenDrop(records: map<ClientID, ClientRecord>, owners: seq<ClientID>, closed: set<nat>,
      a: ClientID)
    requires Open(records, owners, closed) && a in records
    ensures Open(records - {a}, owners, closed + {records[a].queue})
  {
  }

  lemma {:induction false} OpenAdd(records: map<ClientID, ClientRecord>, owners: seq<ClientID>, closed: set<nat>,
      r: ClientRecord)
    requires Open(records, owners, closed) && r.addr !in records && r.queue == |owners|
    ensures Open(records[r.addr := r], owners + [r.addr], closed)
  {
  }

  ghost function QueuesOf(m: map<ClientID, Slot<nat>>): set<nat> {
    set a | a in m :: m[a].queue
  }

  lemma {:induction false} QueuesOfDropped(all: map<ClientID, Slot<nat>>, live: map<ClientID, Slot<nat>>, a: ClientID)
    requires a in all && a in live
    ensures QueuesOf(all - (live - {a}).Keys) == QueuesOf(all - live.Keys) + {all[a].queue}
  {
    var before, after := all - live.Keys, all - (live - {a}).Keys;
    assert forall b :: b in after <==> b in before || b == a;
    forall q ensures q in QueuesOf(after) <==> q in QueuesOf(before) + {all[a].queue} {
      if q in QueuesOf(before) {
        var b :| b in before && before[b].queue == q;
        assert b in after;
      }
      if q == all[a].queue { assert a in after; }
    }
  }

  ghost function ViewOf(records: map<ClientID, ClientRecord>): map<ClientID, Slot<nat>>
    reads set a | a in records :: records[a]
  {
    map a | a in records :: Slot(records[a].lastSeen, records[a].queue)
  }

  lemma {:induction false} ViewDrop(records: map<ClientID, ClientRecord>, a: ClientID)
    requires a in records
    ensures ViewOf(records - {a}) == ViewOf(records) - {a}
    ensures a in ViewOf(records) && ViewOf(records)[a] == Slot(records[a].lastSeen, records[a].queue)
  {
  }

  lemma {:induction false} ViewAdd(records: map<ClientID, ClientRecord>, r: ClientRecord)
    ensures ViewOf(records[r.addr := r]) == ViewOf(records)[r.addr := Slot(r.lastSeen, r.queue)]
  {
  }

  class ClientMapInner {
    var byAge: seq<ClientRecord>
    var byAddr: map<ClientID, int>
    /** Queues made so far are numbered below `made`; `closed` are those closed again. */
    var made: nat
    var closed: set<nat>
    /** The clients the queues were made for. */
    ghost var owners: seq<ClientID>

    constructor ()
      ensures Valid() && View() == map[] && Records() == map[] && made == 0 && closed == {}
    {
      byAge, byAddr, made, closed, owners := [], map[], 0, {}, [];
    }

    ghost predicate Linked()
      reads this
    {
      Inverse(byAge, byAddr)
    }

    ghost function Records(): map<ClientID, ClientRecord>
      requires Linked()
      reads this
    {
      RecordsOf(byAge, byAddr)
    }

    ghost function Entries(): seq<Entry<ClientRecord>>
      reads this, byAge`lastSeen
    {
      EntriesOf(byAge)
    }

    ghost function View(): map<ClientID, Slot<nat>>
      requires Linked()
      reads this, byAge
    {
      ViewOf(Records())
    }

    ghost predicate Valid()
      reads this, byAge`lastSeen
    {
      Linked() && GoHeap.IsHeap(Entries()) && |owners| == made && Open(Records(), owners, closed)
    }

    /** The length, with the consistency check that panics in the program. */
    method Len() returns (n: nat)
      requires Linked()
      ensures n == |byAge|
    {
      InverseSize(byAge, byAddr);
      if |byAge| != |byAddr| {
        assert false; // "inconsistent clientMap"
      }
      n := |byAge|;
    }

    method Swap(i: nat, j: nat)
      requires Linked() && i < |byAge| && j < |byAge|
      modifies this`byAge, this`byAddr
      ensures Linked() && Records() == old(Records()) && |byAge| == old(|byAge|)
      ensures Entries() == GoHeap.Swapped(old(Entries()), i, j)
    {
      InverseSwap(byAge, byAddr, i, j);
      hide Inverse, RecordsOf;
      byAge := byAge[i := byAge[j]][j := byAge[i]];
      byAddr := byAddr[byAge[i].addr := i];
      byAddr := byAddr[byAge[j].addr := j];
    }

    method Up(j0: nat)
      requires Linked() && j0 < |byAge|
      modifies this`byAge, this`byAddr
      ensures Linked() && Records() == old(Records())
      ensures Entries() == GoHeap.Up(old(Entries()), j0)
    {
      hide Inverse, RecordsOf;
      var j := j0;
      while true
        invariant 0 <= j < |byAge| && Linked() && Records() == old(Records())
        invariant GoHeap.Up(Entries(), j) == GoHeap.Up(old(Entries()), j0)
        decreases j
      {
        var i := if j == 0 then 0 else (j - 1) / 2;
        if i == j || !(byAge[j].lastSeen < byAge[i].lastSeen) {
          break;
        }
        Swap(i, j);
        j := i;
      }
    }

    /** The child that `down` swaps with `i`, or `i` itself when none is less. */
    method LesserBelow(i: nat, n: nat) returns (j: nat)
      requires i < n <= |byAge|
      ensures j == if GoHeap.Sinks(Entries(), i, n) then GoHeap.LesserChild(Entries(), i, n) else i
    {
      var j1 := 2 * i + 1;
      if j1 >= n {
        return i;
      }
      j := j1;
      if j1 + 1 < n && byAge[j1 + 1].lastSeen < byAge[j1].lastSeen {
        j := j1 + 1;
      }
      if !(byAge[j].lastSeen < byAge[i].lastSeen) {
        return i;
      }
    }

    /** One turn of the loop of `down`. */
    method SinkOnce(i: nat, n: nat) returns (j: nat)
      requires Linked() && i < n <= |byAge|
      modifies this`byAge, this`byAddr
      ensures Linked() && Records() == old(Records()) && |byAge| == old(|byAge|)
      ensures j == if GoHeap.Sinks(old(Entries()), i, n) then GoHeap.LesserChild(old(Entries()), i, n) else i
      ensures Entries() == if j == i then old(Entries()) else GoHeap.Swapped(old(Entries()), i, j)
    {
      hide Inverse, RecordsOf;
      j := LesserBelow(i, n);
      if j != i {
        Swap(i, j);
      }
    }

    method Down(i0: nat, n: nat) returns (moved: bool)
      requires Linked() && i0 < n <= |byAge|
      modifies this`byAge, this`byAddr
      ensures Linked() && Records() == old(Records()) && |byAge| == old(|byAge|)
      ensures moved == GoHeap.Sinks(old(Entries()), i0, n)
      ensures Entries() == GoHeap.Down(old(Entries()), i0, n)
    {
      hide Inverse, RecordsOf;
      var i := i0;
      while true
        invariant i0 <= i < n <= |byAge| && Linked() && Records() == old(Records()) && |byAge| == old(|byAge|)
        invariant GoHeap.Down(Entries(), i, n) == GoHeap.Down(old(Entries()), i0, n)
        invariant i == i0 ==> Entries() == old(Entries())
        invariant i > i0 ==> GoHeap.Sinks(old(Entries()), i0, n)
        decreases n - i
      {
        var j := SinkOnce(i, n);
        if j == i {
          break;
        }
        i := j;
      }
      return i > i0;
    }

    /** `heap.Fix` */
    method Fix(i: nat)
      requires Linked() && i < |byAge|
      modifies this`byAge, this`byAddr
      ensures Linked() && Records() == old(Records())
      ensures Entries() == GoHeap.Sift(old(Entries()), i, |old(byAge)|)
    {
      hide Inverse, RecordsOf;
      var n := Len();
      var moved := Down(i, n);
      if !moved {
        assert Entries() == old(Entries());
        Up(i);
      }
    }

    /** The type's own `Push`, which panics on an address it already has. */
    method Append(record: ClientRecord)
      requires Linked() && record.addr !in byAddr
      modifies this`byAge, this`byAddr
      ensures Linked() && Records() == old(Records())[record.addr := record]
      ensures byAge == old(byAge) + [record]
    {
      InverseAppend(byAge, byAddr, record);
      if record.addr in byAddr {
        assert false; // "duplicate address in clientMap"
      }
      byAddr := byAddr[record.addr := |byAge|];
      byAge := byAge + [record];
    }

    /** `heap.Push` */
    method HeapPush(record: ClientRecord)
      requires Linked() && record.addr !in byAddr
      modifies this`byAge, this`byAddr
      ensures Linked() && Records() == old(Records())[record.addr := record]
      ensures Entries() == GoHeap.Push(old(Entries()), Entry(record, record.lastSeen))
    {
      hide Inverse, RecordsOf;
      Append(record);
      assert Entries() == old(Entries()) + [Entry(record, record.lastSeen)];
      var n := Len();
      Up(n - 1);
    }

    /** The type's own `Pop`: cuts off the last record and closes its queue. */
    method CutLast() returns (record: ClientRecord)
      requires Linked() && |byAge| > 0 && byAge[|byAge| - 1].queue !in closed
      modifies this`byAge, this`byAddr, this`closed
      ensures record == old(byAge)[|old(byAge)| - 1] && closed == old(closed) + {record.queue}
      ensures Linked() && Records() == old(Records()) - {record.addr}
      ensures Entries() == old(Entries())[..|old(byAge)| - 1]
    {
      InverseSize(byAge, byAddr);
      InverseCut(byAge, byAddr);
      hide Inverse, RecordsOf;
      var n := |byAddr|;
      record := byAge[n - 1];
      byAge := byAge[..n - 1];
      byAddr := byAddr - {record.addr};
      if record.queue in closed {
        assert false; // close of a closed channel
      }
      closed := closed + {record.queue};
    }

    method SinkRoot()
      requires Linked() && |byAge| > 0
      modifies this`byAge, this`byAddr
      ensures Linked() && Records() == old(Records())
      ensures Entries() == GoHeap.PopList(old(Entries()))
    {
      hide Inverse, RecordsOf;
      var len := Len();
      Swap(0, len - 1);
      if len > 1 {
        var _ := Down(0, len - 1);
      }
    }

    /** `heap.Pop` */
    method HeapPop() returns (record: ClientRecord)
      requires Linked() && |byAge| > 0 && Open(Records(), owners, closed)
      modifies this`byAge, this`byAddr, this`closed
      ensures record == old(byAge)[0] && closed == old(closed) + {record.queue}
      ensures Linked() && Records() == old(Records()) - {record.addr}
      ensures Entries() == GoHeap.PopList(old(Entries()))[..|old(byAge)| - 1]
    {
      GoHeap.PopIsEvictRoot(Entries());
      GoHeap.EvictedLast(Entries(), 0);
      hide GoHeap.PopList, GoHeap.Evicted, Inverse, RecordsOf;
      ghost var before := Entries();
      SinkRoot();
      assert Entries()[|byAge| - 1] == before[0];
      InverseAt(byAge, byAddr, |byAge| - 1);
      record := CutLast();
    }

    /** One step of the expiry loop: the client that was seen first goes. */
    method DropOldest() returns (ghost a: ClientID)
      requires Valid() && |byAge| > 0
      modifies this`byAge, this`byAddr, this`closed
      ensures Valid() && |byAge| < old(|byAge|)
      ensures a in old(View()) && old(View())[a].lastSeen == old(byAge[0].lastSeen)
      ensures View() == old(View()) - {a} && closed == old(closed) + {old(View())[a].queue}
      ensures Records() == old(Records()) - {a}
    {
      hide Inverse, RecordsOf, GoHeap.IsHeap, GoHeap.PopList, GoHeap.Evicted, Open, EntriesOf;
      ghost var records := Records();
      RecordsKeys(byAge, byAddr);
      assert forall b :: b in records ==> records[b] == byAge[byAddr[b]];
      a := byAge[0].addr;
      GoHeap.PopIsEvictRoot(Entries());
      GoHeap.EvictedOrders(Entries(), 0);
      InverseAt(byAge, byAddr, 0);
      OpenDrop(records, owners, closed, a);
      ViewDrop(records, a);
      var _ := HeapPop();
      assert Records() == records - {a};
    }

    /** No client was seen before the one at the root. */
    lemma {:induction false} OldestFirst()
      requires Valid()
      ensures forall a :: a in View() ==> |byAge| > 0 && byAge[0].lastSeen <= View()[a].lastSeen
    {
      forall a | a in View() ensures |byAge| > 0 && byAge[0].lastSeen <= View()[a].lastSeen {
        GoHeap.RootIsLeast(Entries(), |byAge|, byAddr[a]);
      }
    }

    /** Drops every client last seen `timeout` ago or longer, and closes its queue. */
    method RemoveExpired(now: int, timeout: int)
      requires Valid()
      modifies this`byAge, this`byAddr, this`closed
      ensures Valid()
      ensures View() == Expired(old(View()), now, timeout)
      ensures closed == old(closed) + QueuesOf(old(View()) - View().Keys)
      ensures Records().Values <= old(Records()).Values
    {
      hide Inverse, RecordsOf, GoHeap.IsHeap, EntriesOf, Open;
      ghost var view := View();
      while true
        invariant Valid() && Records().Values <= old(Records()).Values
        invariant View().Keys <= view.Keys
        invariant forall a :: a in View() ==> View()[a] == view[a]
        invariant forall a :: a in view && a !in View() ==> now - view[a].lastSeen >= timeout
        invariant closed == old(closed) + QueuesOf(view - View().Keys)
        decreases |byAge|
      {
        var n := Len();
        if !(n > 0 && now - byAge[0].lastSeen >= timeout) {
          break;
        }
        ghost var live := View();
        ghost var a := DropOldest();
        QueuesOfDropped(view, live, a);
      }
      OldestFirst();
    }

    /** Notes a time in the record at position `i`, with no regard for the order. */
    method Stamp(i: nat, now: int)
      requires Linked() && i < |byAge|
      modifies byAge[i..i + 1]`lastSeen
      ensures Entries() == old(Entries())[i := Entry(byAge[i], now)]
      ensures View() == old(View())[byAge[i].addr := Slot(now, byAge[i].queue)]
    {
      DistinctRecords(byAge, byAddr, i);
      var record := byAge[i];
      record.lastSeen := now;
    }

    /** A known client is seen again. */
    method Refresh(addr: ClientID, now: int) returns (queue: nat)
      requires Valid() && addr in byAddr
      modifies this`byAge, this`byAddr, byAge`lastSeen
      ensures Valid() && View() == Touched(old(View()), addr, now, made) && Records() == old(Records())
      ensures addr in View() && queue == View()[addr].queue
    {
      hide Inverse, RecordsOf, GoHeap.IsHeap, GoHeap.Sift, EntriesOf, Open;
      RecordsKeys(byAge, byAddr);
      var i := byAddr[addr];
      ghost var before := Entries();
      GoHeap.FixOrders(before, i, Entry(byAge[i], now));
      queue := byAge[i].queue;
      Stamp(i, now);
      ghost var records, stamped := Records(), View();
      hide ViewOf;
      Fix(i);
      assert Records() == records && View() == stamped;
    }

    /** A client not known yet is seen: it gets a record and a new queue. */
    method Admit(addr: ClientID, now: int) returns (queue: nat)
      requires Valid() && addr !in byAddr
      modifies this`byAge, this`byAddr, this`made, this`owners
      ensures Valid() && View() == Touched(old(View()), addr, now, old(made))
      ensures fresh(Records().Values - old(Records()).Values)
      ensures queue == old(made) && made == old(made) + 1
      ensures addr in View() && queue == View()[addr].queue
    {
      hide Inverse, RecordsOf, GoHeap.IsHeap, GoHeap.Push, EntriesOf, Open;
      RecordsKeys(byAge, byAddr);
      queue := made;
      made := made + 1;
      var record := new ClientRecord(addr, now, queue);
      GoHeap.PushOrders(Entries(), Entry(record, now));
      OpenAdd(Records(), owners, closed, record);
      owners := owners + [addr];
      ViewAdd(Records(), record);
      ghost var records := Records()[addr := record];
      ghost var view := ViewOf(records);
      hide ViewOf;
      HeapPush(record);
      assert Records() == records && View() == view;
    }

    /** The queues of live clients were made, are open, and are not shared. */
    lemma {:induction false} LiveQueues()
      requires Valid()
      ensures forall a :: a in View() ==> View()[a].queue < made && View()[a].queue !in closed
      ensures forall a, b :: a in View() && b in View() && View()[a].queue == View()[b].queue ==> a == b
    {
    }

    lemma {:induction false} ListedRecords()
      requires Valid()
      ensures forall r :: r in byAge ==> r in Records().Values
    {
      forall r | r in byAge ensures r in Records().Values {
        var i :| 0 <= i < |byAge| && byAge[i] == r;
        InverseAt(byAge, byAddr, i);
      }
    }

    /** Finds or creates the queue of a client and notes when it was seen. */
    method SendQueue(addr: ClientID, now: int) returns (queue: nat)
      requires Valid()
      modifies this`byAge, this`byAddr, this`made, this`owners, byAge`lastSeen
      ensures Valid() && View() == Touched(old(View()), addr, now, old(made))
      ensures addr in View() && queue == View()[addr].queue && queue !in closed
      ensures made == if addr in old(View()) then old(made) else old(made) + 1
      ensures fresh(Records().Values - old(Records()).Values)
    {
      if addr in byAddr {
        queue := Refresh(addr, now);
      } else {
        queue := Admit(addr, now);
      }
    }
  }

  lemma {:induction false} DistinctRecords(l: seq<ClientRecord>, m: map<ClientID, int>, i: nat)
    requires Inverse(l, m) && i < |l|
    ensures forall j :: 0 <= j < |l| && j != i ==> l[j] != l[i]
    ensures forall a :: a in m && a != l[i].addr ==> l[m[a]] != l[i]
  {
  }
}
