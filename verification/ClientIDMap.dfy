/** The server's fixed-capacity memory of client addresses: a circular buffer of the
    latest entries, next to a map from client identifiers to buffer positions. */
module ClientIDMaps {
  import opened ClientIds

  datatype Addr = Nil | Addr(value: nat)

  datatype Entry = Entry(clientID: ClientID, addr: Addr)

  datatype Option<T> = None | Some(value: T)

  // ----- What the structure stands for: the entries set so far, in order -----

  /** The position of the latest entry for `id`, or -1. */
  ghost function Latest(history: seq<Entry>, id: ClientID): (k: int)
    ensures -1 <= k < |history|
    ensures k >= 0 ==> history[k].clientID == id
    ensures forall j :: k < j < |history| ==> history[j].clientID != id
  {
    if history == [] then -1
    else if history[|history| - 1].clientID == id then |history| - 1
    else Latest(history[..|history| - 1], id)
  }

  /** The latest address set for `id`, if it is among the last `capacity` entries set. */
  ghost function Recall(history: seq<Entry>, capacity: nat, id: ClientID): Option<Addr> {
    var k := Latest(history, id);
    if k >= 0 && |history| - capacity <= k then Some(history[k].addr) else None
  }

  lemma {:induction false} LatestAppend(history: seq<Entry>, e: Entry, id: ClientID)
    ensures Latest(history + [e], id) == if e.clientID == id then |history| else Latest(history, id)
  {
    assert (history + [e])[..|history|] == history;
  }

  /** Setting an entry makes its own identifier known, if there is any capacity, and can
      make only one other unknown: the one whose latest entry was the oldest kept. */
  lemma {:induction false} SetForgetsAtMostOne(history: seq<Entry>, capacity: nat, e: Entry, id: ClientID)
    requires capacity > 0
    ensures Recall(history + [e], capacity, e.clientID) == Some(e.addr)
    ensures id != e.clientID ==>
      Recall(history + [e], capacity, id) ==
        if |history| >= capacity && Latest(history, id) == |history| - capacity then None
        else Recall(history, capacity, id)
  {
    LatestAppend(history, e, id);
    LatestAppend(history, e, e.clientID);
  }

  // ----- Positions in the buffer -----

  /** Where entry `k` of the history is stored: `k` modulo the capacity. */
  ghost function Position(k: nat, capacity: nat): (i: nat)
    requires capacity > 0
    ensures i < capacity
    ensures k < capacity ==> i == k
  {
    if k < capacity then k else Position(k - capacity, capacity)
  }

  lemma {:induction false} NextPosition(k: nat, capacity: nat)
    requires capacity > 0
    ensures Position(k + 1, capacity) == if Position(k, capacity) + 1 == capacity then 0 else Position(k, capacity) + 1
    decreases k
  {
    if k >= capacity {
      NextPosition(k - capacity, capacity);
    }
  }

  /** Entries that are less than the capacity apart are stored at different places. */
  lemma {:induction false} DistinctPositions(j: nat, k: nat, capacity: nat)
    requires j < k < j + capacity
    ensures Position(j, capacity) != Position(k, capacity)
    decreases j
  {
    if j >= capacity {
      DistinctPositions(j - capacity, k - capacity, capacity);
    }
  }

  lemma {:induction false} SmallModulus(x: nat, m: nat)
    requires 0 < m && x <= m
    ensures x % m == if x == m then 0 else x
  {
  }

  // ----- The buffer and the map against the history -----

  /** Entry `k` of the history is among the last `capacity`. */
  ghost predicate Kept(history: seq<Entry>, capacity: nat, k: int) {
    0 <= k < |history| && |history| - capacity <= k
  }

  /** The buffer holds the entries that are kept; what was never set is zero. */
  ghost predicate Stored(buffer: seq<Entry>, history: seq<Entry>) {
    |buffer| > 0 ==>
      && (forall k :: Kept(history, |buffer|, k) ==> buffer[Position(k, |buffer|)] == history[k])
      && (forall i :: |history| <= i < |buffer| ==> buffer[i] == Entry(ZERO_ID, Nil))
  }

  /** The map knows exactly the identifiers whose latest entry is kept, and where it is. */
  ghost predicate Indexed(current: map<ClientID, nat>, history: seq<Entry>, capacity: nat) {
    && (forall id :: id in current <==> Kept(history, capacity, Latest(history, id)))
    && (forall id :: id in current && capacity > 0 ==> current[id] == Position(Latest(history, id), capacity))
  }

  lemma {:induction false} StoredSet(buffer: seq<Entry>, history: seq<Entry>, e: Entry)
    requires |buffer| > 0 && Stored(buffer, history)
    ensures Stored(buffer[Position(|history|, |buffer|) := e], history + [e])
  {
    var n, capacity := |history|, |buffer|;
    forall k | Kept(history + [e], capacity, k)
      ensures buffer[Position(n, capacity) := e][Position(k, capacity)] == (history + [e])[k]
    {
      if k < n {
        DistinctPositions(k, n, capacity);
        assert Kept(history, capacity, k);
      }
    }
  }

  /** Which identifier the entry about to be overwritten makes unknown. */
  lemma {:induction false} Overwritten(current: map<ClientID, nat>, buffer: seq<Entry>, history: seq<Entry>,
      id: ClientID)
    requires |buffer| > 0 && Stored(buffer, history) && Indexed(current, history, |buffer|)
    ensures var oldest := Position(|history|, |buffer|);
      id == buffer[oldest].clientID && id in current && current[id] == oldest <==>
      |history| >= |buffer| && Latest(history, id) == |history| - |buffer|
  {
    var n, capacity := |history|, |buffer|;
    var k := Latest(history, id);
    if n >= capacity {
      assert Position(n, capacity) == Position(n - capacity, capacity);
      assert Kept(history, capacity, n - capacity);
    }
    if Kept(history, capacity, k) && k > n - capacity {
      DistinctPositions(k, n, capacity);
    }
  }

  lemma {:induction false} IndexedSet(current: map<ClientID, nat>, buffer: seq<Entry>, history: seq<Entry>, e: Entry)
    requires |buffer| > 0 && Stored(buffer, history) && Indexed(current, history, |buffer|)
    ensures var oldest := Position(|history|, |buffer|);
      var held := buffer[oldest].clientID;
      var kept := if held in current && current[held] == oldest then current - {held} else current;
      Indexed(kept[e.clientID := oldest], history + [e], |buffer|)
  {
    var n, capacity := |history|, |buffer|;
    var oldest := Position(n, capacity);
    var held := buffer[oldest].clientID;
    var kept := if held in current && current[held] == oldest then current - {held} else current;
    var after := kept[e.clientID := oldest];
    forall id
      ensures id in after <==> Kept(history + [e], capacity, Latest(history + [e], id))
      ensures id in after ==> after[id] == Position(Latest(history + [e], id), capacity)
    {
      LatestAppend(history, e, id);
      Overwritten(current, buffer, history, id);
    }
  }

  lemma {:induction false} NothingKept(current: map<ClientID, nat>, buffer: seq<Entry>, history: seq<Entry>, e: Entry)
    requires |buffer| == 0 && Stored(buffer, history) && Indexed(current, history, 0)
    ensures Stored(buffer, history + [e]) && Indexed(current, history + [e], 0)
  {
  }

  class ClientIDMap {
    const entries: array<Entry>
    var oldest: nat
    var current: map<ClientID, nat>
    /** Every entry ever set. */
    ghost var history: seq<Entry>

    constructor (capacity: nat)
      ensures Valid() && fresh(entries) && entries.Length == capacity && history == []
    {
      entries := new Entry[capacity](_ => Entry(ZERO_ID, Nil));
      oldest, current, history := 0, map[], [];
    }

    ghost predicate Valid()
      reads this, entries
    {
      && Stored(entries[..], history) && Indexed(current, history, entries.Length)
      && (entries.Length > 0 ==> oldest == Position(|history|, entries.Length))
    }

    method Set(clientID: ClientID, addr: Addr)
      requires Valid()
      modifies this, entries
      ensures Valid() && history == old(history) + [Entry(clientID, addr)]
    {
      hide Stored, Indexed;
      ghost var e := Entry(clientID, addr);
      ghost var buffer := entries[..];
      if entries.Length == 0 {
        NothingKept(current, buffer, history, e);
        history := history + [e];
        return;
      }
      StoredSet(buffer, history, e);
      IndexedSet(current, buffer, history, e);
      NextPosition(|history|, entries.Length);
      SmallModulus(oldest + 1, entries.Length);
      var held := entries[oldest].clientID;
      if held in current && current[held] == oldest {
        current := current - {held};
      }
      entries[oldest] := Entry(clientID, addr);
      assert entries[..] == buffer[oldest := e];
      current := current[clientID := oldest];
      oldest := (oldest + 1) % entries.Length;
      history := history + [e];
    }

    method Get(clientID: ClientID) returns (r: Option<Addr>)
      requires Valid()
      ensures r == Recall(history, entries.Length, clientID)
    {
      if clientID in current {
        r := Some(entries[current[clientID]].addr);
      } else {
        r := None;
      }
    }
  }
}
