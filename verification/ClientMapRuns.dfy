/** Whole runs of the client map: which clients are present, and when a client keeps
    its queue. Each event is one call, at the time the caller's clock showed. */
module ClientMapRuns {
  import opened ClientIds
  import opened ClientMap
  import GoHeap

  datatype Event = Seen(addr: ClientID, time: int) | Sweep(time: int)

  /** The map after one event; a queue that is made gets the number `unused`. */
  ghost function After(m: map<ClientID, Slot<nat>>, e: Event, timeout: int, unused: nat): map<ClientID, Slot<nat>> {
    match e
    case Seen(a, now) => Touched(m, a, now, unused)
    case Sweep(now) => Expired(m, now, timeout)
  }

  /** The map after the first `n` events. A queue made by an event carries its number. */
  ghost function Run(events: seq<Event>, timeout: int, n: nat): map<ClientID, Slot<nat>>
    requires n <= |events|
  {
    if n == 0 then map[] else After(Run(events, timeout, n - 1), events[n - 1], timeout, n - 1)
  }

  ghost predicate SeenAt(events: seq<Event>, a: ClientID, i: int) {
    0 <= i < |events| && events[i].Seen? && events[i].addr == a
  }

  /** The last of the first `n` events at which `a` was seen, or -1. */
  ghost function LastSeen(events: seq<Event>, a: ClientID, n: nat): (j: int)
    requires n <= |events|
    ensures -1 <= j < n
    ensures j >= 0 ==> SeenAt(events, a, j)
  {
    if n == 0 then -1
    else if SeenAt(events, a, n - 1) then n - 1
    else LastSeen(events, a, n - 1)
  }

  /** Sweep `i` comes `timeout` or more after event `j`. */
  ghost predicate Overdue(events: seq<Event>, timeout: int, j: int, i: int)
    requires 0 <= j < |events| && 0 <= i < |events|
  {
    events[i].Sweep? && events[i].time - events[j].time >= timeout
  }

  /** A client is present exactly when it was seen and no sweep since then found it overdue. */
  lemma {:induction false} PresentExactly(events: seq<Event>, timeout: int, a: ClientID, n: nat)
    requires n <= |events|
    ensures var j := LastSeen(events, a, n);
      a in Run(events, timeout, n) <==> j >= 0 && forall i :: j < i < n ==> !Overdue(events, timeout, j, i)
    ensures a in Run(events, timeout, n) ==>
      LastSeen(events, a, n) >= 0 && Run(events, timeout, n)[a].lastSeen == events[LastSeen(events, a, n)].time
  {
    if n == 0 {
    } else {
      PresentExactly(events, timeout, a, n - 1);
      var j := LastSeen(events, a, n);
      if !SeenAt(events, a, n - 1) && j >= 0 {
        assert Overdue(events, timeout, j, n - 1) <==>
          events[n - 1].Sweep? && events[n - 1].time - events[j].time >= timeout;
      }
    }
  }

  /** While no sweep finds it overdue, a client keeps the queue it has. */
  lemma {:induction false} KeepsQueue(events: seq<Event>, timeout: int, a: ClientID, m: nat, n: nat)
    requires m <= n <= |events| && a in Run(events, timeout, m)
    requires forall i :: m <= i < n && LastSeen(events, a, i) >= 0 ==>
      !Overdue(events, timeout, LastSeen(events, a, i), i)
    ensures a in Run(events, timeout, n) && Run(events, timeout, n)[a].queue == Run(events, timeout, m)[a].queue
    decreases n
  {
    if m < n {
      KeepsQueue(events, timeout, a, m, n - 1);
      PresentExactly(events, timeout, a, n - 1);
    }
  }

  ghost predicate NonDecreasing(events: seq<Event>) {
    forall i, j :: 0 <= i <= j < |events| ==> events[i].time <= events[j].time
  }

  /** From event `i` on, the client is seen again less than `timeout` after it last was. */
  ghost predicate SeenSoon(events: seq<Event>, timeout: int, a: ClientID, i: nat)
    requires i < |events|
  {
    LastSeen(events, a, i) >= 0 &&
    exists k :: i <= k && SeenAt(events, a, k) && events[k].time - events[LastSeen(events, a, i)].time < timeout
  }

  /** A client that is seen more often than the timeout has one queue for the whole run,
      if the clock never goes back. */
  lemma {:induction false} OneQueueForTheRun(events: seq<Event>, timeout: int, a: ClientID, first: nat, n: nat)
    requires NonDecreasing(events) && first < n <= |events| && SeenAt(events, a, first)
    requires forall i :: first < i < n ==> SeenSoon(events, timeout, a, i)
    ensures a in Run(events, timeout, first + 1) && a in Run(events, timeout, n)
    ensures Run(events, timeout, n)[a].queue == Run(events, timeout, first + 1)[a].queue
  {
    forall i | first + 1 <= i < n && LastSeen(events, a, i) >= 0
      ensures !Overdue(events, timeout, LastSeen(events, a, i), i)
    {
      assert SeenSoon(events, timeout, a, i);
      var k :| i <= k && SeenAt(events, a, k) && events[k].time - events[LastSeen(events, a, i)].time < timeout;
      assert events[i].time <= events[k].time;
    }
    KeepsQueue(events, timeout, a, first + 1, n);
  }

  /** A queue comes from an event at which its client was seen. */
  lemma {:induction false} QueueOrigin(events: seq<Event>, timeout: int, a: ClientID, n: nat)
    requires n <= |events| && a in Run(events, timeout, n)
    ensures Run(events, timeout, n)[a].queue < n && SeenAt(events, a, Run(events, timeout, n)[a].queue)
  {
    if n > 0 && a in Run(events, timeout, n - 1) {
      QueueOrigin(events, timeout, a, n - 1);
    }
  }

  /** Once a sweep finds it overdue, a client is gone, and if it comes back later it has
      another queue. */
  lemma {:induction false} LosesQueue(events: seq<Event>, timeout: int, a: ClientID, i: nat, n: nat)
    requires i < n <= |events| && a in Run(events, timeout, i)
    requires LastSeen(events, a, i) >= 0 && Overdue(events, timeout, LastSeen(events, a, i), i)
    ensures a !in Run(events, timeout, i + 1)
    ensures a in Run(events, timeout, n) ==>
      Run(events, timeout, n)[a].queue > i && Run(events, timeout, n)[a].queue != Run(events, timeout, i)[a].queue
    decreases n
  {
    PresentExactly(events, timeout, a, i);
    QueueOrigin(events, timeout, a, i);
    if n > i + 1 {
      LosesQueue(events, timeout, a, i, n - 1);
    }
  }

  // ----- Runs of the structure -----

  /** Queue `q` of one map is the queue `names[q]` of the other. */
  ghost predicate Renamed(view: map<ClientID, Slot<nat>>, run: map<ClientID, Slot<nat>>, names: seq<nat>) {
    && view.Keys == run.Keys
    && forall a :: a in view ==> view[a].queue < |names| && run[a] == Slot(view[a].lastSeen, names[view[a].queue])
  }

  /** The numbers of some of the first `n` events, in order: different queues have different names. */
  ghost predicate EventNumbers(names: seq<nat>, n: nat) {
    && (forall q :: 0 <= q < |names| ==> names[q] < n)
    && (forall p, q :: 0 <= p < q < |names| ==> names[p] < names[q])
  }

  /** Whether an event makes a queue. */
  ghost predicate Makes(m: map<ClientID, Slot<nat>>, e: Event) {
    e.Seen? && e.addr !in m
  }

  lemma {:induction false} RenamedAfter(view: map<ClientID, Slot<nat>>, run: map<ClientID, Slot<nat>>, names: seq<nat>,
      e: Event, timeout: int, i: nat)
    requires Renamed(view, run, names) && EventNumbers(names, i)
    ensures var more := if Makes(view, e) then names + [i] else names;
      && Renamed(After(view, e, timeout, |names|), After(run, e, timeout, i), more)
      && EventNumbers(more, i + 1)
  {
  }

  /** The queue returned at each of the first `n` events at which a client was seen is the one
      that the client has then. */
  ghost predicate Returned(events: seq<Event>, timeout: int, queues: seq<nat>, names: seq<nat>, n: nat)
    requires n <= |events|
  {
    |queues| == n && forall i :: 0 <= i < n && events[i].Seen? ==>
      && events[i].addr in Run(events, timeout, i + 1) && queues[i] < |names|
      && names[queues[i]] == Run(events, timeout, i + 1)[events[i].addr].queue
  }

  lemma {:induction false} ReturnedNext(events: seq<Event>, timeout: int, queues: seq<nat>, names: seq<nat>, i: nat,
      view: map<ClientID, Slot<nat>>, queue: nat, more: seq<nat>)
    requires i < |events| && Returned(events, timeout, queues, names, i)
    requires |more| >= |names| && more[..|names|] == names && Renamed(view, Run(events, timeout, i + 1), more)
    requires events[i].Seen? ==> events[i].addr in view && view[events[i].addr].queue == queue
    ensures Returned(events, timeout, queues + [queue], more, i + 1)
  {
    hide Run;
    forall k | 0 <= k < |names| ensures more[k] == names[k] {
      assert more[..|names|][k] == more[k];
    }
  }

  lemma {:induction false} NothingPlayed(events: seq<Event>, timeout: int)
    ensures EventNumbers([], 0) && Renamed(map[], Run(events, timeout, 0), []) && Returned(events, timeout, [], [], 0)
  {
  }

  /** One event is one call. */
  method PlayOne(s: ClientMapInner, e: Event, timeout: int) returns (queue: nat)
    requires s.Valid()
    modifies s, s.Records().Values
    ensures s.Valid() && forall r :: r in s.Records().Values ==> r in old(s.Records().Values) || fresh(r)
    ensures s.View() == After(old(s.View()), e, timeout, old(s.made))
    ensures s.made == old(s.made) + (if Makes(old(s.View()), e) then 1 else 0)
    ensures e.Seen? ==> e.addr in s.View() && s.View()[e.addr].queue == queue
  {
    hide Touched, Expired, ClientMapInner.Valid, Inverse, RecordsOf;
    s.ListedRecords();
    match e {
      case Seen(a, now) =>
        queue := s.SendQueue(a, now);
      case Sweep(now) =>
        s.RemoveExpired(now, timeout);
        queue := 0;
    }
  }

  /** Plays the events on the structure. It runs as the map does, except that queues are
      numbered in the order in which they were made. */
  method Play(events: seq<Event>, timeout: int) returns (s: ClientMapInner, queues: seq<nat>, ghost names: seq<nat>)
    ensures fresh(s) && s.Valid() && |names| == s.made && EventNumbers(names, |events|)
    ensures Renamed(s.View(), Run(events, timeout, |events|), names)
    ensures Returned(events, timeout, queues, names, |events|)
  {
    s := new ClientMapInner();
    queues, names := [], [];
    hide After, Renamed, EventNumbers, Returned, Makes, Inverse, RecordsOf, Open, EntriesOf, ViewOf, GoHeap.IsHeap;
    NothingPlayed(events, timeout);
    for i := 0 to |events|
      invariant fresh(s) && s.Valid() && |names| == s.made && EventNumbers(names, i)
      invariant forall r :: r in s.Records().Values ==> fresh(r)
      invariant Renamed(s.View(), Run(events, timeout, i), names) && Returned(events, timeout, queues, names, i)
    {
      ghost var view, before := s.View(), names;
      RenamedAfter(view, Run(events, timeout, i), names, events[i], timeout, i);
      var queue := PlayOne(s, events[i], timeout);
      names := if Makes(view, events[i]) then names + [i] else names;
      ReturnedNext(events, timeout, queues, before, i, s.View(), queue, names);
      queues := queues + [queue];
    }
  }
}
