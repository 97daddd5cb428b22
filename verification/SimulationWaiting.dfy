/** The censor that waits, with proxies rejuvenated every three steps: before step 160, no run
    ends with the exception. At any time some open proxy has no agent that is due before the
    next rejuvenation. */
module SimulationWaiting {
  import opened SimulationTables
  import opened SimulationHolders
  import opened SimulationMatches
  import opened SimulationSteps
  import opened SimulationTraces

  /** An agent's assignment to an open proxy. */
  ghost predicate Exposes(t: Tables, a: Assignment) {
    a in t.assignments && IsAgent(t, a.client) && Live(t.proxies, a)
  }

  /** The proxy is open, and no agent was assigned to it before time `since`. */
  ghost predicate Late(t: Tables, k: nat, since: int) {
    k < |t.proxies| && !t.proxies[k].isBlocked && forall a :: Exposes(t, a) && a.proxy == Row(k) ==> a.time >= since
  }

  /** Agents came to one proxy only, each at the time of an arrival. */
  ghost predicate OnlyAt(t: Tables, p: nat, since: int) {
    forall a :: Exposes(t, a) && a.time > since ==> a.proxy == Row(p) && a.time >= 0 && NewClient(a.time)
  }

  /** The last step before `now` at which proxies were rejuvenated. */
  function LastMove(now: nat): nat
    requires now > 0
  {
    (now - 1) / 3 * 3
  }

  /** What holds at the start of a step: assignments are not later than that, agents that are due
      were found out, some proxy is late, and if none is blocked, agents came to one only. */
  ghost predicate Spared(t: Tables, now: nat)
    requires now > 0
  {
    && (forall a :: a in t.assignments ==> a.time < now)
    && (forall a :: Exposes(t, a) ==> a.time >= now - 3)
    && (exists k: nat :: Late(t, k, LastMove(now)))
    && (AllOpen(t.proxies) ==> exists p: nat :: OnlyAt(t, p, LastMove(now)))
  }

  ghost predicate IsStep(u: Setup, x: Passage) {
    && u.optimal && u.interval == 3 && x.now < |u.chances| && IsPassage(u, x, x.now) && Ready(u, x.before, x.now)
  }

  // ----- One step -----

  /** What exposes after the step, and is not new, did so before. */
  lemma {:induction false} ExposedBefore(u: Setup, x: Passage)
    requires IsStep(u, x)
    ensures forall a :: Exposes(x.after, a) && a.time != x.now ==>
      Exposes(x.before, a) && !Reset(x, a) && a.proxy.id !in x.log.targets
  {
    hide Passes, Sound, InPlaces, ClientIp, NewClient, IsAgent;
    SoundRows(x.before);
    BlockedAfter(x);
    ProxiesAfter(x);
    OldAssignments(x);
    forall a | Exposes(x.after, a) && a.time != x.now
      ensures Exposes(x.before, a) && !Reset(x, a) && a.proxy.id !in x.log.targets
    {
      assert a in x.before.assignments && a.proxy.id < |x.before.proxies|;
    }
  }

  lemma {:induction false} SoundRows(t: Tables)
    requires Sound(t)
    ensures AllActive(t.proxies) && forall a :: a in t.assignments ==> a.proxy.Row? && a.proxy.id < |t.proxies|
  {
  }

  lemma {:induction false} DueIsTarget(u: Setup, x: Passage, a: Assignment)
    requires IsStep(u, x) && Exposes(x.before, a) && a.time < x.now - 2
    ensures a.proxy.id in x.log.targets
  {
    hide Passes, InPlaces, ClientIp, NewClient;
    assert IsTarget(x.before, true, a.proxy.id, x.now);
  }

  lemma {:induction false} TimesAfter(u: Setup, x: Passage)
    requires IsStep(u, x) && forall a :: a in x.before.assignments ==> a.time < x.now
    ensures forall a :: a in x.after.assignments ==> a.time < x.now + 1
    ensures forall a :: Exposes(x.after, a) ==> a.time >= x.now - 2
  {
    hide Passes, Sound, InPlaces, ClientIp, NewClient, IsAgent, Reset, Live;
    SoundRows(x.before);
    AssignmentsAfter(x);
    assert x.after.assignments == x.served.assignments + x.after.assignments[|x.served.assignments|..];
    ExposedBefore(u, x);
    forall a | Exposes(x.after, a) ensures a.time >= x.now - 2 {
      if a.time < x.now - 2 {
        DueIsTarget(u, x, a);
      }
    }
  }

  /** Without rejuvenation, a proxy that is late is no target. */
  lemma {:induction false} LateStays(u: Setup, x: Passage, k: nat, since: int)
    requires IsStep(u, x) && !x.moves && Late(x.before, k, since) && x.now - 2 <= since <= x.now
    ensures k < |x.served.proxies| && !x.served.proxies[k].isBlocked && Late(x.after, k, since)
  {
    ExposedBefore(u, x);
    SoundRows(x.before);
    hide Passes, Sound, InPlaces, ClientIp, NewClient, IsAgent, Reset;
    BlockedAfter(x);
    ProxiesAfter(x);
    assert k !in x.log.targets;
  }

  /** A step without targets adds at most the arriving client's assignment. */
  lemma {:induction false} QuietStep(u: Setup, x: Passage, p: nat, since: nat) returns (q: nat)
    requires IsStep(u, x) && !x.moves && x.log.targets == [] && AllOpen(x.before.proxies)
    requires OnlyAt(x.before, p, since) && since < x.now <= since + 2
    requires forall a :: a in x.before.assignments ==> a.time < x.now
    ensures OnlyAt(x.after, q, since)
  {
    hide Passes, Sound, InPlaces, ClientIp, IsAgent, Reset;
    q := if NewClient(x.now) then x.k else p;
    NothingHit(x);
    ExposedBefore(u, x);
    AssignmentsAdded(x);
    assert x.after.assignments == x.served.assignments + x.after.assignments[|x.served.assignments|..];
  }

  /** A step without rejuvenation. */
  lemma {:induction false} StaysSpared(u: Setup, x: Passage)
    requires IsStep(u, x) && !x.moves && x.now > 0 && x.now - 2 <= LastMove(x.now) && Spared(x.before, x.now)
    requires LastMove(x.now + 1) == LastMove(x.now)
    ensures Spared(x.after, x.now + 1)
  {
    hide Passes, Sound, InPlaces, ClientIp, NewClient, IsAgent, Reset, Exposes, Late, OnlyAt;
    var since := LastMove(x.now);
    TimesAfter(u, x);
    var k: nat :| Late(x.before, k, since);
    LateStays(u, x, k, since);
    if AllOpen(x.after.proxies) {
      NoTargets(u, x);
      var p: nat :| OnlyAt(x.before, p, since);
      var q := QuietStep(u, x, p, since);
    }
  }

  /** If nothing is blocked after a step without rejuvenation, nothing was before, nor hit. */
  lemma {:induction false} NoTargets(u: Setup, x: Passage)
    requires IsStep(u, x) && !x.moves && AllOpen(x.after.proxies)
    ensures AllOpen(x.before.proxies) && x.log.targets == []
  {
    hide Passes, Sound, InPlaces, ClientIp, NewClient;
    SoundRows(x.before);
    BlockedAfter(x);
    ProxiesAfter(x);
    if x.log.targets != [] {
      SomeTarget(x);
    }
  }

  lemma {:induction false} SomeTarget(x: Passage)
    requires Targeted(x, true) && x.log.targets != []
    ensures exists k: nat :: k < |x.before.proxies| && k in x.log.targets
  {
    assert x.log.targets[0] in x.log.targets;
  }

  /** A proxy that was blocked is late once it is rejuvenated. */
  lemma {:induction false} BlockedIsLate(u: Setup, x: Passage, k: nat)
    requires IsStep(u, x) && x.moves && k < |x.before.proxies| && x.before.proxies[k].isBlocked
    requires forall a :: a in x.before.assignments ==> a.time < x.now
    ensures Late(x.after, k, x.now)
  {
    ExposedBefore(u, x);
    TimesAfter(u, x);
    hide Passes, Sound, InPlaces, ClientIp, NewClient, IsAgent;
    SoundRows(x.before);
    BlockedAfter(x);
    ProxiesAfter(x);
  }

  /** If no proxy was blocked, one to which no agent came since then is late. */
  lemma {:induction false} OtherIsLate(u: Setup, x: Passage, p: nat, k: nat)
    requires IsStep(u, x) && x.moves && AllOpen(x.before.proxies) && k < |x.before.proxies| && k != p
    requires OnlyAt(x.before, p, x.now - 3)
    requires forall a :: a in x.before.assignments ==> a.time < x.now
    ensures Late(x.after, k, x.now)
  {
    hide Passes, Sound, InPlaces, ClientIp, NewClient, IsAgent;
    SoundRows(x.before);
    BlockedAfter(x);
    ProxiesAfter(x);
    ExposedBefore(u, x);
    forall a | Exposes(x.after, a) && a.proxy == Row(k) ensures a.time >= x.now {
      if a.time != x.now {
        NotLater(u, x, p, a);
      }
    }
  }

  lemma {:induction false} NotLater(u: Setup, x: Passage, p: nat, a: Assignment)
    requires IsStep(u, x) && OnlyAt(x.before, p, x.now - 3) && a.proxy != Row(p)
    ensures Exposes(x.before, a) ==> a.proxy.id in x.log.targets
  {
    hide Passes, Sound, InPlaces, ClientIp, NewClient, IsAgent, Live;
    if Exposes(x.before, a) {
      DueIsTarget(u, x, a);
    }
  }

  lemma {:induction false} AllOpenMoved(u: Setup, x: Passage)
    requires IsStep(u, x) && x.moves
    ensures AllOpen(x.after.proxies) && |x.after.proxies| >= 2
  {
    hide Passes, Sound, InPlaces, ClientIp, NewClient;
    SoundRows(x.before);
    BlockedAfter(x);
    ProxiesAfter(x);
  }

  /** A step with rejuvenation. */
  lemma {:induction false} SparedAgain(u: Setup, x: Passage)
    requires IsStep(u, x) && x.moves && x.now > 0 && LastMove(x.now) == x.now - 3 && Spared(x.before, x.now)
    requires LastMove(x.now + 1) == x.now
    ensures Spared(x.after, x.now + 1)
  {
    hide Passes, Sound, InPlaces, ClientIp, NewClient, IsAgent, Reset, Exposes, Late;
    TimesAfter(u, x);
    AllOpenMoved(u, x);
    if AllOpen(x.before.proxies) {
      var p: nat :| OnlyAt(x.before, p, x.now - 3);
      OtherIsLate(u, x, p, if p == 0 then 1 else 0);
    } else {
      var k: nat :| k < |x.before.proxies| && x.before.proxies[k].isBlocked;
      BlockedIsLate(u, x, k);
    }
    NothingLater(x.after, x.now);
  }

  lemma {:induction false} NothingLater(t: Tables, now: int)
    requires forall a :: a in t.assignments ==> a.time < now + 1
    ensures OnlyAt(t, 0, now)
  {
  }

  lemma {:induction false} SparedAtFirst(u: Setup, x: Passage)
    requires IsStep(u, x) && x.now == 0 && x.moves && x.before == Start(u)
    ensures Spared(x.after, 1)
  {
    hide Passes, Sound, InPlaces, ClientIp, NewClient, IsAgent, Reset;
    TimesAfter(u, x);
    AllOpenMoved(u, x);
    ExposedBefore(u, x);
    assert LastMove(1) == 0;
    assert Late(x.after, 0, 0);
    NothingLater(x.after, 0);
    hide Exposes, Late, OnlyAt;
  }

  // ----- The runs -----

  lemma {:induction false} Moves(now: nat)
    requires now > 0
    ensures now % 3 == 0 ==> LastMove(now) == now - 3 && LastMove(now + 1) == now
    ensures now % 3 != 0 ==> LastMove(now + 1) == LastMove(now) && now - 2 <= LastMove(now) < now
  {
  }

  lemma {:induction false} SparedAt(u: Setup, trace: seq<Passage>, i: nat)
    requires IsRun(u, trace) && Kept(u, trace) && u.optimal && u.interval == 3 && 0 < i < |trace|
    ensures Spared(trace[i].before, i)
    decreases i
  {
    hide Passes, Targeted, Ready, Spared, Stuck, Renames, HeldIn;
    var x := trace[i - 1];
    assert Follows(trace, i) && IsPassage(u, x, i - 1) && Ready(u, x.before, i - 1);
    if i == 1 {
      SparedAtFirst(u, x);
    } else {
      SparedAt(u, trace, i - 1);
      Moves(i - 1);
      if (i - 1) % 3 == 0 {
        SparedAgain(u, x);
      } else {
        StaysSpared(u, x);
      }
    }
  }

  /** With fewer clients than one proxy has places, no such run ends with the exception. */
  lemma {:induction false} NotBefore160(u: Setup, trace: seq<Passage>, i: nat)
    requires IsRun(u, trace) && Kept(u, trace) && u.optimal && u.interval == 3 && i < |trace| && i < 160
    ensures !Stuck(trace[i])
  {
    hide Passes, Targeted, InPlaces, Sound, Renames, HeldIn, NewClient, ClientIp, Late, OnlyAt, Exposes;
    var x := trace[i];
    assert IsPassage(u, x, i) && Ready(u, x.before, i);
    SoundRows(x.before);
    if i % 3 == 0 {
      MovesNotStuck(x);
    } else {
      SparedAt(u, trace, i);
      Moves(i);
      var k: nat :| Late(x.before, k, LastMove(i));
      LateStays(u, x, k, LastMove(i));
      if NewClient(i) {
        FewClients(i);
        OpenIsEnough(x, k);
      }
    }
  }

  lemma {:induction false} FewClients(i: nat)
    requires i < 160 && NewClient(i)
    ensures (i + 3) / 4 < MAX_PROXY_CAPACITY
  {
  }
}
