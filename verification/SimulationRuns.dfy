/** Whole runs of the simulation: when a run can end with an exception, and when not. */
module SimulationRuns {
  import opened Addresses
  import opened SimulationTables
  import opened SimulationMatches
  import opened SimulationSteps
  import opened SimulationTraces
  import opened SimulationFailures
  import opened SimulationWaiting
  import opened SimulationCrowds
  import opened Simulation

  // ----- Runs that never fail -----

  lemma {:induction false} Divisors(interval: nat)
    requires interval > 0
    ensures 4 % interval == 0 <==> interval == 1 || interval == 2 || interval == 4
  {
    if interval > 4 {
      SmallRemainder(4, interval);
    }
  }

  /** Rejuvenation comes before every arrival if its interval divides that of arrivals. */
  lemma {:induction false} MovesInTime(interval: nat, now: nat)
    requires interval > 0 && 4 % interval == 0 && NewClient(now)
    ensures now % interval == 0
  {
    Divisors(interval);
    Multiples(now);
  }

  lemma {:induction false} Multiples(now: nat)
    requires now % 4 == 0
    ensures now % 1 == 0 && now % 2 == 0
  {
    var q := now / 4;
    assert now == 4 * q == 2 * (2 * q);
  }

  /** Then no step of a run ends with the exception, whatever the censor does. */
  lemma {:induction false} RunNeverFails(u: Setup, trace: seq<Passage>, i: nat)
    requires IsRun(u, trace) && Kept(u, trace) && 4 % u.interval == 0 && i < |trace|
    ensures !Stuck(trace[i])
  {
    hide Passes, Renames, HeldIn, InPlaces, Linked, Conserved, Distinct, NewClient;
    var x := trace[i];
    assert IsPassage(u, x, i) && Ready(u, x.before, i);
    if NewClient(i) {
      MovesInTime(u.interval, i);
      MovesNotStuck(x);
    }
  }

  // ----- The program -----

  lemma {:induction false} TargetsAre(s: Simulation, now: nat)
    requires s.agents == AgentsOf(s.Now())
    ensures forall j: nat :: j < |s.proxies| && s.Target(j, now) <==> IsTarget(s.Now(), s.optimal, j, now)
  {
    var t := s.Now();
    forall j: nat ensures j < |s.proxies| && s.Target(j, now) <==> IsTarget(t, s.optimal, j, now) {
      if IsTarget(t, s.optimal, j, now) {
        var a :| a in t.assignments && a.proxy == Row(j) && IsAgent(t, a.client) && (s.optimal ==> a.time < now - 2);
        assert a.client in s.agents;
      }
      if j < |s.proxies| && s.Target(j, now) {
        var a :| a in s.assignments && a.proxy == Row(j) && a.client in s.agents && (s.optimal ==> a.time < now - 2);
        assert a in t.assignments && IsAgent(t, a.client);
      }
    }
  }

  lemma {:induction false} PlacesAfter(u: Setup, x: Passage)
    requires Passes(x) && AllActive(x.before.proxies) && InPlaces(u, x.before)
    requires x.now < |u.chances| && x.chance == u.chances[x.now]
    ensures InPlaces(u, x.after)
  {
    hide Passes, ClientIp, NewClient;
    BlockedAfter(x);
    ProxiesAfter(x);
    ClientsAfter(x);
    assert x.chance.proxyLocation in ProxyPlaces(u) && x.chance.clientLocation in ClientPlaces(u);
    hide ProxyPlaces, ClientPlaces;
  }

  lemma {:induction false} AgentsOfAfter(x: Passage)
    requires Passes(x) && x.lastClient >= -1 && ClientIp(x.lastClient + 1) !in x.before.clients
    ensures AgentsOf(x.after) == AgentsWith(AgentsOf(x.before), x.lastClient, x.chance, x.now)
  {
    hide Passes, ClientIp, NewClient;
    AgentsAfter(x);
    assert forall t: Tables, c :: c in AgentsOf(t) <==> IsAgent(t, c);
  }

  lemma {:induction false} NextCounts(now: nat, proxies: seq<Proxy>, last: Ip, chance: Chance)
    requires |proxies| == 1 + (now + 99) / 100
    ensures |Grown(proxies, last, chance, now)| == 1 + (now + 1 + 99) / 100
    ensures (now + 1 + 3) / 4 == (now + 3) / 4 + (if NewClient(now) then 1 else 0)
  {
  }

  /** One step of a run. */
  method RunStep(s: Simulation, u: Setup, now: nat) returns (r: StepResult, ghost x: Passage)
    requires s.Valid() && now < |u.chances|
    requires s.distance == u.distance && s.optimal == u.optimal && s.interval == u.interval && u.interval > 0
    requires Ready(u, s.Now(), now) && s.lastProxyIp == LastProxy(now) && s.agents == AgentsOf(s.Now())
    modifies s
    ensures s.Safe() && old(s.held) <= s.held
    ensures IsPassage(u, x, now) && x.before == old(s.Now()) && x.after == s.Now() && x.held == old(s.held)
    ensures Renames(x) && HeldIn(x.before, x.held) && Conserved(s.proxies, s.assignments)
    ensures r == NoFreeProxy <==> Stuck(x)
    ensures r == Done ==> s.Valid() && Ready(u, s.Now(), now + 1)
    ensures r == Done ==> s.lastProxyIp == LastProxy(now + 1) && s.agents == AgentsOf(s.Now())
  {
    hide Passes, Sound, InPlaces, NextProxyIp, ClientIp, NewClient, IsTarget, Grown, AgentsOf, Conserved;
    hide Simulation.Valid, Simulation.Target;
    s.Sizes();
    TargetsAre(s, now);
    ghost var t, held, lastProxy, lastClient := s.Now(), s.held, s.lastProxyIp, s.lastClientId;
    NextCounts(now, s.proxies, lastProxy, u.chances[now]);
    ghost var log, served, k;
    r, log, served, k := s.Step(now, u.chances[now]);
    x := Passage(t, s.Now(), log, served, k, held, s.distance, lastProxy, lastClient, u.chances[now], now,
      now % s.interval == 0);
    PlacesAfter(u, x);
    AgentsOfAfter(x);
    if r == Done {
      s.Sizes();
    }
  }

  ghost function End(u: Setup, trace: seq<Passage>): Tables {
    if trace == [] then Start(u) else trace[|trace| - 1].after
  }

  lemma {:induction false} RunAppend(u: Setup, trace: seq<Passage>, x: Passage)
    requires IsRun(u, trace) && |trace| < |u.chances| && IsPassage(u, x, |trace|) && x.before == End(u, trace)
    requires forall i :: 0 <= i < |trace| ==> !Stuck(trace[i])
    ensures IsRun(u, trace + [x])
  {
    hide IsPassage, Stuck;
    var more := trace + [x];
    forall i | 0 < i < |more| ensures Follows(more, i) {
      if i < |trace| {
        assert Follows(trace, i);
      }
    }
  }

  ghost predicate AllHeldIn(trace: seq<Passage>, held: set<Ip>) {
    forall j :: 0 <= j < |trace| ==> HeldIn(trace[j].before, held)
  }

  lemma {:induction false} KeptAppend(u: Setup, trace: seq<Passage>, x: Passage)
    requires Kept(u, trace) && Ready(u, x.before, |trace|) && Conserved(x.after.proxies, x.after.assignments)
    requires Renames(x) && HeldIn(x.before, x.held) && AllHeldIn(trace, x.held)
    ensures Kept(u, trace + [x])
  {
    hide Ready, Renames, HeldIn, Conserved;
  }

  lemma {:induction false} StillHeld(trace: seq<Passage>, x: Passage, held: set<Ip>)
    requires AllHeldIn(trace, x.held) && HeldIn(x.before, x.held) && x.held <= held
    ensures AllHeldIn(trace + [x], held)
  {
  }

  lemma {:induction false} ReadyAtStart(u: Setup, s: Simulation)
    requires s.Valid() && s.Now() == Start(u)
    ensures Ready(u, s.Now(), 0)
  {
    hide Simulation.Valid;
    s.Sizes();
  }

  lemma {:induction false} NothingYet(u: Setup, held: set<Ip>)
    requires u.interval > 0
    ensures AgentsOf(Start(u)) == {} && IsRun(u, []) && Kept(u, []) && AllHeldIn([], held)
  {
  }

  /** A whole run, one step for each of the chances. It ends early if a new client finds no
      proxy: never, if proxies are rejuvenated at every step at which a client arrives; and with
      the other intervals, some runs do. */
  method RunSimulation(u: Setup) returns (s: Simulation, r: StepResult, ghost trace: seq<Passage>)
    requires u.interval > 0
    ensures IsRun(u, trace) && Kept(u, trace) && s.Now() == End(u, trace)
    ensures s.Safe() && (r == Done ==> s.Valid())
    ensures r == Done ==> |trace| == |u.chances| && forall i :: 0 <= i < |trace| ==> !Stuck(trace[i])
    ensures r == NoFreeProxy ==> trace != [] && Stuck(trace[|trace| - 1])
    ensures 4 % u.interval == 0 ==> r == Done
    ensures Fails(u) ==> r == NoFreeProxy && |trace| <= FailStep(u) + 1
    ensures u.optimal && u.interval == 3 && r == NoFreeProxy ==> |trace| > 160
    ensures Crowded(u) ==> r == NoFreeProxy && |trace| == 161
  {
    hide IsRun, IsPassage, Kept, Ready, Stuck, Renames, HeldIn, AllHeldIn, AgentsOf, Conserved, Fails, Near, Apart;
    hide Simulation.Valid, Simulation.Safe;
    s := new Simulation(u.distance, u.optimal, u.interval, u.location);
    r, trace := Done, [];
    s.IsSafe();
    s.Sizes();
    ReadyAtStart(u, s);
    NothingYet(u, s.held);
    for now := 0 to |u.chances|
      invariant s.Valid() && s.Safe() && fresh(s) && r == Done
      invariant s.distance == u.distance && s.optimal == u.optimal && s.interval == u.interval
      invariant Ready(u, s.Now(), now) && s.lastProxyIp == LastProxy(now) && s.agents == AgentsOf(s.Now())
      invariant |trace| == now && IsRun(u, trace) && Kept(u, trace) && s.Now() == End(u, trace)
      invariant AllHeldIn(trace, s.held) && forall i :: 0 <= i < |trace| ==> !Stuck(trace[i])
    {
      ghost var x;
      r, x := RunStep(s, u, now);
      RunAppend(u, trace, x);
      KeptAppend(u, trace, x);
      StillHeld(trace, x, s.held);
      trace := trace + [x];
      if r != Done {
        break;
      }
    }
    if 4 % u.interval == 0 && r != Done {
      RunNeverFails(u, trace, |trace| - 1);
    }
    if u.optimal && u.interval == 3 && r != Done && |trace| <= 160 {
      NotBefore160(u, trace, |trace| - 1);
    }
    if Crowded(u) {
      CrowdFails(u, trace);
    }
    if Fails(u) {
      FailsAtAll(u);
      RunFails(u, trace);
    }
  }
}
