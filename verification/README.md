# Proxy controller, broker and transport: a verified model

This project models the parts of the system that keep state, and proves what they promise.
Each module stands for one component.

- `DeferredAcceptance`: the matcher that gives clients to proxies.
- `Simulation`: the step machine around it, in which a censor blocks proxies, proxies change
  their addresses, blocked clients ask again, and proxies and clients arrive. It uses
  `SimulationTables` and `SimulationHolders` (the rows, and who is assigned where), `Rankings`,
  `SimulationMarkets` and `SimulationJudging` (the market of a request), `SimulationMatches`
  (what its matching does to the tables) and `SimulationSteps` (the parts of a step as relations
  between tables).
- `SimulationTraces`: whole runs, as sequences of steps, and what they keep. `SimulationWorth`: what
  clients and proxies are worth to each other in numbers, whom a request flags, and when an agent
  is found out. Which of them end
  with an exception: `SimulationFailures` (runs that do, of both censors), `SimulationWaiting` and
  `SimulationCrowds` (the waiting censor and an interval of 3: no run before step 160 does, and
  one at step 160), and `SimulationRuns`, the run itself.
- `GoHeap`, `LoadBalance`, `SnowflakeHeaps`, `Broker`: the broker's two heaps of proxies by
  number of clients, and what registration, matching, timeout and retirement do to them. The
  heap algorithms are those of Go's `container/heap`, whose source is not part of the
  repository, with the same strict comparisons; both heaps of the system use them.
- `ClientMap`, `ClientMapRuns`: the map of live clients with expiry, as a heap and a map of
  positions. `ClientIDMaps`: the ring of recent client addresses. `PacketQueues`: the packet
  queues and the pool of buffers on top of the client map.
- `Encapsulation`: the chunks of a byte stream, with variable-length prefixes and padding.
- `ArmorEncoder`, `ArmorDecoder`, `ArmorRoundTrip`: the element layer of the AMP armor, its version
  byte, and whole documents with other text and tags around the elements.
- `CostArbitrage`, `ScheduleCosts`: the schedule of cheapest instances, and what it costs
  against any other.

Objects that the program updates in place are classes here, and loops are loops; each method is
tied to a function or predicate on values, and the lemmas are about those. A lock's critical
section is one method. Clocks, chance, addresses of peers and the order in which a dictionary or
set is visited are parameters, or choices that the proofs hold for in every case.

## Where the code and what is said about it differ

The model follows the code, and the facts below are proved.

- `MaxDataForSize` says that it returns the longest length that fits. At the sizes where the
  prefix grows it does not (`MaxDataFits`), and a negative size is not refused
  (`NegativeSizeIsNotRefused`).
- The three-byte case of `WritePadding` is never used (`PaddingPrefix`), since the padding buffer
  is too short for it.
- `SnowflakeHeap.Remove` always breaks the recorded positions, unless it removes the last proxy
  or none, and can break the order of the heap (`OrderLost`, `OrderKept`; `ShiftedOrders` says
  when). So order, positions and least load are claimed for runs without `Rescale`. After one, a
  timeout can remove another proxy, or panic on a position past the end (`TimeOut`); that the
  members are each in one heap, the one of their kind, is claimed for all runs.
- `elementEncoder.Write` counts newlines and end tags in what it returns, so the count exceeds
  the length of the text as soon as a chunk is completed (`ReportsOwnLength`).
- `WriteTo` returns the number of bytes kept for a packet it accepts, and the whole length for a
  packet it drops.
- The cost comparison has no baseline, and ends with an index error, if no row at the start time
  is kept (`NoBaseline`; `KeptByRows` says which rows are). The baseline can have no rows, or rows
  that start too late for the assertion, since the row that picks it may have been replaced
  (`BaselineFails`). It has a cost exactly if the history's own row there has the least of the
  latest prices (`BaselineExactly`).
- Addresses are built from numbers that are never checked against 255. Freshness and
  distinctness hold all the same.
- A new client for whom no proxy has room leaves an assignment without a proxy behind, and the
  simulation ends with an exception (`RequestNewProxyNewClient`). With a rejuvenation interval
  that divides that of new clients, 4, as those of the program do, this never happens; with any
  other interval and either censor there are runs in which it does, at the program's own distances
  (`RunNeverFails`, `RunFails`, `NotBefore160`, `CrowdFails`).

## Model

| member | source | states |
|---|---|---|
| `DeferredAcceptance.GetMatchedClients` | spotcontroller/controller/scripts/deferred_acceptance.py:1-36 | The in-place matcher, on dictionaries of any shape, ends; on well-formed ones no lookup fails and the result is stable and client-optimal, with every result list in the proxy's own order. A placed client has what follows its proxy left of its list, one that is not has nothing left. On any dictionaries an exception names a fault of its kind in them, and without one every client with a list has asked, and only proxies that exist. |
| `DeferredAcceptance.TurnKeepsInv` | spotcontroller/controller/scripts/deferred_acceptance.py:16-34 | One turn of the inner loop raises no exception and keeps the invariant that every refusal so far was right and unavoidable. |
| `DeferredAcceptance.TurnProgress` | spotcontroller/controller/scripts/deferred_acceptance.py:15-20 | A turn lowers the lexicographic measure: fewer preferences left, or as many and the client no longer waiting. |
| `DeferredAcceptance.TurnFault` | spotcontroller/controller/scripts/deferred_acceptance.py:15-34 | On any dictionaries, a turn that raises an exception has found a proxy that does not exist, one that does not rank the client, or one without room, whichever the exception stands for. |
| `DeferredAcceptance.FinalLists` | spotcontroller/controller/scripts/deferred_acceptance.py:15-36 | When nobody waits, a client that is placed asked its proxy last, and one that is not has asked all. |
| `DeferredAcceptance.RejectKeepsInv` | spotcontroller/controller/scripts/deferred_acceptance.py:26-34 | A client that ranks below the last entry of a full list is refused, and no stable matching would place it there. |
| `DeferredAcceptance.DisplaceKeepsInv` | spotcontroller/controller/scripts/deferred_acceptance.py:26-34 | A client that ranks above the last entry of a full list displaces it, and no stable matching would place the displaced one there. |
| `DeferredAcceptance.CrowdedOut` | spotcontroller/controller/scripts/deferred_acceptance.py:26-34 | A full list of clients that are all preferred and have nothing better left shuts a client out of that proxy in every stable matching. |
| `DeferredAcceptance.SeatedIsBestLeft` | spotcontroller/controller/scripts/deferred_acceptance.py:15-34 | At any time, a client that holds a place can do no better in any stable matching. |
| `DeferredAcceptance.FinalIsStable` | spotcontroller/controller/scripts/deferred_acceptance.py:15-36 | When nobody waits: each client has at most one place, each proxy at most its capacity, and no client and proxy would both rather have each other, by the original lists. |
| `DeferredAcceptance.FinalIsOptimal` | spotcontroller/controller/scripts/deferred_acceptance.py:15-36 | When nobody waits: every client does at least as well as in any other stable matching. |
| `DeferredAcceptance.OrderIrrelevant` | spotcontroller/controller/scripts/deferred_acceptance.py:5-36 | There is exactly one such matching, lists included, so the order of the waiting list does not matter. |
| `DeferredAcceptance.WorstForProxies` | spotcontroller/controller/scripts/deferred_acceptance.py:5-36 | A proxy that serves other clients in another stable matching is full there and prefers those. |
| `DeferredAcceptance.SamePlacesFilled` | spotcontroller/controller/scripts/deferred_acceptance.py:5-36 | Every stable matching serves the same clients and gives each proxy as many. |
| `Rankings.RankedOrder` | spotcontroller/controller/scripts/simulation_utils.py:135-143 | The reversed stable sort of a dictionary by value is in descending order, later keys first among equals, and has no repeats. |
| `SimulationTables.CountDeleted` | spotcontroller/controller/scripts/run_simulation.py:161-164 | Deleting the assignments of one proxy leaves the number of those of any other proxy alone. |
| `SimulationTables.MigrationKeeps` | spotcontroller/controller/scripts/run_simulation.py:154-177 | A proxy that migrates gets an address that no proxy ever held, also past the byte range of its last number. |
| `SimulationTables.MigrationIsNew` | spotcontroller/controller/scripts/run_simulation.py:168-177 | The next address counts the last two numbers up by one, with a carry, and leaves the first two. |
| `SimulationTables.NextProxyIsNew` | spotcontroller/controller/scripts/run_simulation.py:180-190 | The address of the next proxy counts the first two numbers up by one, and leaves the last two. |
| `SimulationTables.CreationKeeps` | spotcontroller/controller/scripts/run_simulation.py:180-190 | A new proxy gets an address that no proxy ever held. |
| `SimulationTables.AddressesDistinct` | spotcontroller/controller/scripts/run_simulation.py:154-190 | Two proxies never have the same address. |
| `SimulationTables.BlockKeeps` | spotcontroller/controller/scripts/run_simulation.py:50-53 | Blocking marks the address for good: a proxy holds a marked address only while it is blocked itself. |
| `SimulationTables.ClientIpsDistinct` | spotcontroller/controller/scripts/run_simulation.py:201-205 | Client numbers map to addresses one to one, without a bound. |
| `SimulationTables.ClientIpRoundTrip` | spotcontroller/controller/scripts/run_simulation.py:201-205 | The number of a client can be read off its address, which starts with 255 and has two numbers below 256 at its end. |
| `SimulationTables.OneMoreKeeps` | spotcontroller/controller/scripts/simulation_utils.py:56-63 | One assignment more and one of the capacity less keep their sum at 40. |
| `SimulationJudging.JudgedConsistent` | spotcontroller/controller/scripts/simulation_utils.py:122-133 | Copies of one client in the list of proposers agree on being flagged before and after a proxy ranks them. |
| `SimulationJudging.JudgedStanding` | spotcontroller/controller/scripts/simulation_utils.py:122-133 | After a proxy ranked them, exactly the proposers are not flagged that were not before the request and reach the threshold for every available proxy so far. |
| `SimulationJudging.SavedRows` | spotcontroller/controller/scripts/simulation_utils.py:129-131 | Saving the copies of the clients that a proxy flags changes nothing in the rows but the flag, although earlier copies are out of date: the last copy of a client is its row, and is saved last. |
| `SimulationMarkets.MarketUnique` | spotcontroller/controller/scripts/simulation_utils.py:80-187 | The tables determine the market: two markets of one scene have the same preference lists, ties included, and the same capacities. |
| `SimulationMarkets.SceneUnique` | spotcontroller/controller/scripts/simulation_utils.py:70-116 | The tables, the proposers and the distance determine the scene. |
| `SimulationMatches.NobodyLeftOut` | spotcontroller/controller/scripts/simulation_utils.py:80-201 | If one available proxy has room for all the clients in the market, the matching leaves none of them without a proxy. |
| `SimulationMatches.MatchedAreIdle` | spotcontroller/controller/scripts/simulation_utils.py:191-201 | The matching places only clients that are assigned to no proxy that is open. |
| `SimulationMarkets.MarketIsWellFormed` | spotcontroller/controller/scripts/simulation_utils.py:80-187 | Every client that is not flagged is ranked by every available proxy, so `.index` and `[-1]` of the matcher never fail. |
| `SimulationMatches.CanApply` | spotcontroller/controller/scripts/simulation_utils.py:191-201 | The quota guarantee of the matcher means that each proxy has room for all the clients that it gets. |
| `Simulation.Simulation.RankClients` | spotcontroller/controller/scripts/simulation_utils.py:120-144 | Each proxy ranks the clients that were not flagged when it started, by utility less ten times the distance, among equals those first that appear later in the list, and flags and saves those below -500. |
| `Simulation.Simulation.RankForClients` | spotcontroller/controller/scripts/simulation_utils.py:149-183 | Each client that is still not flagged ranks all available proxies by what they are worth to it, among equals the later ones first. |
| `Simulation.Simulation.GeneralUtilities` | spotcontroller/controller/scripts/simulation_utils.py:88-116 | The utility of a client, with the last copy of it deciding; `JudgedByScore` says which number that is. |
| `Simulation.Simulation.BuildMarket` | spotcontroller/controller/scripts/simulation_utils.py:70-187 | The one market made of the tables: who is in it, with which capacities and in which orders; the rows change only in the flags of the clients that are of too little worth to some available proxy. |
| `Simulation.Simulation.Accept` | spotcontroller/controller/scripts/simulation_utils.py:191-201 | A proxy takes in the matched clients: its capacity goes down by as many as get an assignment, and it stays conserved. |
| `Simulation.Simulation.Apply` | spotcontroller/controller/scripts/simulation_utils.py:191-201 | All matches together: each proxy loses as many places as it gets clients, each placement becomes one assignment after those that were there, and exactly the placed clients count one request more; nothing else changes. |
| `Simulation.Simulation.RequestNewProxy` | spotcontroller/controller/scripts/simulation_utils.py:70-209 | What is applied is the best stable matching of the one market of the tables, and the whole new tables are stated by it; capacity plus assignments stays 40 everywhere, and no client has two assignments at open proxies. Whom it flags, and how it ranks, is stated in numbers by `FlagsExactly`, `ClientsRanked` and `ProxiesRanked`. |
| `Simulation.Simulation.RequestNewProxyNewClient` | spotcontroller/controller/scripts/simulation_utils.py:49-64 | A new client gets the first proxy with room; it fails exactly when there is none. |
| `Simulation.Simulation.Censor` | spotcontroller/controller/scripts/Censor.py:8-40 | Both censors block exactly the active proxies, not blocked yet, that an agent was assigned to, the optimal one only with assignments older than two steps. |
| `Simulation.Simulation.BlockTargets` | spotcontroller/controller/scripts/run_simulation.py:46-63 | Exactly the targets are blocked; every client counts how many of its proxies that were, is listed as often, and its last copy in the list is its row; no listed client has an open proxy left. |
| `SimulationWorth.BlockedNow` | spotcontroller/controller/scripts/run_simulation.py:46-63 | In a step exactly the targets are blocked, at that time; every client knows as many blocked proxies more as it was assigned to targets, and nothing else in its row changes. |
| `SimulationSteps.HitIsIdle` | spotcontroller/controller/scripts/run_simulation.py:46-63 | A client that learns that a proxy of its was blocked has no assignment at an open proxy left. |
| `SimulationHolders.SomeoneHasRoom` | spotcontroller/controller/scripts/simulation_utils.py:49-55 | If no proxy is blocked and there are fewer clients than 40 for each proxy, a proxy has room. |
| `Simulation.Simulation.Rejuvenate` | spotcontroller/controller/scripts/run_simulation.py:154-166 | Every active proxy moves to an address that nobody ever held; one that was blocked has capacity 40 and no assignments again; nothing else changes. |
| `Simulation.Simulation.CreateNewProxy` | spotcontroller/controller/scripts/run_simulation.py:180-190 | A new proxy with all its room and a fresh address. |
| `Simulation.Simulation.CreateNewClient` | spotcontroller/controller/scripts/run_simulation.py:193-220 | The new client has an address that no client has, so its row can always be created. |
| `Simulation.Simulation.Step` | spotcontroller/controller/scripts/run_simulation.py:40-145 | One step is blocking, rejuvenation if it is time, the requests of the blocked clients, and arrivals, each with what it does to the tables; each proxy keeps its address or gets one nobody ever held; and it does not fail if proxies are rejuvenated in it and there are fewer clients than 40 for each proxy. |
| `SimulationRuns.RunSimulation` | spotcontroller/controller/scripts/run_simulation.py:40-145 | The run takes one step for each of the given chances, each starting where the one before ended, until they are used up or a new client finds no proxy. In all its states rows are in order and capacity plus assignments is 40, and an address that is taken was never held before. With an interval that divides 4 it never fails; it fails in the cases below. |
| `SimulationTraces.NeverTakenAgain` | spotcontroller/controller/scripts/run_simulation.py:154-190 | Over a whole run: an address that some proxy held in any earlier state, and that a proxy has after a step, is the one it had before the step. |
| `SimulationTraces.AssignmentsAfter` | spotcontroller/controller/scripts/run_simulation.py:46-145 | What a step does to the assignments: those of rejuvenated proxies go, those of placed clients and of the new client come, and nothing else changes. |
| `SimulationTraces.OpenHasRoom` | spotcontroller/controller/scripts/simulation_utils.py:49-64 | A proxy that is not blocked has at most as many clients as there are, so it has room while there are fewer than 40. |
| `SimulationRuns.RunNeverFails` | spotcontroller/controller/scripts/run_simulation.py:121-145 | With an interval that divides 4, no step of any run, whatever the censor and chance do, ends with the exception. |
| `SimulationFailures.RunFails` | spotcontroller/controller/scripts/run_simulation.py:40-145 | With every other interval, but 3 for the waiting censor: a run ends with the exception if its first clients are no agents up to some step, and one or two agents come then, at steps that depend on the interval. |
| `SimulationFailures.WorldIsNear` | spotcontroller/controller/assignments/models.py:19-70 | The distances of the program, from proxies in the world to clients in the censored region, in units of that region, are at most 15.6, and so near enough for that. |
| `SimulationTraces.NobodyServed` | spotcontroller/controller/scripts/simulation_utils.py:70-209 | A request by nobody changes nothing. |
| `SimulationWorth.JudgedByScore` | spotcontroller/controller/scripts/simulation_utils.py:88-116 | The utility that a request gives to a client that asks: twice the time since it came, 40 percent of that for an agent, up to 24000, less one for each request, one for each time unit at a proxy that is blocked now, and two for each blocked proxy that it knows. |
| `SimulationWorth.UsageIsSum` | spotcontroller/controller/scripts/simulation_utils.py:96-101 | The blocked usage is the sum over the assignments of the client to proxies that are blocked now of the time from the assignment to the blocking. |
| `SimulationWorth.ScoreDiffers` | spotcontroller/controller/scripts/simulation_utils.py:110-115 | One request more costs a client 1, one known blocked proxy more 2, one time unit more at blocked proxies 1. |
| `SimulationWorth.ScoreGrows` | spotcontroller/controller/scripts/simulation_utils.py:105-111 | One time unit of age is worth 2, and 0.8 for an agent, below the cap. |
| `SimulationWorth.ScoreStarts` | spotcontroller/controller/scripts/simulation_utils.py:105-115 | A client with no requests, no known blocked proxy and no assignments is worth 0 when it comes. |
| `SimulationWorth.FlagsExactly` | spotcontroller/controller/scripts/simulation_utils.py:120-134 | A request flags a client if and only if it asks, was not flagged, and its utility less ten times its distance is below -500 for some proxy that is open, active and has room; flags stay; the market is of the others that ask. |
| `SimulationWorth.ClientsRanked` | spotcontroller/controller/scripts/simulation_utils.py:122-143 | A proxy in the market prefers, of two clients that it ranks, the one of more utility less ten times the distance, and among equals the one first listed later. |
| `SimulationWorth.ProxiesRanked` | spotcontroller/controller/scripts/simulation_utils.py:149-183 | A client prefers, of two available proxies, the one with more clients assigned plus places taken less the distance, and among equals the later one. |
| `SimulationWorth.RequestedNow` | spotcontroller/controller/scripts/simulation_utils.py:191-201 | In a request a client counts one request more exactly if it gets an assignment, and nothing but its flag changes besides. |
| `SimulationWorth.EveryoneServed` | spotcontroller/controller/scripts/simulation_utils.py:70-201 | In a step with rejuvenation and more places than clients, each client in the market gets a proxy. |
| `SimulationWorth.FlaggedWhen` | spotcontroller/controller/scripts/run_simulation.py:46-145 | An agent that was blocked and served in each step since it came is flagged in step n after that exactly if 2.2 n plus ten times the distance from some available proxy is above 500. |
| `SimulationWorth.AgentIsFlagged` | spotcontroller/controller/scripts/run_simulation.py:40-145 | In every run of the censor that does not wait, with rejuvenation in every step and distances that are not negative, an agent is flagged within 228 steps after it came. |
| `SimulationWorth.AgentGoesOn` | spotcontroller/controller/scripts/run_simulation.py:40-145 | And, at distances up to 15.6 as those of the program, it is not flagged in the first 156: it has been blocked and served again in each. |
| `SimulationFailures.AgentServed` | spotcontroller/controller/scripts/simulation_utils.py:70-209 | An agent that asks with others, was not flagged and knows few blocked proxies, gets an available proxy if one has room for everybody, at distances up to 30 (the program's are below 15.6). |
| `SimulationFailures.MoveStep` | spotcontroller/controller/scripts/run_simulation.py:46-145 | Of two open proxies, one is blocked because an agent holds it, and that agent gets the other one in the same step, whoever else asks. |
| `SimulationFailures.StageNext` | spotcontroller/controller/scripts/run_simulation.py:40-145 | How the runs that fail stand at the start of each step: nobody due, an agent at the first proxy, at the second, and then every open proxy known to the censor. |
| `SimulationFailures.StageLast` | spotcontroller/controller/scripts/run_simulation.py:40-145 | By the time the next client arrives every open proxy is due, so that client finds none. |
| `SimulationFailures.ComeBackStep` | spotcontroller/controller/scripts/run_simulation.py:46-145 | If the second proxy is blocked in a step with rejuvenation, all assignments go and the agent gets one of both proxies again. |
| `SimulationFailures.ReopenStep` | spotcontroller/controller/scripts/run_simulation.py:46-145 | If proxies are rejuvenated before the agent is due again, the next agent gets the first proxy, and both are known to the censor. |
| `SimulationWaiting.NotBefore160` | spotcontroller/controller/scripts/run_simulation.py:40-145 | With the waiting censor and an interval of 3, no run ends with the exception before step 160. |
| `SimulationWaiting.SparedAt` | spotcontroller/controller/scripts/Censor.py:23-40 | In such a run some open proxy always has no agent that is due before the next rejuvenation. |
| `SimulationCrowds.CrowdFails` | spotcontroller/controller/scripts/run_simulation.py:40-145 | And there are runs that do at step 160: all 40 clients move together from proxy to proxy behind two agents, until two of three proxies are blocked at once and the last one is full. |
| `SimulationCrowds.FirstChoice` | spotcontroller/controller/scripts/simulation_utils.py:149-201 | In the best stable matching a client gets the available proxy of most use to it, if that has room for everybody. |
| `SimulationCrowds.AllMove` | spotcontroller/controller/scripts/simulation_utils.py:70-201 | If every proxy that has clients is blocked, each client moves to the nearest proxy that is open, in the same step. |
| `SimulationCrowds.WorldIsApart` | spotcontroller/controller/assignments/models.py:19-70 | There are places in the world of the program at which the distances are such. |
| `GoHeap.UpOrders` | iceball/broker/snowflake-heap.go:29-45 | `up` repairs a heap in which one element may be too small. |
| `GoHeap.DownOrders` | iceball/broker/snowflake-heap.go:29-55 | `down` repairs a heap in which one element may be too large. |
| `GoHeap.LeftFirst` | iceball/broker/snowflake-heap.go:29-55 | Of two equal children the left one rises, and the right one stays. |
| `GoHeap.FixOrders` | iceball/common/turbotunnel/clientmap.go:86-94 | `Fix` repairs a heap after any change of one key. |
| `GoHeap.EvictedOrders` | iceball/broker/snowflake-heap.go:29-55 | `Remove` and `Pop` of the library leave a heap of the others. |
| `GoHeap.UpLandsAbove` | iceball/broker/snowflake-heap.go:29-45 | After `up`, everything below the element is strictly greater: it passes parents only on a strict comparison. |
| `GoHeap.RaisedKeepsHeap` | iceball/broker/ipc.go:368-387 | So an element just pushed can be raised by one in place. |
| `GoHeap.ShiftedOrders` | iceball/broker/snowflake-heap.go:57-64 | A heap that loses one position, with no repair, is still a heap if and only if the entries that get another parent are not less than it: those at odd positions up to twice the removed one plus 1, and those at even positions from there on. |
| `GoHeap.OrderLost` | iceball/broker/snowflake-heap.go:57-64 | A heap of six that is none without its second position. |
| `GoHeap.OrderKept` | iceball/broker/snowflake-heap.go:57-64 | A heap of equal keys that is still one without its root. |
| `LoadBalance.MatchKeepsHeap` | iceball/broker/ipc.go:368-387 | Pop, push and increment, without `Fix`, keep a heap. |
| `LoadBalance.MatchEntry` | iceball/broker/ipc.go:368-387 | A match charges the element at the root one more client and leaves every other element as it was. |
| `LoadBalance.RunKeepsHeap` | iceball/broker/ipc.go:355-387 | After any number of matches the next one still finds a least-loaded proxy. |
| `LoadBalance.LoadsCounted` | iceball/broker/ipc.go:355-387 | Each load has grown by the number of times its proxy was chosen. |
| `LoadBalance.RunIsBalanced` | iceball/broker/ipc.go:355-387 | Every proxy chosen at least once has load at most the current minimum plus one. |
| `LoadBalance.TotalGrows` | iceball/broker/ipc.go:355-387 | The total load has grown by exactly the number of matches. |
| `SnowflakeHeaps.SnowflakeHeap.Swap` | iceball/broker/snowflake-heap.go:34-38 | Swapping keeps the recorded positions. |
| `SnowflakeHeaps.SnowflakeHeap.Append` | iceball/broker/snowflake-heap.go:40-45 | The type's own `Push` records the position at the end. |
| `SnowflakeHeaps.SnowflakeHeap.HeapPush` | iceball/broker/snowflake-heap.go:29-45 | Registration in the heap is the library's push, and keeps the recorded positions. |
| `SnowflakeHeaps.SnowflakeHeap.HeapPop` | iceball/broker/snowflake-heap.go:48-55 | Pop returns the root, marks it as out of the heap, and keeps the recorded positions. |
| `SnowflakeHeaps.SnowflakeHeap.Remove` | iceball/broker/snowflake-heap.go:57-64 | `Remove` takes the proxy out of the list and what follows moves up; the recorded positions are right after that if and only if the proxy was absent or last, and the order is kept if and only if the entries with new parents fit them. |
| `SnowflakeHeaps.SnowflakeHeap.HandOut` | iceball/broker/ipc.go:368-387 | A match returns a proxy of least load and keeps order and positions. |
| `SnowflakeHeaps.SnowflakeHeap.Delist` | iceball/broker/broker.go:137-150 | Removal at the recorded position takes out exactly what is there, which is the proxy itself while positions are right, and keeps order and positions. |
| `Broker.BrokerContext.AddSnowflake` | iceball/broker/broker.go:159-177 | Registration adds the proxy to the heap of its kind, leaves the members of both heaps otherwise as they were, and keeps both heaps in order. |
| `Broker.BrokerContext.ProxyPolls` | iceball/broker/ipc.go:111-131 | The same for a poll, which also registers the proxy for its address. |
| `Broker.BrokerContext.MatchSnowflake` | iceball/broker/ipc.go:355-387 | A client of an unrestricted network gets the root of the restricted heap, or of the other one if that is empty; every other client gets the root of the unrestricted heap or, if that is empty, nothing. Exactly the one returned is charged one client. While the heaps are in order it serves the fewest of its kind. |
| `Broker.BrokerContext.TimeOut` | iceball/broker/broker.go:137-150 | A timeout removes what is at the recorded position of the heap of its kind, nothing if that is -1, and panics if it is past the end; while the heaps are in order, exactly its own proxy leaves. |
| `Broker.BrokerContext.ProxyNotice` | iceball/broker/ipc.go:310-321 | The table after a notice: the client at the end of its list, or its first occurrence taken out, or no change; an unknown identifier is null. |
| `Broker.BrokerContext.Rescale` | iceball/broker/ipc.go:323-352 | The members of the heaps, and which addresses have left both tables, also after a failure. The clients behind the addresses are transferred in order, each to a proxy of its kind in the heaps, up to the first that is null or has no proxy left. Every proxy serves one client more for each transfer to it. If nothing was retired and the heaps were in order, each target served the fewest of its kind at its turn. No target is at a retired address if each address is registered once and all proxies are unrestricted. |
| `Broker.BrokerContext.RetiredExactly` | iceball/broker/ipc.go:323-331 | A proxy is retired exactly if it is the one registered for one of the addresses. |
| `Broker.BrokerContext.MoveClients` | iceball/broker/ipc.go:335-347 | The inner loop gives one transfer to each client, in order, to a proxy of its kind: restricted proxies for clients of unrestricted networks only. It stops at the first client that finds no proxy or is null. Every proxy is charged exactly the transfers to it; with the heaps in order each target serves the fewest of its kind at its turn. |
| `Broker.BrokerContext.MoveAll` | iceball/broker/ipc.go:333-350 | The same for all addresses in order, each address counted the first time it appears; what leaves the two tables, up to the address at which it fails. |
| `Broker.GivenMore` | iceball/broker/ipc.go:335-347 | Charges and fairness of transfers in a row add up. |
| `Broker.RelocatedSome` | iceball/broker/ipc.go:333-350 | The transfers of the next address follow those before, in the order of the clients behind the addresses. |
| `ClientMap.ClientMapInner.Len` | iceball/common/turbotunnel/clientmap.go:108-113 | The lengths agree: the "inconsistent" panic is not reachable. |
| `ClientMap.ClientMapInner.Swap` | iceball/common/turbotunnel/clientmap.go:119-123 | Swapping keeps list and map inverse to each other. |
| `ClientMap.ClientMapInner.Append` | iceball/common/turbotunnel/clientmap.go:125-134 | Appending keeps them inverse; the "duplicate" panic is not reachable. |
| `ClientMap.ClientMapInner.HeapPop` | iceball/common/turbotunnel/clientmap.go:136-146 | Popping drops a client that was seen least recently and closes its queue. |
| `ClientMap.ClientMapInner.RemoveExpired` | iceball/common/turbotunnel/clientmap.go:77-81 | Exactly the clients of age timeout or more are dropped, exactly their queues closed, and the rest keep theirs. |
| `ClientMap.ClientMapInner.SendQueue` | iceball/common/turbotunnel/clientmap.go:86-104 | The structure is a plain map: a known client keeps its queue and is seen now, an unknown one gets a new queue. The queue returned is open. |
| `ClientMap.ClientMapInner.LiveQueues` | iceball/common/turbotunnel/clientmap.go:70-104 | The queues of live clients are open, and no two clients share one. |
| `ClientMapRuns.PresentExactly` | iceball/common/turbotunnel/clientmap.go:77-104 | In any run a client is present if and only if it was seen and no sweep since then found it overdue. |
| `ClientMapRuns.KeepsQueue` | iceball/common/turbotunnel/clientmap.go:77-104 | A client keeps its queue while no sweep finds it overdue. |
| `ClientMapRuns.OneQueueForTheRun` | iceball/common/turbotunnel/clientmap.go:77-104 | If the clock never goes back, a client seen more often than the timeout has one queue for the whole run. |
| `ClientMapRuns.LosesQueue` | iceball/common/turbotunnel/clientmap.go:77-104 | A client that a sweep found overdue is gone, and has another queue if it comes back. |
| `ClientMapRuns.RenamedAfter` | iceball/common/turbotunnel/clientmap.go:77-104 | Two maps that are the same up to the numbers of queues stay so under every event. |
| `ClientMapRuns.Play` | iceball/common/turbotunnel/clientmap.go:70-104 | Any sequence of calls on the structure leaves the map that the lemmas on runs are about, up to a renaming of queues in the order in which they were made, and each call returned the queue that its client has then. |
| `ClientIDMaps.ClientIDMap.Set` | iceball/server/lib/turbotunnel.go:52-73 | Setting keeps the ring and the map in step with the sequence of all entries set. |
| `ClientIDMaps.ClientIDMap.Get` | iceball/server/lib/turbotunnel.go:78-86 | `Get` returns the address of the latest entry for the identifier if that is among the last `capacity` entries, and nothing otherwise. |
| `ClientIDMaps.SetForgetsAtMostOne` | iceball/server/lib/turbotunnel.go:52-73 | Each `Set` makes its own identifier known and forgets at most one other, the one whose latest entry was the oldest kept. |
| `ClientIDMaps.Overwritten` | iceball/server/lib/turbotunnel.go:60-66 | Which identifier is forgotten, unset slots with the zero identifier included. |
| `Encapsulation.PrefixRoundTrip` | iceball/common/encapsulation/encapsulation.go:60-85 | Decoding a length prefix of any size gives back kind, length and size, whatever follows. |
| `Encapsulation.PrefixCut` | iceball/common/encapsulation/encapsulation.go:66-85 | A prefix that is cut is reported as cut. |
| `Encapsulation.PrefixBits` | iceball/common/encapsulation/encapsulation.go:60-85 | The bits of a prefix of one, two and three bytes: which one tells data, which ones say that more follows, and where the length is. |
| `Encapsulation.OverlongExactly` | iceball/common/encapsulation/encapsulation.go:66-85 | A prefix is refused as too long if and only if each of its first three bytes says that more follow. |
| `Encapsulation.ReadOverlong` | iceball/common/encapsulation/encapsulation.go:60-85 | Reading refuses such a prefix as too long once its third byte is read, and leaves what follows. |
| `Encapsulation.DataPrefixIsShortest` | iceball/common/encapsulation/encapsulation.go:109-120 | The prefix chosen is the shortest that can hold the length; longer data is refused. |
| `Encapsulation.Stream.ReadData` | iceball/common/encapsulation/encapsulation.go:60-105 | The reading loop is the function that the lemmas are about. |
| `Encapsulation.Stream.WriteData` | iceball/common/encapsulation/encapsulation.go:125-139 | What is written is one data chunk, or nothing if the data is too long. |
| `Encapsulation.Stream.WritePadding` | iceball/common/encapsulation/encapsulation.go:148-183 | What is written is padding chunks of exactly `n` bytes in all; the panic is for negative `n` only. |
| `Encapsulation.PaddingPrefix` | iceball/common/encapsulation/encapsulation.go:159-171 | The three-byte case and the last panic are not reachable. |
| `Encapsulation.PaddingSize` | iceball/common/encapsulation/encapsulation.go:148-183 | Padding takes exactly `n` bytes, holds no data, and is split into chunks of 1024 bytes and the rest. |
| `Encapsulation.ReadChunk` | iceball/common/encapsulation/encapsulation.go:60-105 | Reading returns a data chunk, and skips a padding chunk. |
| `Encapsulation.ReadCutChunk` | iceball/common/encapsulation/encapsulation.go:53-105 | Every strict prefix of a chunk gives an unexpected end, the empty one a plain end. |
| `Encapsulation.ReadCutStream` | iceball/common/encapsulation/encapsulation.go:53-105 | A stream cut anywhere gives the data of the whole chunks, and then says whether the cut was between two chunks. |
| `Encapsulation.RoundTrip` | iceball/common/encapsulation/encapsulation.go:60-183 | Whatever data and padding are written in any order, reading gives exactly the data accepted, in order, and then the end. |
| `Encapsulation.MaxDataFits` | iceball/common/encapsulation/encapsulation.go:189-200 | What is returned fits, and is short of the longest data that fits by exactly 1 at 64, 8192, 8193 and 1048576, by 2 at 1048577, by 3 beyond and by 0 elsewhere. |
| `Encapsulation.NegativeSizeIsNotRefused` | iceball/common/encapsulation/encapsulation.go:189-200 | A negative size is answered with the largest length but three, not refused. |
| `ArmorEncoder.ElementEncoder.Write` | iceball/common/amp/armor_encoder.go:122-164 | What a write emits, its counters afterwards, and the count that it returns; what these are, `WritesMakeLayout`, `LinesAt` and `ReportsLessStartTags` say. |
| `ArmorEncoder.ReportsOwnLength` | iceball/common/amp/armor_encoder.go:122-164 | The returned count is the length of the text if and only if the write completes no chunk. |
| `ArmorEncoder.ReportsLessStartTags` | iceball/common/amp/armor_encoder.go:122-164 | The returned count is the number of bytes emitted less those of the start tags. |
| `ArmorEncoder.ElementEncoder.Close` | iceball/common/amp/armor_encoder.go:166-176 | Closing ends the open line and the open element, and nothing if none is open. |
| `ArmorEncoder.EmitConcat` | iceball/common/amp/armor_encoder.go:122-164 | Writing a text in two parts emits what writing it at once does. |
| `ArmorEncoder.ElementOutput` | iceball/common/amp/armor_encoder.go:122-176 | From the start of any chunk on, the two counters fill the element, close it and start the next. |
| `ArmorEncoder.WritesMakeLayout` | iceball/common/amp/armor_encoder.go:122-176 | However a text is split across writes, the output is its layout in full elements of full lines. |
| `ArmorDecoder.SplitASCIIWhitespace` | iceball/common/amp/armor_decoder.go:31-52 | The two loops find the first word, if more input cannot lengthen it. |
| `ArmorDecoder.FirstWordKeepsWords` | iceball/common/amp/armor_decoder.go:31-52 | One split keeps the words of the whole text, whatever part of it is buffered. |
| `ArmorDecoder.ScanWords` | iceball/common/amp/armor_decoder.go:80-84 | The words found do not depend on the sizes of the reads. |
| `ArmorDecoder.WordsAreStrip` | iceball/common/amp/armor_decoder.go:80-84 | The words, joined, are the text without its whitespace. |
| `ArmorDecoder.DecodeToWriter` | iceball/common/amp/armor_decoder.go:54-110 | What is written, how many bytes, and how it ends: the texts between start and end tags less their whitespace, in order, up to the token at which decoding fails, told from the tokens. |
| `ArmorDecoder.DecodesBalanced` | iceball/common/amp/armor_decoder.go:54-110 | There is no error if and only if the tags alternate and no text reaches the buffer limit. |
| `ArmorDecoder.DecodesInside` | iceball/common/amp/armor_decoder.go:54-110 | The decoder writes exactly the texts inside elements, less their whitespace, up to the first tag out of place or text that is too long; its outcome is told from that token. |
| `ArmorDecoder.DecodesOutside` | iceball/common/amp/armor_decoder.go:73-89 | Text and other tags outside elements contribute nothing. |
| `ArmorDecoder.StripOne` | iceball/common/amp/armor_decoder.go:21-29 | Exactly tab, line feed, form feed, carriage return and space are dropped. |
| `ArmorRoundTrip.BodyFits` | iceball/common/amp/armor_encoder.go:27-44 | The text of a full element is 992 lines of 32 bytes and stays below the limit of 32768 on element size, and one more line would not. |
| `ArmorRoundTrip.LinesAt` | iceball/common/amp/armor_encoder.go:122-164 | Where each byte of a text is in its lines: after every 32 bytes, and at the end, comes a newline. |
| `ArmorRoundTrip.TokenizeLayout` | iceball/common/amp/armor_encoder.go:122-176 | The tokens of the output: start tag, text and end tag for each element, whatever tag follows. |
| `ArmorRoundTrip.DecodeEncoded` | iceball/common/amp/armor_decoder.go:54-110 | For text without markup, split across writes in any way, the output is balanced, fits the buffer, and decodes to the text less its whitespace. |
| `ArmorRoundTrip.RoundTrip` | iceball/common/amp/armor_decoder.go:54-110 | The decoder undoes the encoder if and only if the text has no whitespace. |
| `ArmorRoundTrip.DecodeDocument` | iceball/common/amp/armor_decoder.go:54-110 | With any text and other tags before and after the elements, as in the boilerplate, a document decodes to the same. |
| `ArmorRoundTrip.DecodeSpread` | iceball/common/amp/armor_decoder.go:54-110 | So it does with text and other tags between the elements. |
| `ArmorRoundTrip.ArmorRoundTrip` | iceball/common/amp/armor_decoder.go:112-136 | Behind the version byte, a document gives back what was written into it if and only if that has no whitespace. |
| `PacketQueues.OneOwner` | iceball/common/turbotunnel/queuepacketconn.go:53-135 | No two queued packets share a buffer, and no queued packet has one that is in the pool. |
| `PacketQueues.JoinChannel` | iceball/common/turbotunnel/queuepacketconn.go:68-73 | A buffer that nothing else has joins a queue, and everything stays in order. |
| `PacketQueues.LeaveChannel` | iceball/common/turbotunnel/queuepacketconn.go:103-106 | The first buffer of a queue leaves it with the bytes it was filled with, and belongs to the taker. |
| `PacketQueues.QueuePacketConn.QueueIncoming` | iceball/common/turbotunnel/queuepacketconn.go:53-74 | The first bytes of the packet, at least an MTU of them, are accepted last in the queue, unless the connection is closed or 512 packets wait. |
| `PacketQueues.QueuePacketConn.ReadFrom` | iceball/common/turbotunnel/queuepacketconn.go:94-108 | The first accepted packet that was not read yet is read, cut to the room of the caller. |
| `PacketQueues.QueuePacketConn.OutgoingQueue` | iceball/common/turbotunnel/queuepacketconn.go:79-81 | The queue of a client: the one it has, with all that waits in it, or a new and empty one if the client is not known. It is open. |
| `PacketQueues.QueuePacketConn.WriteTo` | iceball/common/turbotunnel/queuepacketconn.go:113-135 | The first bytes of the packet are accepted last in the queue of the client, unless 512 packets wait there; the count returned is that of the bytes kept, or the whole length for a dropped packet. Nothing that was accepted before is lost. |
| `PacketQueues.QueuePacketConn.Receive` | iceball/server/lib/http.go:198-203 | Whoever takes a packet gets the next accepted one, and its buffer; the end comes when nothing is left of a closed queue. |
| `PacketQueues.QueuePacketConn.Restore` | iceball/common/turbotunnel/queuepacketconn.go:87-91 | A buffer with no other owner goes back to the pool if it is large enough. |
| `PacketQueues.QueuePacketConn.Sweep` | iceball/common/turbotunnel/clientmap.go:43-52 | Expiry drops clients and closes their queues, and touches no packet. |
| `PacketQueues.QueuePacketConn.CloseWithError` | iceball/common/turbotunnel/queuepacketconn.go:139-155 | The first close decides the error that all later calls report. |
| `CostArbitrage.LatestIsLast` | analysis/cost_arbitrage/analyze.py:383-397 | The table holds for each pair the price of its last row. |
| `CostArbitrage.CheapestSeen` | analysis/cost_arbitrage/analyze.py:401-407 | The nested loop finds a least price seen, the row itself if that is least, in any order of visits. |
| `CostArbitrage.CheapestStep` | analysis/cost_arbitrage/analyze.py:400-425 | The row in force stays a cheapest one, and true to the latest price of its pair, when the next price comes. |
| `CostArbitrage.KeepCheapest` | analysis/cost_arbitrage/analyze.py:371-433 | After every row the row in force has the least of the latest prices of all pairs seen; which rows are kept, and which are replaced. |
| `CostArbitrage.KeptByRows` | analysis/cost_arbitrage/analyze.py:400-425 | A row is kept if its pair is cheaper than every other after it, or was before it, or it is the first; and, but for ties, only then. |
| `ScheduleCosts.CalculateCost` | analysis/cost_arbitrage/analyze.py:104-174 | The cost, as the sum of what the rows cost by the hour, and the intervals; the assertion holds if and only if the first row is at the start time. |
| `ScheduleCosts.CostByHours` | analysis/cost_arbitrage/analyze.py:122-148 | The cost is the sum over the rows of the hours for which each is in force times its price, divided by the number of interfaces, plus 0.005. |
| `ScheduleCosts.OneRowCost` | analysis/cost_arbitrage/analyze.py:122-148 | One instance for some hours costs that many times its price, divided, plus 0.005. |
| `ScheduleCosts.IntervalsAdd` | analysis/cost_arbitrage/analyze.py:122-132 | The intervals add up to the time from the first row to the last. |
| `ScheduleCosts.CostRowByRow` | analysis/cost_arbitrage/analyze.py:122-148 | A sparse schedule costs what its rows in force cost, row by row. |
| `ScheduleCosts.LowerPrices` | analysis/cost_arbitrage/analyze.py:122-148 | Prices that are never higher never cost more. |
| `ScheduleCosts.NoSelectionBeats` | analysis/cost_arbitrage/analyze.py:371-433 | From any kept row on, no selection that changes at will among the pairs seen costs less than the kept schedule. |
| `ScheduleCosts.NoFixedPairBeats` | analysis/cost_arbitrage/analyze.py:458-474 | Nor does any one pair whose rows begin at the same time. |
| `ScheduleCosts.Compare` | analysis/cost_arbitrage/analyze.py:449-474 | Which row is the baseline, if any, what is compared, and what the baseline costs. There is a baseline if some row at the start time is surely kept; without ties, exactly if one is, and it is the last of them. If the history is in order of time, it has a cost if and only if the row of the history that picks it has the least of the latest prices. |
| `ScheduleCosts.BaselineExactly` | analysis/cost_arbitrage/analyze.py:449-474 | The last kept row at the start time was not replaced, and its pair has a row at that time from it on, if and only if the row of the history there has the least of the latest prices. |
| `ScheduleCosts.CheapestLastRow` | analysis/cost_arbitrage/analyze.py:400-425 | If the last row at a time is cheaper than every other pair, it is kept, as it is, and is the last kept one at that time. |
| `ScheduleCosts.ScheduleWins` | analysis/cost_arbitrage/analyze.py:449-474 | If the baseline has a cost, it is at least that of the kept schedule, and that at least its cost shared among interfaces. |
| `ScheduleCosts.BaselineCanFail` | analysis/cost_arbitrage/analyze.py:449-474 | A history in which the last kept row at the start time was replaced by a pair that is not seen again. |
| `ScheduleCosts.BaselineFails` | analysis/cost_arbitrage/analyze.py:449-474 | The comparison of that history: the schedule has a cost, the baseline no rows. |

## Left out

- HTTP, WebSocket, WebRTC, KCP, smux, STUN and TLS; the database behind the tables; cloud APIs,
  data frames and their filters; JSON messages. Tables are sequences and maps, channels are
  bounded sequences, times are numbers.
- Running concurrently: a method is one critical section. In `WriteTo` the lookup of the queue and
  the send are one step, so a sweep between them is not modelled.
- PacketQueues.QueuePacketConn.Restore: asks that the buffer have no other owner, as the server's
  loop guarantees by restoring each buffer once after use; a pool that keeps buffers larger than
  the MTU makes later packets longer, which `Uniform` rules out.
- PacketQueues.QueuePacketConn.ReadFrom: says that it waits where the program blocks.
- ClientMap.ClientMapInner.SendQueue: queues are numbers; what is in them is in `PacketQueues`.
- The base64 coding inside the armor, and failing writers. The boilerplate of the armor is any text
  and tags but `pre`.
- ArmorRoundTrip.TokenizeLayout: the HTML tokenizer is modelled for text, `<pre>` and `</pre>`,
  with other tags skipped; text with `&` is left out since the tokenizer would replace references.
  Its limit is taken to apply to the length of a text; the texts made here stay 31 bytes below it.
- ArmorDecoder.ScanWords: the scanner's own limit of 65536 bytes for a token, which is above the
  limit on a whole text.
- Rounding: utilities, prices and costs are real numbers, and the distance is any function of two
  places.
- The charts that the simulation records, and its flush between runs. `is_expired`, which nothing
  in the simulation sets.
- Overflow of Go's integers in the lengths and counters, which stay far below it.
- Broker.BrokerContext.Rescale: the messages sent for the transfers.
- `ClientOffers`, the map from identifiers to proxies and the answers; metrics and logging.
- The fleet creation of the instance manager, `Peers`, `RedialPacketConn` and `Periodic`.
