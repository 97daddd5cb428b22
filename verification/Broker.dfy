/** The broker: two heaps of proxies under one lock, and the tables that say which
    clients sit behind which proxy. Every method is one critical section. */
module Broker {
  import GoHeap
  import opened SnowflakeHeaps
  import opened LoadBalance

  const UNRESTRICTED := "unrestricted"

  class Client {
    const id: string
    const natType: string

    constructor (id: string, natType: string)
      ensures this.id == id && this.natType == natType
    {
      this.id, this.natType := id, natType;
    }
  }

  /** A client behind the proxy at an address. */
  datatype Seat = Seat(ip: string, client: Client?)

  /** The proxy at an address is told to send a client to another proxy. */
  datatype Transfer = Transfer(ip: string, cid: string, target: Snowflake)

  /** `OutOfRange` is a panic: the recorded position is not one of the heap. */
  datatype TimeOutResult = NotThere | Removed | OutOfRange

  datatype RescaleResult = Done | NoProxy | NilClient

  class BrokerContext {
    const snowflakes: SnowflakeHeap
    const restricted: SnowflakeHeap
    var byHost: map<string, Snowflake>
    var proxyClients: map<string, seq<Client?>>
    var clientsById: map<string, Client>
    /** Every proxy that ever registered. */
    ghost var known: set<Snowflake>

    constructor ()
      ensures Valid() && Ordered() && known == {} && byHost == map[] && proxyClients == map[] && clientsById == map[]
      ensures fresh(snowflakes) && fresh(restricted)
    {
      snowflakes := new SnowflakeHeap();
      restricted := new SnowflakeHeap();
      byHost, proxyClients, clientsById := map[], map[], map[];
      known := {};
    }

    /** Holds after every operation, `Rescale` included. */
    ghost predicate Valid()
      reads this`byHost, this`known, snowflakes, restricted
    {
      && snowflakes != restricted && snowflakes.Valid() && restricted.Valid()
      && snowflakes.Members() !! restricted.Members()
      && snowflakes.Members() + restricted.Members() <= known
      && (forall f :: f in snowflakes.Members() ==> f.natType == UNRESTRICTED)
      && (forall f :: f in restricted.Members() ==> f.natType != UNRESTRICTED)
      && (forall ip :: ip in byHost ==> byHost[ip].host == ip)
    }

    /** The proxies clients can be matched with. */
    ghost function Pool(): set<Snowflake>
      reads snowflakes, restricted
    {
      snowflakes.Members() + restricted.Members()
    }

    /** Holds after every operation but `Rescale`: both heaps are in order, and a
        proxy in neither heap is marked with index -1. */
    ghost predicate Ordered()
      reads this`known, snowflakes, restricted, snowflakes.flakes, restricted.flakes, known
    {
      && snowflakes.Ordered() && restricted.Ordered()
      && (forall f :: f in known ==> f.index == -1 || f in snowflakes.Members() || f in restricted.Members())
    }

    /** The part of a proxy poll, or of `AddSnowflake`, that registers the proxy. */
    method Register(f: Snowflake)
      requires Valid() && f !in known
      modifies this`known, snowflakes, restricted, snowflakes.Members()`index, restricted.Members()`index, f`index
      ensures Valid() && known == old(known) + {f}
      ensures old(Ordered()) ==> Ordered()
      ensures f.natType == UNRESTRICTED ==>
        snowflakes.Members() == old(snowflakes.Members()) + {f} && restricted.Members() == old(restricted.Members())
      ensures f.natType != UNRESTRICTED ==>
        restricted.Members() == old(restricted.Members()) + {f} && snowflakes.Members() == old(snowflakes.Members())
    {
      hide GoHeap.Push, GoHeap.IsHeap, EntriesOf, SnowflakeHeap.Indexed, SnowflakeHeap.Valid;
      known := known + {f};
      if f.natType == UNRESTRICTED {
        assert f !in snowflakes.Members();
        snowflakes.Enlist(f);
      } else {
        assert f !in restricted.Members();
        restricted.Enlist(f);
      }
    }

    method AddSnowflake(id: string, natType: string, clients: int) returns (f: Snowflake)
      requires Valid()
      modifies this`known, snowflakes, restricted, snowflakes.Members()`index, restricted.Members()`index
      ensures fresh(f) && f.id == id && f.natType == natType && f.clients == clients
      ensures Valid() && known == old(known) + {f}
      ensures old(Ordered()) ==> Ordered()
      ensures natType == "unrestricted" ==>
        snowflakes.Members() == old(snowflakes.Members()) + {f} && restricted.Members() == old(restricted.Members())
      ensures natType != "unrestricted" ==>
        restricted.Members() == old(restricted.Members()) + {f} && snowflakes.Members() == old(snowflakes.Members())
    {
      hide GoHeap.IsHeap, EntriesOf, SnowflakeHeap.Indexed, SnowflakeHeap.Valid;
      f := new Snowflake(id, "", "", natType, clients);
      Register(f);
    }

    method ProxyPolls(sid: string, addr: string, remoteIP: string, natType: string, clients: int) returns (f: Snowflake)
      requires Valid()
      modifies this`known, this`byHost, snowflakes, restricted, snowflakes.Members()`index, restricted.Members()`index
      ensures fresh(f) && f.id == sid && f.ip == addr && f.host == remoteIP && f.natType == natType &&
        f.clients == clients
      ensures Valid() && known == old(known) + {f}
      ensures old(Ordered()) ==> Ordered()
      ensures byHost == old(byHost)[remoteIP := f]
      ensures natType == UNRESTRICTED ==>
        snowflakes.Members() == old(snowflakes.Members()) + {f} && restricted.Members() == old(restricted.Members())
      ensures natType != UNRESTRICTED ==>
        restricted.Members() == old(restricted.Members()) + {f} && snowflakes.Members() == old(snowflakes.Members())
    {
      hide GoHeap.IsHeap, EntriesOf, SnowflakeHeap.Indexed, SnowflakeHeap.Valid;
      f := new Snowflake(sid, addr, remoteIP, natType, clients);
      byHost := byHost[remoteIP := f];
      Register(f);
    }

    /** How many clients each proxy serves. */
    ghost function Loads(): map<Snowflake, int>
      reads this`known, known`clients
    {
      map g | g in known :: g.clients
    }

    /** A client of an unrestricted network gets a restricted proxy if there is one; all other
        clients get unrestricted proxies only. It is the one at the root of its heap. */
    method MatchSnowflake(natType: string) returns (r: Snowflake?)
      requires Valid()
      modifies snowflakes, restricted, snowflakes.Members(), restricted.Members()
      ensures Valid() && Pool() == old(Pool()) && known == old(known)
      ensures snowflakes.Members() == old(snowflakes.Members()) && restricted.Members() == old(restricted.Members())
      ensures old(Ordered()) ==> Ordered()
      ensures natType != "unrestricted" ==> (r == null <==> snowflakes.Members() == {})
      ensures natType == "unrestricted" ==> (r == null <==> snowflakes.Members() == restricted.Members() == {})
      ensures r != null && natType == "unrestricted" && restricted.Members() != {} ==>
        r.natType != "unrestricted" && old(restricted.flakes) != [] && r == old(restricted.flakes)[0]
      ensures r != null && (natType != "unrestricted" || restricted.Members() == {}) ==>
        r.natType == "unrestricted" && old(snowflakes.flakes) != [] && r == old(snowflakes.flakes)[0]
      ensures r != null ==> r in Pool() && r in old(Loads()) && Loads() == old(Loads())[r := old(Loads())[r] + 1]
      ensures r == null ==> Loads() == old(Loads()) && snowflakes.flakes == []
      ensures r != null && r.natType == "unrestricted" ==> snowflakes.Entries() == Match(old(snowflakes.Entries()))
      ensures r != null && r.natType != "unrestricted" ==> restricted.Entries() == Match(old(restricted.Entries()))
      ensures r != null && old(Ordered()) ==> LeastOfKind(old(Loads()), Pool(), r)
    {
      hide GoHeap.IsHeap, EntriesOf, SnowflakeHeap.Indexed, Match;
      snowflakes.NoMembers();
      restricted.NoMembers();
      var heap := if natType == UNRESTRICTED then restricted else snowflakes;
      if |heap.flakes| > 0 {
        assert heap.flakes[0] in heap.Members();
        r := MatchFrom(heap);
      } else if natType == UNRESTRICTED && |snowflakes.flakes| > 0 {
        assert snowflakes.flakes[0] in snowflakes.Members();
        r := MatchFrom(snowflakes);
      } else {
        r := null;
      }
    }

    /** A match on one of the two heaps leaves the other alone. */
    method MatchFrom(heap: SnowflakeHeap) returns (r: Snowflake)
      requires Valid() && (heap == snowflakes || heap == restricted) && |heap.flakes| > 0
      modifies heap, heap.Members()`index, heap.Root()`clients
      ensures Valid() && snowflakes.Members() == old(snowflakes.Members()) &&
        restricted.Members() == old(restricted.Members())
      ensures old(Ordered()) ==> Ordered()
      ensures r == old(heap.flakes)[0] && r.clients == old(r.clients) + 1
      ensures heap.Entries() == Match(old(heap.Entries()))
      ensures forall g :: g in known && g != r ==> g.clients == old(g.clients)
      ensures old(Ordered()) ==> forall g :: g in heap.Members() ==> old(r.clients) <= old(g.clients)
    {
      r := heap.HandOut();
    }

    /** The timeout branch of the goroutine that waits for an offer. It removes what is at the
        recorded position, which is the proxy itself while positions are in order. After a
        `Rescale` it can be another proxy, or a position past the end, which is a panic. */
    method TimeOut(f: Snowflake) returns (r: TimeOutResult, ghost g: Snowflake)
      requires Valid() && f in known
      modifies snowflakes, restricted, snowflakes.Members()`index, restricted.Members()`index
      ensures Valid()
      ensures old(f.index) == -1 <==> r == NotThere
      ensures r == Removed && f.natType == UNRESTRICTED ==>
        0 <= old(f.index) < |old(snowflakes.flakes)| && g == old(snowflakes.flakes[f.index]) && g.index == -1
      ensures r == Removed && f.natType != UNRESTRICTED ==>
        0 <= old(f.index) < |old(restricted.flakes)| && g == old(restricted.flakes[f.index]) && g.index == -1
      ensures r == OutOfRange && f.natType == UNRESTRICTED ==> !(0 <= old(f.index) < |old(snowflakes.flakes)|)
      ensures r == OutOfRange && f.natType != UNRESTRICTED ==> !(0 <= old(f.index) < |old(restricted.flakes)|)
      ensures r == Removed ==> snowflakes.Members() == old(snowflakes.Members()) - {g}
      ensures r == Removed ==> restricted.Members() == old(restricted.Members()) - {g}
      ensures r != Removed ==> snowflakes.flakes == old(snowflakes.flakes)
      ensures r != Removed ==> restricted.flakes == old(restricted.flakes)
      ensures r != Removed ==> forall h :: h in known ==> h.index == old(h.index)
      ensures old(Ordered()) ==> Ordered() && f.index == -1 && r != OutOfRange && (r == Removed ==> g == f)
      ensures old(Ordered()) ==> snowflakes.Members() == old(snowflakes.Members()) - {f}
      ensures old(Ordered()) ==> restricted.Members() == old(restricted.Members()) - {f}
    {
      hide GoHeap.Evicted, GoHeap.IsHeap, EntriesOf, SnowflakeHeap.Valid;
      g := f;
      if f.index == -1 {
        return NotThere, g;
      }
      var heap := if f.natType == UNRESTRICTED then snowflakes else restricted;
      if f.index < 0 || f.index >= |heap.flakes| {
        return OutOfRange, g;
      }
      g := heap.Delist(f);
      r := Removed;
    }

    /** A proxy reports that it serves a client, or no longer does: the client joins the end of its
        list, or its first occurrence leaves the list. */
    method ProxyNotice(cid: string, action: string, proxyIP: string) returns (ghost list: seq<Client?>, ghost idx: int)
      modifies this`proxyClients
      ensures list == if proxyIP in old(proxyClients) then old(proxyClients)[proxyIP] else []
      ensures action == "add" && cid in clientsById ==>
        proxyClients == old(proxyClients)[proxyIP := list + [clientsById[cid]]]
      ensures action == "add" && cid !in clientsById ==> proxyClients == old(proxyClients)[proxyIP := list + [null]]
      ensures action == "delete" && (if cid in clientsById then clientsById[cid] in list else null in list) ==>
        && 0 <= idx < |list| && list[idx] == (if cid in clientsById then clientsById[cid] else null)
        && list[idx] !in list[..idx] && proxyClients == old(proxyClients)[proxyIP := list[..idx] + list[idx + 1..]]
      ensures action == "delete" && (if cid in clientsById then clientsById[cid] !in list else null !in list) ==>
        proxyClients == old(proxyClients)
      ensures action != "add" && action != "delete" ==> proxyClients == old(proxyClients)
    {
      var client: Client? := if cid in clientsById then clientsById[cid] else null;
      var clients := if proxyIP in proxyClients then proxyClients[proxyIP] else [];
      list, idx := clients, -1;
      if action == "add" {
        proxyClients := proxyClients[proxyIP := clients + [client]];
      } else if action == "delete" {
        var at := FirstIndex(clients, client);
        idx := at;
        if at != -1 {
          proxyClients := proxyClients[proxyIP := clients[..at] + clients[at + 1..]];
        }
      }
    }

    /** The proxies looked up for the addresses to retire. */
    ghost function Retired(oldIPs: seq<string>): set<Snowflake>
      reads this
    {
      set ip | ip in oldIPs && ip in byHost :: byHost[ip]
    }

    method RetireOne(proxy: Snowflake?)
      requires Valid()
      modifies snowflakes
      ensures Valid() && snowflakes.Members() == old(snowflakes.Members()) - {proxy}
      ensures proxy !in old(snowflakes.Members()) ==> snowflakes.flakes == old(snowflakes.flakes)
    {
      hide GoHeap.IsHeap, GoHeap.FitsParents, EntriesOf, SnowflakeHeap.Indexed;
      var _ := snowflakes.Remove(proxy);
    }

    /** The first loop of `Rescale`. */
    method Retire(oldIPs: seq<string>)
      requires Valid()
      modifies snowflakes
      ensures Valid() && snowflakes.Members() == old(snowflakes.Members()) - Retired(oldIPs)
      ensures Retired(oldIPs) !! old(snowflakes.Members()) ==> snowflakes.flakes == old(snowflakes.flakes)
    {
      hide GoHeap.IsHeap, EntriesOf, SnowflakeHeap.Valid;
      for i := 0 to |oldIPs|
        invariant Valid() && snowflakes.Members() == old(snowflakes.Members()) - Retired(oldIPs[..i])
        invariant Retired(oldIPs) !! old(snowflakes.Members()) ==> snowflakes.flakes == old(snowflakes.flakes)
      {
        var proxy: Snowflake? := if oldIPs[i] in byHost then byHost[oldIPs[i]] else null;
        assert proxy != null ==> proxy in Retired(oldIPs);
        RetireOne(proxy);
        assert oldIPs[..i + 1] == oldIPs[..i] + [oldIPs[i]];
        assert Retired(oldIPs[..i + 1]) == Retired(oldIPs[..i]) + (if proxy == null then {} else {proxy});
      }
      assert oldIPs[..|oldIPs|] == oldIPs;
    }

    /** Retires the proxies at `oldIPs` and moves their clients elsewhere, one match for each. The
        members of the heaps are all that this relies on: the retirement has left their order
        and the recorded positions behind, unless nothing was retired. */
    method Rescale(oldIPs: seq<string>) returns (result: RescaleResult, transfers: seq<Transfer>, ghost done: nat)
      requires Valid()
      modifies this`byHost, this`proxyClients, snowflakes, restricted, snowflakes.Members(), restricted.Members()
      ensures Valid()
      ensures snowflakes.Members() == old(snowflakes.Members()) - old(Retired(oldIPs))
      ensures restricted.Members() == old(restricted.Members())
      ensures forall t :: t in transfers ==> t.target in Pool()
      ensures Serves(transfers, Behind(oldIPs, old(proxyClients)), restricted.Members() != {})
      ensures Stops(result, transfers, Behind(oldIPs, old(proxyClients)), snowflakes.Members(), restricted.Members())
      ensures Accounted(old(Loads()), Loads(), transfers)
      ensures done <= |oldIPs| && (result.Done? <==> done == |oldIPs|)
      ensures proxyClients == old(proxyClients) - Hosts(oldIPs[..done])
      ensures byHost == old(byHost) - Hosts(oldIPs[..if done < |oldIPs| then done + 1 else done])
      ensures old(Ordered()) && old(Retired(oldIPs) !! snowflakes.Members()) ==>
        Ordered() && Fair(old(Loads()), Pool(), transfers)
      ensures old(EachOnce()) ==> forall t :: t in transfers ==> t.target.host !in oldIPs
    {
      hide SnowflakeHeap.Valid, Serves, Stops, Accounted, Fair, Behind, Hosts, Retired, EachOnce, EntriesOf;
      if EachOnce() { NoneLeftBehind(oldIPs); }
      Retire(oldIPs);
      hide Ordered, Valid;
      result, transfers, done := MoveAll(oldIPs);
    }

    /** The second loop of `Rescale`. */
    method MoveAll(oldIPs: seq<string>) returns (result: RescaleResult, transfers: seq<Transfer>, ghost done: nat)
      requires Valid()
      modifies this`byHost, this`proxyClients, snowflakes, restricted, snowflakes.Members(), restricted.Members()
      ensures Valid() && snowflakes.Members() == old(snowflakes.Members()) &&
        restricted.Members() == old(restricted.Members()) && Pool() == old(Pool())
      ensures forall t :: t in transfers ==> t.target in Pool()
      ensures Serves(transfers, Behind(oldIPs, old(proxyClients)), restricted.Members() != {})
      ensures Stops(result, transfers, Behind(oldIPs, old(proxyClients)), snowflakes.Members(), restricted.Members())
      ensures Accounted(old(Loads()), Loads(), transfers)
      ensures done <= |oldIPs| && (result.Done? <==> done == |oldIPs|)
      ensures proxyClients == old(proxyClients) - Hosts(oldIPs[..done])
      ensures byHost == old(byHost) - Hosts(oldIPs[..if done < |oldIPs| then done + 1 else done])
      ensures old(Ordered()) ==> Ordered() && Fair(old(Loads()), Pool(), transfers)
    {
      hide Valid, Ordered, SnowflakeHeap.Valid, Serves, Stops, Accounted, Fair, Behind, Hosts, Relocated, Loads, Pool;
      transfers, done := [], 0;
      ghost var any := restricted.Members() != {};
      RelocatedNone(oldIPs, proxyClients, any);
      assert byHost == byHost - {} && proxyClients == proxyClients - {};
      NothingGiven(Loads(), Pool());
      for i := 0 to |oldIPs|
        invariant done == i && Valid() && snowflakes.Members() == old(snowflakes.Members())
        invariant restricted.Members() == old(restricted.Members()) && Pool() == old(Pool())
        invariant byHost == old(byHost) - Hosts(oldIPs[..i]) && proxyClients == old(proxyClients) - Hosts(oldIPs[..i])
        invariant forall t :: t in transfers ==> t.target in Pool()
        invariant Relocated(oldIPs, i, old(proxyClients), proxyClients, transfers, any)
        invariant Accounted(old(Loads()), Loads(), transfers)
        invariant old(Ordered()) ==> Ordered() && Fair(old(Loads()), Pool(), transfers)
      {
        var ip := oldIPs[i];
        WithoutHost(oldIPs, i, old(proxyClients));
        WithoutHost(oldIPs, i, old(byHost));
        var list := if ip in proxyClients then proxyClients[ip] else [];
        ghost var loads := Loads();
        var moved;
        result, moved := MoveAt(ip, list);
        GivenMore(old(Loads()), loads, Loads(), Pool(), transfers, moved);
        RelocatedSome(oldIPs, i, old(proxyClients), proxyClients, transfers, list, moved, any, result,
          snowflakes.Members(), restricted.Members());
        transfers := transfers + moved;
        if !result.Done? {
          return;
        }
        proxyClients := proxyClients - {ip};
        done := i + 1;
      }
      RelocatedAll(oldIPs, old(proxyClients), proxyClients, transfers, any, snowflakes.Members(), restricted.Members());
      result := Done;
    }

    /** The address goes from the table, and its clients get other proxies. */
    method MoveAt(ip: string, list: seq<Client?>) returns (result: RescaleResult, transfers: seq<Transfer>)
      requires Valid()
      modifies this`byHost, snowflakes, restricted, snowflakes.Members(), restricted.Members()
      ensures byHost == old(byHost) - {ip}
      ensures Valid() && snowflakes.Members() == old(snowflakes.Members()) &&
        restricted.Members() == old(restricted.Members()) && Pool() == old(Pool())
      ensures forall t :: t in transfers ==> t.target in Pool()
      ensures Serves(transfers, Seats(ip, list), restricted.Members() != {})
      ensures Stops(result, transfers, Seats(ip, list), snowflakes.Members(), restricted.Members())
      ensures Accounted(old(Loads()), Loads(), transfers)
      ensures old(Ordered()) ==> Ordered() && Fair(old(Loads()), Pool(), transfers)
    {
      hide Ordered, SnowflakeHeap.Valid, Serves, Stops, Accounted, Fair, Loads, Pool;
      byHost := byHost - {ip};
      hide Valid;
      result, transfers := MoveClients(ip, list);
    }

    /** All proxies are unrestricted, and each is the one its address is registered for. */
    ghost predicate EachOnce()
      reads this, snowflakes, restricted
    {
      restricted.Members() == {} &&
      forall f :: f in snowflakes.Members() ==> f.host in byHost && byHost[f.host] == f
    }

    /** Then nothing at those addresses outlives their retirement. */
    lemma {:induction false} NoneLeftBehind(oldIPs: seq<string>)
      requires Valid() && EachOnce()
      ensures restricted.Members() == {}
      ensures forall f :: f in snowflakes.Members() - Retired(oldIPs) ==> f.host !in oldIPs
    {
      RetiredExactly(oldIPs);
    }

    /** A proxy at one of the addresses is retired exactly when the table names it. */
    lemma {:induction false} RetiredExactly(oldIPs: seq<string>)
      requires Valid()
      ensures forall f :: f in known ==>
        (f in Retired(oldIPs) <==> f.host in oldIPs && f.host in byHost && byHost[f.host] == f)
    {
    }

    /** The inner loop of `Rescale`: one match, and one transfer, for each client of a retired proxy. */
    method MoveClients(ip: string, list: seq<Client?>) returns (result: RescaleResult, transfers: seq<Transfer>)
      requires Valid()
      modifies snowflakes, restricted, snowflakes.Members(), restricted.Members()
      ensures Valid() && snowflakes.Members() == old(snowflakes.Members()) &&
        restricted.Members() == old(restricted.Members()) && Pool() == old(Pool())
      ensures forall t :: t in transfers ==> t.target in Pool()
      ensures Serves(transfers, Seats(ip, list), restricted.Members() != {})
      ensures Stops(result, transfers, Seats(ip, list), snowflakes.Members(), restricted.Members())
      ensures Accounted(old(Loads()), Loads(), transfers)
      ensures old(Ordered()) ==> Ordered() && Fair(old(Loads()), Pool(), transfers)
    {
      hide Valid, Ordered, SnowflakeHeap.Entries, SnowflakeHeap.Valid, Match, Serves, Accounted, Fair, Loads, Pool;
      hide LeastOfKind;
      transfers := [];
      NobodyMoved(Seats(ip, list), restricted.Members() != {});
      NothingGiven(Loads(), Pool());
      for idx := 0 to |list|
        invariant Valid() && snowflakes.Members() == old(snowflakes.Members()) &&
          restricted.Members() == old(restricted.Members()) && Pool() == old(Pool())
        invariant forall t :: t in transfers ==> t.target in Pool()
        invariant |transfers| == idx && Serves(transfers, Seats(ip, list), restricted.Members() != {})
        invariant Accounted(old(Loads()), Loads(), transfers)
        invariant old(Ordered()) ==> Ordered() && Fair(old(Loads()), Pool(), transfers)
      {
        var client := list[idx];
        if client == null {
          return NilClient, transfers;
        }
        ghost var loads := Loads();
        var newProxy := MatchSnowflake(client.natType);
        if newProxy == null {
          return NoProxy, transfers;
        }
        ghost var before := transfers;
        var t := Transfer(ip, client.id, newProxy);
        ServesMore(transfers, Seats(ip, list), restricted.Members() != {}, t);
        GivenOne(old(Loads()), loads, Loads(), Pool(), transfers, t);
        transfers := transfers + [t];
      }
      return Done, transfers;
    }
  }

  // ----- Who is transferred where -----

  /** A restricted proxy is for clients of unrestricted networks only, and those get one if there is any. */
  ghost predicate RightKind(natType: string, target: Snowflake, anyRestricted: bool) {
    target.natType != "unrestricted" <==> natType == "unrestricted" && anyRestricted
  }

  /** The clients in order have each got a transfer, as far as the transfers go. */
  ghost predicate Serves(transfers: seq<Transfer>, seats: seq<Seat>, anyRestricted: bool) {
    |transfers| <= |seats| && forall i :: 0 <= i < |transfers| ==>
      && seats[i].client != null && transfers[i].ip == seats[i].ip && transfers[i].cid == seats[i].client.id
      && RightKind(seats[i].client.natType, transfers[i].target, anyRestricted)
  }

  ghost predicate SameKind(f: Snowflake, g: Snowflake) {
    f.natType == UNRESTRICTED <==> g.natType == UNRESTRICTED
  }

  /** Everybody is transferred unless a client has no proxy left for it, or is unknown. */
  ghost predicate Stops(result: RescaleResult, transfers: seq<Transfer>, seats: seq<Seat>, open: set<Snowflake>,
      restricted: set<Snowflake>) {
    match result
    case Done => |transfers| == |seats|
    case NoProxy => |transfers| < |seats| && seats[|transfers|].client != null && open == {} &&
      (seats[|transfers|].client.natType == UNRESTRICTED ==> restricted == {})
    case NilClient => |transfers| < |seats| && seats[|transfers|].client == null
  }

  /** The number of transfers to a proxy. */
  ghost function Given(transfers: seq<Transfer>, g: Snowflake): nat {
    if transfers == [] then 0
    else Given(transfers[..|transfers| - 1], g) + (if transfers[|transfers| - 1].target == g then 1 else 0)
  }

  /** Every proxy serves one client more for each transfer to it. */
  ghost predicate Accounted(before: map<Snowflake, int>, after: map<Snowflake, int>, transfers: seq<Transfer>) {
    after.Keys == before.Keys && forall g :: g in before ==> after[g] == before[g] + Given(transfers, g)
  }

  /** The proxy serves no more clients than any other proxy of its kind. */
  ghost predicate LeastOfKind(loads: map<Snowflake, int>, pool: set<Snowflake>, f: Snowflake) {
    forall g :: g in pool && InTurn(loads, g, f) ==> loads[f] <= loads[g]
  }

  ghost predicate InTurn(loads: map<Snowflake, int>, g: Snowflake, f: Snowflake) {
    g in loads && f in loads && SameKind(g, f)
  }

  /** At its turn, each target served the fewest clients among the proxies of its kind. */
  ghost predicate Fair(loads: map<Snowflake, int>, pool: set<Snowflake>, transfers: seq<Transfer>) {
    forall i, g :: 0 <= i < |transfers| && g in pool && InTurn(loads, g, transfers[i].target) ==>
      loads[transfers[i].target] + Given(transfers[..i], transfers[i].target) <= loads[g] + Given(transfers[..i], g)
  }

  lemma {:induction false} NobodyMoved(seats: seq<Seat>, anyRestricted: bool)
    ensures Serves([], seats, anyRestricted)
  {
  }

  lemma {:induction false} ServesMore(transfers: seq<Transfer>, seats: seq<Seat>, anyRestricted: bool, t: Transfer)
    requires Serves(transfers, seats, anyRestricted) && |transfers| < |seats|
    requires var seat := seats[|transfers|];
      && seat.client != null && t.ip == seat.ip && t.cid == seat.client.id
      && RightKind(seat.client.natType, t.target, anyRestricted)
    ensures Serves(transfers + [t], seats, anyRestricted)
  {
  }

  lemma {:induction false} GivenConcat(a: seq<Transfer>, b: seq<Transfer>, g: Snowflake)
    ensures Given(a + b, g) == Given(a, g) + Given(b, g)
  {
    if b == [] {
      assert a + b == a;
    } else {
      var n := |b| - 1;
      assert (a + b)[..|a + b| - 1] == a + b[..n];
      GivenConcat(a, b[..n], g);
    }
  }

  lemma {:induction false} NothingGiven(loads: map<Snowflake, int>, pool: set<Snowflake>)
    ensures Accounted(loads, loads, []) && Fair(loads, pool, [])
  {
  }

  /** More transfers, from the loads after those before. */
  lemma {:induction false} GivenMore(first: map<Snowflake, int>, mid: map<Snowflake, int>, last: map<Snowflake, int>,
      pool: set<Snowflake>, transfers: seq<Transfer>, moved: seq<Transfer>)
    requires Accounted(first, mid, transfers) && Accounted(mid, last, moved)
    ensures Accounted(first, last, transfers + moved)
    ensures Fair(first, pool, transfers) && Fair(mid, pool, moved) ==> Fair(first, pool, transfers + moved)
  {
    hide Given;
    var all := transfers + moved;
    forall g ensures Given(all, g) == Given(transfers, g) + Given(moved, g) {
      GivenConcat(transfers, moved, g);
    }
    if Fair(first, pool, transfers) && Fair(mid, pool, moved) {
      forall i, g | 0 <= i < |all| && g in pool && InTurn(first, g, all[i].target)
        ensures first[all[i].target] + Given(all[..i], all[i].target) <= first[g] + Given(all[..i], g)
      {
        if i < |transfers| {
          assert all[..i] == transfers[..i] && all[i] == transfers[i];
        } else {
          var j := i - |transfers|;
          assert all[..i] == transfers + moved[..j] && all[i] == moved[j];
          GivenConcat(transfers, moved[..j], g);
          GivenConcat(transfers, moved[..j], all[i].target);
        }
      }
    }
  }

  /** One transfer more, to a proxy that is charged for it. */
  lemma {:induction false} GivenOne(first: map<Snowflake, int>, mid: map<Snowflake, int>, last: map<Snowflake, int>,
      pool: set<Snowflake>, transfers: seq<Transfer>, t: Transfer)
    requires Accounted(first, mid, transfers) && t.target in mid && last == mid[t.target := mid[t.target] + 1]
    ensures Accounted(first, last, transfers + [t])
    ensures Fair(first, pool, transfers) && LeastOfKind(mid, pool, t.target) ==> Fair(first, pool, transfers + [t])
  {
    assert [t][..0] == [];
    assert Accounted(mid, last, [t]);
    GivenMore(first, mid, last, pool, transfers, [t]);
  }

  ghost function Seats(ip: string, list: seq<Client?>): (seats: seq<Seat>)
    ensures |seats| == |list| && forall i :: 0 <= i < |list| ==> seats[i] == Seat(ip, list[i])
  {
    seq(|list|, i requires 0 <= i < |list| => Seat(ip, list[i]))
  }

  /** The clients behind the addresses, each address counted the first time it appears. */
  ghost function Behind(ips: seq<string>, table: map<string, seq<Client?>>): seq<Seat> {
    if ips == [] then []
    else (if ips[0] in table then Seats(ips[0], table[ips[0]]) else []) + Behind(ips[1..], table - {ips[0]})
  }

  /** `slices.Index` */
  method FirstIndex(list: seq<Client?>, c: Client?) returns (idx: int)
    ensures -1 <= idx < |list|
    ensures idx == -1 <==> c !in list
    ensures idx != -1 ==> list[idx] == c && c !in list[..idx]
  {
    idx := 0;
    while idx < |list| && list[idx] != c
      invariant 0 <= idx <= |list| && c !in list[..idx]
    {
      idx := idx + 1;
    }
    if idx == |list| {
      return -1;
    }
  }

  /** The clients behind the first `i` addresses are moved, and those addresses are
      gone from the table. */
  ghost predicate Relocated(ips: seq<string>, i: nat, before: map<string, seq<Client?>>,
      table: map<string, seq<Client?>>, transfers: seq<Transfer>, anyRestricted: bool)
  {
    && i <= |ips| && table == before - Hosts(ips[..i]) && |transfers| <= |Behind(ips, before)|
    && Serves(transfers, Behind(ips, before), anyRestricted)
    && Behind(ips[i..], table) == Behind(ips, before)[|transfers|..]
  }

  lemma {:induction false} RelocatedNone(ips: seq<string>, table: map<string, seq<Client?>>, anyRestricted: bool)
    ensures Relocated(ips, 0, table, table, [], anyRestricted) && Hosts(ips[..0]) == {}
  {
    assert ips[0..] == ips;
    assert Hosts(ips[..0]) == {};
  }

  lemma {:induction false} BehindFirst(ips: seq<string>, i: nat, table: map<string, seq<Client?>>, list: seq<Client?>)
    requires i < |ips| && list == if ips[i] in table then table[ips[i]] else []
    ensures Behind(ips[i..], table) == Seats(ips[i], list) + Behind(ips[i + 1..], table - {ips[i]})
  {
    assert ips[i..][1..] == ips[i + 1..];
  }

  lemma {:induction false} WithoutHost<V>(ips: seq<string>, i: nat, before: map<string, V>)
    requires i < |ips|
    ensures before - Hosts(ips[..i + 1]) == before - Hosts(ips[..i]) - {ips[i]}
  {
    HostsStep(ips, i);
    hide Hosts;
  }

  /** The transfers for the clients of the next address follow those before. */
  lemma {:induction false} ServesNext(transfers: seq<Transfer>, moved: seq<Transfer>, seats: seq<Seat>, some: seq<Seat>,
      rest: seq<Seat>, anyRestricted: bool)
    requires Serves(transfers, seats, anyRestricted) && seats[|transfers|..] == some + rest
    requires Serves(moved, some, anyRestricted)
    ensures Serves(transfers + moved, seats, anyRestricted)
    ensures forall k :: 0 <= k < |some| ==> seats[|transfers| + k] == some[k]
    ensures |seats| == |transfers| + |some| + |rest|
  {
    forall k | 0 <= k < |some| ensures seats[|transfers| + k] == some[k] {
      assert seats[|transfers|..][k] == (some + rest)[k];
    }
  }

  /** Moving some clients of the next address keeps the order; moving all of them
      finishes that address. */
  lemma {:induction false} RelocatedSome(ips: seq<string>, i: nat, before: map<string, seq<Client?>>,
      table: map<string, seq<Client?>>, transfers: seq<Transfer>, list: seq<Client?>, moved: seq<Transfer>,
      anyRestricted: bool, result: RescaleResult, open: set<Snowflake>, restricted: set<Snowflake>)
    requires Relocated(ips, i, before, table, transfers, anyRestricted) && i < |ips|
    requires list == if ips[i] in table then table[ips[i]] else []
    requires Serves(moved, Seats(ips[i], list), anyRestricted)
    requires Stops(result, moved, Seats(ips[i], list), open, restricted)
    ensures Serves(transfers + moved, Behind(ips, before), anyRestricted)
    ensures result.Done? ==> Relocated(ips, i + 1, before, table - {ips[i]}, transfers + moved, anyRestricted)
    ensures !result.Done? ==> Stops(result, transfers + moved, Behind(ips, before), open, restricted)
  {
    hide Serves, Behind, Hosts;
    var all, some, rest := Behind(ips, before), Seats(ips[i], list), Behind(ips[i + 1..], table - {ips[i]});
    BehindFirst(ips, i, table, list);
    WithoutHost(ips, i, before);
    ServesNext(transfers, moved, all, some, rest, anyRestricted);
    if result.Done? {
      assert all[|transfers|..][|some|..] == rest;
      assert all[|transfers + moved|..] == rest;
    }
  }

  lemma {:induction false} RelocatedAll(ips: seq<string>, before: map<string, seq<Client?>>,
      table: map<string, seq<Client?>>, transfers: seq<Transfer>, anyRestricted: bool, open: set<Snowflake>,
      restricted: set<Snowflake>)
    requires Relocated(ips, |ips|, before, table, transfers, anyRestricted)
    ensures Stops(Done, transfers, Behind(ips, before), open, restricted) && ips[..|ips|] == ips
    ensures Serves(transfers, Behind(ips, before), anyRestricted)
  {
    hide Serves, Hosts;
    assert ips[..|ips|] == ips && ips[|ips|..] == [];
    assert |Behind(ips, before)[|transfers|..]| == |Behind(ips, before)| - |transfers|;
  }

  lemma {:induction false} HostsStep(ips: seq<string>, i: nat)
    requires i < |ips|
    ensures Hosts(ips[..i + 1]) == Hosts(ips[..i]) + {ips[i]}
  {
    assert ips[..i + 1] == ips[..i] + [ips[i]];
  }

  ghost function Hosts(ips: seq<string>): set<string> {
    set ip | ip in ips
  }
}
