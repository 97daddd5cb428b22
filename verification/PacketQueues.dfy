/** The packet connection on top of the client map: one queue of incoming packets, one
    queue of outgoing packets for each client, and a pool of buffers that all of them share. */
module PacketQueues {
  import opened ClientIds
  import opened ClientMap

  newtype byte = x: int | 0 <= x < 256

  const QUEUE_SIZE := 512

  datatype Packet = Packet(data: seq<byte>, addr: ClientID)

  /** A slice of a buffer, with the client it comes from or goes to. */
  datatype Slice = Slice(buf: array<byte>, len: nat, addr: ClientID)

  datatype Channel = Incoming | Outgoing(queue: nat)

  /** The one place a buffer is in; the `n`th packet accepted by a channel is in place `n`.
      A buffer with no place belongs to whoever took it out, or to a caller. */
  datatype Place = Pooled | Queued(channel: Channel, n: nat)

  datatype State = Open | Closed(err: string)

  datatype ReadResult = Read(n: nat, addr: ClientID) | ReadWaits | ReadFails(err: string)
  datatype WriteResult = Written(n: nat) | WriteFails(err: string)
  datatype TakeResult = Taken(slice: Slice) | TakeWaits | TakeEnds
  datatype CloseResult = CloseOk | CloseFails(err: string)

  const CLOSED_PACKET_CONN := "operation on closed connection"

  /** What fits: everything, or the first `size` bytes. */
  function Cut(p: seq<byte>, size: nat): (c: seq<byte>)
    ensures c <= p && |c| <= size && (c == p || |c| == size)
  {
    if |p| < size then p else p[..size]
  }

  /** The slice holds the packet, and the buffer is in no other place. */
  ghost predicate Holds(place: map<array<byte>, Place>, at: Place, slice: Slice, packet: Packet)
    reads slice.buf
  {
    && slice.buf in place && place[slice.buf] == at
    && slice.len <= slice.buf.Length && packet == Packet(slice.buf[..slice.len], slice.addr)
  }

  /** What has been taken from a channel and what waits in it are, in order, what it accepted. */
  ghost predicate InOrder(place: map<array<byte>, Place>, c: Channel, queue: seq<Slice>, taken: nat,
      accepted: seq<Packet>)
    reads place.Keys
  {
    && |queue| <= QUEUE_SIZE && |accepted| == taken + |queue|
    && forall i :: 0 <= i < |queue| ==>
         && queue[i].buf in place
         && Holds(place, Queued(c, taken + i), queue[i], accepted[taken + i])
  }

  /** Every channel is in order. */
  ghost predicate AllInOrder(place: map<array<byte>, Place>, queues: map<Channel, seq<Slice>>, taken: map<Channel, nat>,
      accepted: map<Channel, seq<Packet>>)
    reads place.Keys
  {
    && accepted.Keys == queues.Keys && taken.Keys == queues.Keys
    && forall c :: c in queues ==> InOrder(place, c, queues[c], taken[c], accepted[c])
  }

  /** The pool has exactly the buffers whose place it is. */
  ghost predicate Pooling(place: map<array<byte>, Place>, pool: set<array<byte>>, mtu: nat) {
    && (forall b :: b in pool ==> b in place && place[b] == Pooled)
    && (forall b :: b in place && place[b] == Pooled ==> b in pool)
    && (forall b :: b in place ==> b.Length >= mtu)
  }

  /** Nothing that a channel accepted is lost, and no channel. */
  ghost predicate Grows(before: map<Channel, seq<Packet>>, after: map<Channel, seq<Packet>>) {
    forall c :: c in before ==> c in after && before[c] <= after[c]
  }

  // ----- Moving buffers -----

  lemma {:induction false} InOrderElsewhere(place: map<array<byte>, Place>, other: map<array<byte>, Place>, c: Channel,
      queue: seq<Slice>, taken: nat, accepted: seq<Packet>)
    requires InOrder(place, c, queue, taken, accepted)
    requires forall i :: 0 <= i < |queue| ==> queue[i].buf in other && other[queue[i].buf] == place[queue[i].buf]
    ensures InOrder(other, c, queue, taken, accepted)
  {
  }

  /** A change of places that moves no queued buffer keeps the channels in order. */
  lemma {:induction false} PlacesChange(place: map<array<byte>, Place>, other: map<array<byte>, Place>,
      queues: map<Channel, seq<Slice>>, taken: map<Channel, nat>, accepted: map<Channel, seq<Packet>>)
    requires AllInOrder(place, queues, taken, accepted)
    requires forall b :: b in place && place[b].Queued? ==> b in other && other[b] == place[b]
    ensures AllInOrder(other, queues, taken, accepted)
  {
    forall c | c in queues ensures InOrder(other, c, queues[c], taken[c], accepted[c]) {
      InOrderElsewhere(place, other, c, queues[c], taken[c], accepted[c]);
    }
  }

  lemma {:induction false} InOrderAdd(place: map<array<byte>, Place>, c: Channel, queue: seq<Slice>, taken: nat,
      accepted: seq<Packet>, slice: Slice, packet: Packet)
    requires InOrder(place, c, queue, taken, accepted) && |queue| < QUEUE_SIZE
    requires Holds(place, Queued(c, |accepted|), slice, packet)
    ensures InOrder(place, c, queue + [slice], taken, accepted + [packet])
  {
  }

  /** A buffer without a place joins a channel. */
  lemma {:induction false} JoinChannel(place: map<array<byte>, Place>, pool: set<array<byte>>, mtu: nat,
      queues: map<Channel, seq<Slice>>, taken: map<Channel, nat>, accepted: map<Channel, seq<Packet>>, c: Channel,
        slice: Slice)
    requires AllInOrder(place, queues, taken, accepted) && Pooling(place, pool, mtu)
    requires c in queues && |queues[c]| < QUEUE_SIZE
    requires slice.buf !in place && slice.len <= slice.buf.Length && slice.buf.Length >= mtu
    ensures var packet := Packet(slice.buf[..slice.len], slice.addr);
      var at := place[slice.buf := Queued(c, |accepted[c]|)];
      AllInOrder(at, queues[c := queues[c] + [slice]], taken, accepted[c := accepted[c] + [packet]]) &&
        Pooling(at, pool, mtu)
  {
    hide InOrder;
    var packet := Packet(slice.buf[..slice.len], slice.addr);
    var at := place[slice.buf := Queued(c, |accepted[c]|)];
    PlacesChange(place, at, queues, taken, accepted);
    InOrderAdd(at, c, queues[c], taken[c], accepted[c], slice, packet);
  }

  lemma {:induction false} FirstOf(place: map<array<byte>, Place>, c: Channel, queue: seq<Slice>, taken: nat,
      accepted: seq<Packet>)
    requires InOrder(place, c, queue, taken, accepted) && |queue| > 0
    ensures taken < |accepted| && queue[0].buf in place && Holds(place, Queued(c, taken), queue[0], accepted[taken])
  {
  }

  lemma {:induction false} InOrderWithout(place: map<array<byte>, Place>, c: Channel, queue: seq<Slice>, taken: nat,
      accepted: seq<Packet>, buf: array<byte>)
    requires InOrder(place, c, queue, taken, accepted)
    requires buf in place && (place[buf].Queued? ==> place[buf].channel != c)
    ensures InOrder(place - {buf}, c, queue, taken, accepted)
  {
  }

  lemma {:induction false} InOrderTake(place: map<array<byte>, Place>, c: Channel, queue: seq<Slice>, taken: nat,
      accepted: seq<Packet>)
    requires InOrder(place, c, queue, taken, accepted) && |queue| > 0
    ensures InOrder(place - {queue[0].buf}, c, queue[1..], taken + 1, accepted)
  {
  }

  /** The first buffer of a channel leaves it and has no place then. */
  lemma {:induction false} LeaveChannel(place: map<array<byte>, Place>, pool: set<array<byte>>, mtu: nat,
      queues: map<Channel, seq<Slice>>, taken: map<Channel, nat>, accepted: map<Channel, seq<Packet>>, c: Channel)
    requires AllInOrder(place, queues, taken, accepted) && Pooling(place, pool, mtu)
    requires c in queues && |queues[c]| > 0
    ensures taken[c] < |accepted[c]| && queues[c][0].buf in place
    ensures Holds(place, Queued(c, taken[c]), queues[c][0], accepted[c][taken[c]]) && queues[c][0].buf.Length >= mtu
    ensures var at := place - {queues[c][0].buf};
      AllInOrder(at, queues[c := queues[c][1..]], taken[c := taken[c] + 1], accepted) && Pooling(at, pool, mtu)
  {
    hide InOrder;
    var buf := queues[c][0].buf;
    FirstOf(place, c, queues[c], taken[c], accepted[c]);
    forall d | d in queues && d != c ensures InOrder(place - {buf}, d, queues[d], taken[d], accepted[d]) {
      InOrderWithout(place, d, queues[d], taken[d], accepted[d], buf);
    }
    InOrderTake(place, c, queues[c], taken[c], accepted[c]);
  }

  /** No two places share a buffer: not two packets of one channel, nor of two channels,
      nor a packet and the pool. */
  lemma {:induction false} OneOwner(conn: QueuePacketConn, c: Channel, i: nat, d: Channel, j: nat)
    requires conn.Buffers() && c in conn.queues && d in conn.queues
    requires i < |conn.queues[c]| && j < |conn.queues[d]|
    ensures conn.queues[c][i].buf == conn.queues[d][j].buf <==> c == d && i == j
    ensures conn.queues[c][i].buf !in conn.pool
  {
    assert InOrder(conn.place, c, conn.queues[c], conn.taken[c], conn.accepted[c]);
    assert InOrder(conn.place, d, conn.queues[d], conn.taken[d], conn.accepted[d]);
  }

  lemma {:induction false} PoolHasPlaces(place: map<array<byte>, Place>, pool: set<array<byte>>, mtu: nat)
    requires Pooling(place, pool, mtu)
    ensures pool <= place.Keys
  {
  }

  /** What waits in a channel is what was accepted and not taken. */
  lemma {:induction false} Waiting(place: map<array<byte>, Place>, queues: map<Channel, seq<Slice>>,
      taken: map<Channel, nat>, accepted: map<Channel, seq<Packet>>, c: Channel)
    requires AllInOrder(place, queues, taken, accepted) && c in queues
    ensures |queues[c]| == |accepted[c]| - taken[c] && |queues[c]| <= QUEUE_SIZE
  {
    assert InOrder(place, c, queues[c], taken[c], accepted[c]);
  }

  lemma {:induction false} NewChannel(place: map<array<byte>, Place>, queues: map<Channel, seq<Slice>>,
      taken: map<Channel, nat>, accepted: map<Channel, seq<Packet>>, c: Channel)
    requires AllInOrder(place, queues, taken, accepted)
    ensures AllInOrder(place, queues[c := []], taken[c := 0], accepted[c := []])
  {
    hide InOrder;
    assert InOrder(place, c, [], 0, []) by { NothingWaits(place, c); }
  }

  lemma {:induction false} GrowsBy(before: map<Channel, seq<Packet>>, c: Channel, packet: Packet)
    ensures Grows(before, before)
    ensures c in before ==> Grows(before, before[c := before[c] + [packet]])
    ensures c !in before ==> Grows(before, before[c := []]) && Grows(before, before[c := [packet]])
    ensures before[c := []][c := [] + [packet]] == before[c := [packet]]
  {
    assert [] + [packet] == [packet];
  }

  lemma {:induction false} SameChannels(place: map<array<byte>, Place>, queues: map<Channel, seq<Slice>>,
      taken: map<Channel, nat>, accepted: map<Channel, seq<Packet>>)
    requires AllInOrder(place, queues, taken, accepted)
    ensures queues.Keys == accepted.Keys == taken.Keys
  {
  }

  lemma {:induction false} NothingWaits(place: map<array<byte>, Place>, c: Channel)
    ensures InOrder(place, c, [], 0, [])
  {
  }

  // ----- The connection -----

  class QueuePacketConn {
    const mtu: nat
    const clients: ClientMapInner
    var queues: map<Channel, seq<Slice>>
    var pool: set<array<byte>>
    var state: State
    ghost var place: map<array<byte>, Place>
    ghost var accepted: map<Channel, seq<Packet>>
    ghost var taken: map<Channel, nat>

    ghost predicate Buffers()
      reads this, place.Keys
    {
      AllInOrder(place, queues, taken, accepted) && Pooling(place, pool, mtu)
    }

    /** There is one incoming queue, and one outgoing queue for each that the client map made. */
    ghost predicate Channels()
      reads this, clients
    {
      Incoming in queues && forall q: nat :: Outgoing(q) in queues <==> q < clients.made
    }

    ghost predicate Valid()
      reads this, place.Keys, clients, clients.byAge`lastSeen
    {
      clients.Valid() && Buffers() && Channels()
    }

    /** No caller has given up a larger buffer. */
    ghost predicate Uniform()
      reads this
    {
      forall b :: b in place ==> b.Length == mtu
    }

    constructor (mtu: nat)
      ensures Valid() && Uniform() && this.mtu == mtu && state == Open
      ensures queues == map[Incoming := []] && accepted == map[Incoming := []] && fresh(clients) &&
        clients.View() == map[]
    {
      hide ClientMapInner.Valid, ClientMapInner.View;
      this.mtu := mtu;
      clients := new ClientMapInner();
      queues, pool, state := map[Incoming := []], {}, Open;
      place, accepted, taken := map[], map[Incoming := []], map[Incoming := 0];
    }

    /** The pool gives any buffer it has, or a new one. */
    method Get() returns (buf: array<byte>)
      requires Buffers()
      modifies this`pool, this`place
      ensures Buffers() && buf !in place && buf.Length >= mtu
      ensures fresh(buf) || buf in old(pool)
      ensures pool == old(pool) - {buf} && place == old(place) - {buf}
      ensures old(Uniform()) ==> Uniform() && buf.Length == mtu
    {
      hide AllInOrder;
      if * {
        buf := new byte[mtu];
      } else if pool == {} {
        buf := new byte[mtu];
      } else {
        buf :| buf in pool;
        PlacesChange(place, place - {buf}, queues, taken, accepted);
        pool, place := pool - {buf}, place - {buf};
      }
    }

    /** A buffer goes back to the pool if it is large enough. It must have no place yet:
        whoever restores a buffer owns it and gives it up. */
    method Restore(buf: array<byte>)
      requires Buffers() && buf !in place
      modifies this`pool, this`place
      ensures Buffers()
      ensures pool == if buf.Length >= mtu then old(pool) + {buf} else old(pool)
      ensures place == if buf.Length >= mtu then old(place)[buf := Pooled] else old(place)
      ensures old(Uniform()) && buf.Length <= mtu ==> Uniform()
    {
      hide AllInOrder;
      if buf.Length >= mtu {
        PlacesChange(place, place[buf := Pooled], queues, taken, accepted);
        pool, place := pool + {buf}, place[buf := Pooled];
      }
    }

    /** A slice is put into a channel unless that is full. */
    method Offer(c: Channel, slice: Slice) returns (sent: bool)
      requires Buffers() && c in queues && slice.buf !in place && slice.len <= slice.buf.Length &&
        slice.buf.Length >= mtu
      modifies this`queues, this`place, this`accepted
      ensures Buffers() && c in accepted && c in old(accepted) && sent == (|old(queues)[c]| < QUEUE_SIZE)
      ensures sent ==> queues == old(queues)[c := old(queues)[c] + [slice]]
      ensures sent ==> accepted == old(accepted)[c := old(accepted)[c] + [Packet(slice.buf[..slice.len], slice.addr)]]
      ensures sent ==> place == old(place)[slice.buf := Queued(c, |old(accepted)[c]|)]
      ensures !sent ==> queues == old(queues) && accepted == old(accepted) && place == old(place)
    {
      hide InOrder, Pooling;
      sent := |queues[c]| < QUEUE_SIZE;
      if sent {
        JoinChannel(place, pool, mtu, queues, taken, accepted, c, slice);
        place := place[slice.buf := Queued(c, |accepted[c]|)];
        accepted := accepted[c := accepted[c] + [Packet(slice.buf[..slice.len], slice.addr)]];
        queues := queues[c := queues[c] + [slice]];
      }
    }

    /** The first packet of a channel is taken out; its buffer has no place then. */
    method Take(c: Channel) returns (slice: Slice)
      requires Buffers() && c in queues && |queues[c]| > 0
      modifies this`queues, this`place, this`taken
      ensures Buffers() && c in accepted && c in old(taken)
      ensures slice == old(queues)[c][0] && queues == old(queues)[c := old(queues)[c][1..]]
      ensures old(taken)[c] < |accepted[c]| && taken == old(taken)[c := old(taken)[c] + 1]
      ensures slice.len <= slice.buf.Length && Packet(slice.buf[..slice.len], slice.addr) == accepted[c][old(taken)[c]]
      ensures slice.buf in old(place) && slice.buf.Length >= mtu && place == old(place) - {slice.buf}
    {
      hide InOrder, Pooling;
      slice := queues[c][0];
      LeaveChannel(place, pool, mtu, queues, taken, accepted, c);
      place := place - {slice.buf};
      queues := queues[c := queues[c][1..]];
      taken := taken[c := taken[c] + 1];
    }

    /** Copies what fits. */
    method Copy(target: array<byte>, room: nat, source: array<byte>, len: nat) returns (n: nat)
      requires target != source && room <= target.Length && len <= source.Length
      modifies target
      ensures n == |Cut(source[..len], room)| && target[..n] == Cut(source[..len], room)
    {
      n := if len < room then len else room;
      forall i | 0 <= i < n {
        target[i] := source[i];
      }
      assert target[..n] == source[..n];
      assert source[..len][..n] == source[..n];
    }

    /** A buffer from the pool with as much of `p` as it holds, which is at least the MTU. */
    method Fill(p: array<byte>) returns (buf: array<byte>, len: nat)
      requires Buffers() && p !in place
      modifies this`pool, this`place, pool
      ensures Buffers() && buf !in place && buf.Length >= mtu && buf != p
      ensures fresh(buf) || buf in old(pool)
      ensures pool == old(pool) - {buf} && place == old(place) - {buf}
      ensures len <= buf.Length && buf[..len] == Cut(p[..], buf.Length) && p[..] == old(p[..])
      ensures old(Uniform()) ==> Uniform() && buf.Length == mtu
    {
      hide InOrder, Pooling, AllInOrder;
      PoolHasPlaces(place, pool, mtu);
      buf := Get();
      len := if p.Length < buf.Length then p.Length else buf.Length;
      assert p[..p.Length] == p[..];
      var _ := Copy(buf, len, p, p.Length);
    }

    /** As much of `p` as a buffer holds joins a channel, unless that is full. */
    method Enqueue(c: Channel, p: array<byte>, addr: ClientID) returns (sent: bool, n: nat, ghost size: nat)
      requires Buffers() && p !in place && c in queues
      modifies this`queues, this`pool, this`place, this`accepted, pool
      ensures Buffers() && queues.Keys == old(queues).Keys && p[..] == old(p[..])
      ensures c in accepted && c in old(accepted) && sent == (|old(queues)[c]| < QUEUE_SIZE)
      ensures size >= mtu && n == |Cut(p[..], size)| && (old(Uniform()) ==> Uniform() && size == mtu)
      ensures sent ==> accepted == old(accepted)[c := old(accepted)[c] + [Packet(Cut(p[..], size), addr)]]
      ensures !sent ==> accepted == old(accepted) && queues == old(queues)
    {
      hide InOrder, Pooling, AllInOrder, Cut;
      var buf, len := Fill(p);
      n, size := len, buf.Length;
      sent := Offer(c, Slice(buf, len, addr));
      if !sent {
        Restore(buf);
      }
    }

    /** The first waiting packet of the incoming queue is copied out as far as `p` has room,
        and its buffer restored. */
    method Dequeue(p: array<byte>) returns (n: nat, addr: ClientID)
      requires Buffers() && p !in place && Incoming in queues && |queues[Incoming]| > 0
      modifies this`queues, this`pool, this`place, this`taken, p
      ensures Buffers() && queues.Keys == old(queues).Keys && (old(Uniform()) ==> Uniform())
      ensures Incoming in accepted && Incoming in old(taken)
      ensures old(taken)[Incoming] < |accepted[Incoming]| && taken == old(taken)[Incoming := old(taken)[Incoming] + 1]
      ensures var packet := accepted[Incoming][old(taken)[Incoming]];
        n == |Cut(packet.data, p.Length)| && addr == packet.addr && p[..n] == Cut(packet.data, p.Length)
    {
      hide InOrder, Pooling, AllInOrder, Cut, Holds;
      var slice := Take(Incoming);
      n := Copy(p, p.Length, slice.buf, slice.len);
      addr := slice.addr;
      Restore(slice.buf);
    }

    /** A packet arrives: its first bytes join the incoming queue, or it is dropped if the
        connection is closed or the queue is full. */
    method QueueIncoming(p: array<byte>, addr: ClientID) returns (ghost size: nat)
      requires Valid() && p !in place
      modifies this`queues, this`pool, this`place, this`accepted, pool
      ensures Valid() && p[..] == old(p[..]) && (old(Uniform()) ==> Uniform())
      ensures size >= mtu && (old(Uniform()) ==> size == mtu)
      ensures Incoming in old(accepted)
      ensures accepted == if state == Open && |old(queues)[Incoming]| < 512
                          then old(accepted)[Incoming := old(accepted)[Incoming] + [Packet(Cut(p[..], size), addr)]]
                          else old(accepted)
    {
      hide InOrder, Pooling, ClientMapInner.Valid, Cut;
      size := mtu;
      if state != Open {
        return;
      }
      var _, _, room := Enqueue(Incoming, p, addr);
      size := room;
    }

    /** The first incoming packet that was not read yet is read, as far as `p` has room. */
    method ReadFrom(p: array<byte>) returns (r: ReadResult)
      requires Valid() && p !in place
      modifies this`queues, this`pool, this`place, this`taken, p
      ensures Valid() && (old(Uniform()) ==> Uniform()) && Incoming in accepted && Incoming in old(taken)
      ensures state.Closed? ==> r == ReadFails(state.err)
      ensures state == Open ==> (r == ReadWaits <==> old(taken)[Incoming] == |accepted[Incoming]|) && !r.ReadFails?
      ensures !r.Read? ==> taken == old(taken) && p[..] == old(p[..])
      ensures r.Read? ==> old(taken)[Incoming] < |accepted[Incoming]|
      ensures r.Read? ==> taken == old(taken)[Incoming := old(taken)[Incoming] + 1]
      ensures r.Read? ==> r.addr == accepted[Incoming][old(taken)[Incoming]].addr
      ensures r.Read? ==> r.n == |Cut(accepted[Incoming][old(taken)[Incoming]].data, p.Length)|
      ensures r.Read? ==> p[..r.n] == Cut(accepted[Incoming][old(taken)[Incoming]].data, p.Length)
    {
      hide InOrder, Pooling, ClientMapInner.Valid, Cut;
      Waiting(place, queues, taken, accepted, Incoming);
      if state.Closed? {
        return ReadFails(state.err);
      }
      if |queues[Incoming]| == 0 {
        return ReadWaits;
      }
      var n, addr := Dequeue(p);
      r := Read(n, addr);
    }

    /** A client's queue, made now if the client is not known: the client counts as seen. */
    method OutgoingQueue(addr: ClientID, now: int) returns (q: nat)
      requires Valid()
      modifies this`queues, this`accepted, this`taken, clients, clients.byAge`lastSeen
      ensures Valid() && clients.View() == Touched(old(clients.View()), addr, now, old(clients.made))
      ensures addr in clients.View() && q == clients.View()[addr].queue && q !in clients.closed &&
        clients.closed == old(clients.closed)
      ensures addr in old(clients.View()) <==> Outgoing(q) in old(queues)
      ensures addr in old(clients.View()) ==> queues == old(queues) && accepted == old(accepted) && taken == old(taken)
      ensures addr !in old(clients.View()) ==> queues == old(queues)[Outgoing(q) := []]
      ensures addr !in old(clients.View()) ==>
        accepted == old(accepted)[Outgoing(q) := []] && taken == old(taken)[Outgoing(q) := 0]
      ensures Outgoing(q) in queues
    {
      hide InOrder, AllInOrder, Pooling, ClientMapInner.Valid, ClientMapInner.View;
      clients.LiveQueues();
      q := clients.SendQueue(addr, now);
      SameChannels(place, queues, taken, accepted);
      if Outgoing(q) !in queues {
        NewChannel(place, queues, taken, accepted, Outgoing(q));
        queues, accepted, taken := queues[Outgoing(q) := []], accepted[Outgoing(q) := []], taken[Outgoing(q) := 0];
      }
    }

    /** A packet is sent: its first bytes join the queue of the client, or it is dropped if
        that is full. The count returned for a dropped packet is its whole length. */
    method WriteTo(p: array<byte>, addr: ClientID, now: int) returns (r: WriteResult, ghost q: nat, ghost size: nat)
      requires Valid() && p !in place
      modifies this`queues, this`pool, this`place, this`accepted, this`taken, pool, clients, clients.byAge`lastSeen
      ensures Valid() && p[..] == old(p[..]) && (old(Uniform()) ==> Uniform())
      ensures state.Closed? ==> r == WriteFails(state.err) && accepted == old(accepted) && queues == old(queues)
      ensures state.Closed? ==> clients.View() == old(clients.View())
      ensures state == Open ==> clients.View() == Touched(old(clients.View()), addr, now, old(clients.made))
      ensures state == Open ==> q == clients.View()[addr].queue
      ensures state == Open ==> size >= mtu && (old(Uniform()) ==> size == mtu)
      ensures state == Open ==> (addr in old(clients.View()) <==> Outgoing(q) in old(queues))
      ensures state == Open && addr in old(clients.View()) ==> taken == old(taken) && Outgoing(q) in accepted
      ensures state == Open && addr in old(clients.View()) && |old(queues)[Outgoing(q)]| < 512 ==>
        && accepted == old(accepted)[Outgoing(q) := old(accepted)[Outgoing(q)] + [Packet(Cut(p[..], size), addr)]]
        && r == Written(|Cut(p[..], size)|)
      ensures state == Open && addr in old(clients.View()) && |old(queues)[Outgoing(q)]| >= 512 ==>
        accepted == old(accepted) && r == Written(p.Length)
      ensures state == Open && addr !in old(clients.View()) ==>
        && accepted == old(accepted)[Outgoing(q) := [Packet(Cut(p[..], size), addr)]]
        && taken == old(taken)[Outgoing(q) := 0] && r == Written(|Cut(p[..], size)|)
      ensures Grows(old(accepted), accepted)
    {
      hide InOrder, Pooling, AllInOrder, ClientMapInner.Valid, ClientMapInner.View, Cut, Touched, Grows;
      if state.Closed? {
        GrowsBy(accepted, Incoming, Packet([], addr));
        return WriteFails(state.err), 0, mtu;
      }
      SameChannels(place, queues, taken, accepted);
      var queue := OutgoingQueue(addr, now);
      var sent, n, room := Enqueue(Outgoing(queue), p, addr);
      GrowsBy(old(accepted), Outgoing(queue), Packet(Cut(p[..], room), addr));
      r, q, size := Written(if sent then n else p.Length), queue, room;
    }

    /** Whoever has a client's queue takes the next packet out of it, and owns its buffer.
        The queue of an expired client can be emptied still, and ends then. */
    method Receive(q: nat) returns (r: TakeResult)
      requires Valid() && Outgoing(q) in queues
      modifies this`queues, this`place, this`taken
      ensures Valid() && (old(Uniform()) ==> Uniform()) && Outgoing(q) in accepted && Outgoing(q) in old(taken)
      ensures var c := Outgoing(q); !r.Taken? <==> old(taken)[c] == |accepted[c]|
      ensures r == TakeEnds <==> old(taken)[Outgoing(q)] == |accepted[Outgoing(q)]| && q in clients.closed
      ensures !r.Taken? ==> taken == old(taken) && queues == old(queues) && place == old(place)
      ensures r.Taken? ==> taken == old(taken)[Outgoing(q) := old(taken)[Outgoing(q)] + 1]
      ensures r.Taken? ==> old(taken)[Outgoing(q)] < |accepted[Outgoing(q)]| && r.slice.len <= r.slice.buf.Length
      ensures r.Taken? ==>
        Packet(r.slice.buf[..r.slice.len], r.slice.addr) == accepted[Outgoing(q)][old(taken)[Outgoing(q)]]
      ensures r.Taken? ==> r.slice.buf !in place && r.slice.buf.Length >= mtu
      ensures r.Taken? && old(Uniform()) ==> r.slice.buf.Length == mtu
    {
      hide InOrder, Pooling, ClientMapInner.Valid, Holds;
      Waiting(place, queues, taken, accepted, Outgoing(q));
      if |queues[Outgoing(q)]| > 0 {
        var slice := Take(Outgoing(q));
        r := Taken(slice);
      } else if q in clients.closed {
        r := TakeEnds;
      } else {
        r := TakeWaits;
      }
    }

    /** The sweep drops clients; what waits in their queues stays there. */
    method Sweep(now: int, timeout: int)
      requires Valid()
      modifies clients
      ensures Valid() && clients.View() == Expired(old(clients.View()), now, timeout)
      ensures clients.closed == old(clients.closed) + QueuesOf(old(clients.View()) - clients.View().Keys)
    {
      hide InOrder, Pooling, AllInOrder, ClientMapInner.Valid, ClientMapInner.View, Expired, QueuesOf;
      clients.RemoveExpired(now, timeout);
    }

    /** The first close stores its error; a later one reports the stored error. */
    method CloseWithError(err: string) returns (r: CloseResult)
      requires Valid()
      modifies this`state
      ensures Valid() && state == if old(state) == Open then Closed(err) else old(state)
      ensures r == if old(state) == Open then CloseOk else CloseFails(old(state).err)
    {
      hide InOrder, Pooling, AllInOrder, ClientMapInner.Valid;
      if state.Closed? {
        return CloseFails(state.err);
      }
      state := Closed(err);
      r := CloseOk;
    }

    method Close() returns (r: CloseResult)
      requires Valid()
      modifies this`state
      ensures Valid() && state == if old(state) == Open then Closed(CLOSED_PACKET_CONN) else old(state)
      ensures r == if old(state) == Open then CloseOk else CloseFails(old(state).err)
    {
      r := CloseWithError(CLOSED_PACKET_CONN);
    }
  }
}
