/** The load balancer (src/lb/LoadBalancer.cpp): its maps, counters and buffers, changed from many places. */
module LoadBalancer {
  import opened Collections
  import opened Text
  import opened Relay
  import opened Sockets
  import opened LbBooks
  import opened Routing
  import opened Dialing
  import opened LbEvents
  import opened Continuity
  import ConsistentHash

  datatype RoutingMode = RoundRobin | Hashing

  /** A connection the load balancer ended of its own accord. */
  datatype Farewell = Farewell(pair: Pair, wire: Wire, fate: Fate)

  /** A graceful close has lost nothing in either direction. */
  predicate Clean(f: Farewell) {
    f.fate == Graceful ==>
      && f.wire.clientEof && (f.wire.backendEof || f.wire.staleEof)
      && f.wire.toBackend == f.wire.fromClient && f.wire.toClient == f.wire.fromBackends
  }

  class LoadBalancer {
    const routingMode: RoutingMode
    const consistentHash: ConsistentHash.ConsistentHash

    var nextBackendIndex: nat
    var backends: seq<Backend>
    var connections: map<int, Pair>
    var backendToClient: map<int, int>
    var healthFds: set<int>

    // what the kernel knows
    var open: set<int>
    var wires: map<int, Wire>
    ghost var farewells: seq<Farewell>

    function Books(): Ledger
      reads `connections, `backendToClient, `backends, `healthFds, `open, `wires
    {
      Ledger(connections, backendToClient, backends, healthFds, open, wires)
    }

    ghost predicate Valid()
      reads this, consistentHash
    {
      && BooksOk(Books())
      && (nextBackendIndex == 0 || nextBackendIndex < |backends|)
      && (forall k :: 0 <= k < |farewells| ==> Clean(farewells[k]))
      && consistentHash.Valid()
    }

    constructor (mode: RoutingMode, pool: seq<(string, int)>)
      ensures Valid() && open == {} && connections == map[] && farewells == [] && |backends| == |pool|
      ensures fresh(consistentHash) && routingMode == mode
      ensures consistentHash.keys == seq(|pool|, i requires 0 <= i < |pool| => ConsistentHash.BackendKey(pool[i].0, pool[i].1))
    {
      routingMode := mode;
      var ring := new ConsistentHash.ConsistentHash();
      ring.Build(seq(|pool|, i requires 0 <= i < |pool| => ConsistentHash.BackendKey(pool[i].0, pool[i].1)));
      consistentHash := ring;
      nextBackendIndex := 0;
      backends := seq(|pool|, i => Backend(true, 0, 0, 0, 0));
      connections, backendToClient, healthFds, open, wires, farewells := map[], map[], {}, {}, map[], [];
      new;
      EmptyBooks(backends);
    }

    // ----- choosing a backend -----

    method HasHealthyBackend() returns (some: bool)
      ensures some <==> exists i :: 0 <= i < |backends| && backends[i].healthy
    {
      var count := 0;
      for i := 0 to |backends|
        invariant count > 0 <==> exists k :: 0 <= k < i && backends[k].healthy
        invariant count >= 0
      {
        if backends[i].healthy { count := count + 1; }
      }
      some := count > 0;
    }

    method SelectRoundRobinBackend() returns (index: nat)
      modifies `nextBackendIndex
      ensures (index, nextBackendIndex) == Pick(HealthOf(backends), old(nextBackendIndex))
    {
      var count := |backends|;
      if count == 0 { return 0; }
      ghost var h := HealthOf(backends);
      var attempt := 0;
      while attempt < count
        invariant 0 <= attempt <= count
        invariant PickFrom(h, nextBackendIndex, count - attempt) == Pick(h, old(nextBackendIndex))
      {
        index := nextBackendIndex % count;
        nextBackendIndex := (nextBackendIndex + 1) % count;
        if backends[index].healthy { return; }
        attempt := attempt + 1;
      }
      index := count;
    }

    /** The backend a new client gets: the next in turn, or the one its address is routed to. */
    method SelectBackend(clientIp: string) returns (r: Option<nat>)
      requires Valid()
      modifies `nextBackendIndex
      ensures Valid()
      ensures r.Some? ==> r.value < |backends| && backends[r.value].healthy
      ensures routingMode.RoundRobin? ==>
                var h := HealthOf(backends);
                if r.Some? then (r.value, nextBackendIndex) == Pick(h, old(nextBackendIndex)) else true !in h
      ensures routingMode.Hashing? ==>
                && nextBackendIndex == old(nextBackendIndex)
                && ConsistentHash.Routes(consistentHash.keys, HealthOf(backends), ConsistentHash.Position(clientIp), r)
    {
      hide BooksOk, Clean, ConsistentHash.RingIs, Pick, ConsistentHash.Position, ConsistentHash.Owner, ConsistentHash.Distance;
      var some := HasHealthyBackend();
      if !some {
        return None;
      }
      if routingMode.RoundRobin? {
        var index := SelectRoundRobinBackend();
        PickStays(HealthOf(backends), old(nextBackendIndex));
        r := None;
        if index < |backends| { r := Some(index); }
        return;
      }
      r := consistentHash.GetBackend(clientIp, HealthOf(backends));
    }

    // ----- connecting to a backend -----

    /** One attempt: a descriptor that the event loop does not take is closed again. */
    method Attempt(c: int, index: nat, dial: Dial, again: bool) returns (ok: bool)
      requires Waiting(Books(), c) && c in wires && index < |backends| && Fresh(open, dial)
      modifies `connections, `backendToClient, `backends, `open
      ensures Books() == TryOnce(old(Books()), c, index, dial, again) && ok == Works(dial)
    {
      hide Plus, Minus;
      if dial.Refused? {
        backends := backends[index := backends[index].(failedConnections := backends[index].failedConnections + 1)];
        return false;
      }
      open := open + {dial.fd};
      connections := connections[c := Tie(connections[c], dial.fd, index, dial.connecting)];
      backends := backends[index := Plus(backends[index])];
      if !dial.watched {
        Abandon(c, index, dial, again);
        TakenBack(old(connections), old(backends), old(open), old(wires), c, index, dial, again);
        return false;
      }
      backendToClient := backendToClient[dial.fd := c];
      if again {
        backends := backends[index := backends[index].(failovers := backends[index].failovers + 1)];
      }
      ok := true;
    }

    /** The event loop did not take the descriptor. */
    method Abandon(c: int, index: nat, dial: Dial, again: bool)
      requires c in connections && index < |backends| && dial.Dialled?
      modifies `connections, `backends, `open
      ensures connections == old(connections)[c := old(connections)[c].(backendFd := -1, backendConnecting := dial.connecting && !again)]
      ensures backends == old(backends)[index := Minus(old(backends)[index])] && open == old(open) - {dial.fd}
    {
      backends := backends[index := Minus(backends[index])];
      open := open - {dial.fd};
      connections := connections[c := connections[c].(backendFd := -1, backendConnecting := dial.connecting && !again)];
    }

    /** The index of round `attempt`: the first choice, then the next in turn or the first one not tried yet. */
    method ChooseBackend(attempt: nat, initial: nat, attempted: seq<bool>) returns (index: Option<nat>)
      requires Valid() && initial < |backends| && |attempted| == |backends|
      modifies `nextBackendIndex
      ensures Valid()
      ensures attempt == 0 ==> index == Some(initial) && nextBackendIndex == old(nextBackendIndex)
      ensures attempt > 0 && routingMode.RoundRobin? ==>
                var (picked, next) := Pick(HealthOf(backends), old(nextBackendIndex));
                nextBackendIndex == next && index == if picked < |backends| then Some(picked) else None
      ensures attempt > 0 && routingMode.Hashing? ==>
                && nextBackendIndex == old(nextBackendIndex)
                && (index.None? ==> forall i :: 0 <= i < |backends| && backends[i].healthy ==> attempted[i])
                && (index.Some? ==> index.value < |backends| && backends[index.value].healthy && !attempted[index.value])
    {
      hide BooksOk, Clean, ConsistentHash.RingIs, Pick;
      if attempt == 0 { return Some(initial); }
      index := None;
      if routingMode.RoundRobin? {
        var next := SelectRoundRobinBackend();
        PickStays(HealthOf(backends), old(nextBackendIndex));
        if next < |backends| { index := Some(next); }
        return;
      }
      var candidate := 0;
      while candidate < |backends|
        invariant 0 <= candidate <= |backends|
        invariant forall i :: 0 <= i < candidate && backends[i].healthy ==> attempted[i]
      {
        if !attempted[candidate] && backends[candidate].healthy { return Some(candidate); }
        candidate := candidate + 1;
      }
    }

    /** One round of the connection loop: a backend that was tried before is passed over. */
    method TryIndex(c: int, index: nat, attempted: seq<bool>, dials: seq<Dial>, tried: seq<nat>, ghost l0: Ledger)
      returns (ok: bool, attempted': seq<bool>, tried': seq<nat>)
      requires Valid() && DialTrack(l0, Books(), c, dials, tried, false) && Marks(attempted, tried)
      requires index < |backends| == |attempted| && backends[index].healthy
      requires |tried| < |dials| && Fresh(open, dials[|tried|])
      modifies `connections, `backendToClient, `backends, `open
      ensures Valid() && Marks(attempted', tried') && |attempted'| == |attempted|
      ensures tried' == if index in tried then tried else tried + [index]
      ensures if ok then TrackEnds(l0, Books(), c, dials, tried', false) else DialTrack(l0, Books(), c, dials, tried', false)
      ensures |backends| == |old(backends)|
    {
      hide BooksOk, Clean, ConsistentHash.RingIs, DialTrack, TrackEnds, TryOnce, Distinct;
      TrackFacts(l0, Books(), c, dials, tried, false);
      ok, attempted', tried' := false, attempted, tried;
      if !attempted[index] {
        attempted' := attempted[index := true];
        if backends[index].healthy {
          TrackStep(l0, Books(), c, dials, tried, false, index);
          ok := Attempt(c, index, dials[|tried|], false);
          tried' := tried + [index];
          if ok { EndFacts(l0, Books(), c, dials, tried', false); } else { TrackFacts(l0, Books(), c, dials, tried', false); }
        }
      }
    }

    /** The connection loop, from the first choice on. */
    method TryBackends(c: int, initial: nat, dials: seq<Dial>, ghost next0: nat) returns (ok: bool, tried: seq<nat>)
      requires Valid() && Waiting(Books(), c) && initial < |backends| && backends[initial].healthy
      requires |dials| >= |backends| && forall k :: 0 <= k < |dials| ==> Fresh(open, dials[k])
      requires routingMode.RoundRobin? ==> next0 < |backends| && (initial, nextBackendIndex) == Pick(HealthOf(backends), next0)
      modifies `connections, `backendToClient, `backends, `open, `nextBackendIndex
      ensures Valid() && tried != [] && tried[0] == initial
      ensures if ok then TrackEnds(old(Books()), Books(), c, dials, tried, false) else DialTrack(old(Books()), Books(), c, dials, tried, false)
      ensures !ok ==> forall i :: 0 <= i < |old(backends)| && HealthOf(old(backends))[i] ==> i in tried
    {
      hide BooksOk, Clean, ConsistentHash.RingIs, Pick, Picks, RobinTrack, DialTrack, TrackEnds, HealthOf, Distinct, Marks;
      hide TryAll, TryOnce, OnlyTouches, RowEnds;
      ghost var l0, h := Books(), HealthOf(backends);
      ok, tried := false, [];
      TrackNothing(l0, c, dials, false);
      var n := |backends|;
      var attempted := seq(n, i => false);
      MarksNothing(n);
      var attempt := 0;
      ghost var q := [initial];
      if routingMode.RoundRobin? { RobinFirst(h, next0); }
      while attempt < n
        invariant 0 <= attempt <= n == |attempted| == |backends| && |tried| <= attempt && Valid()
        invariant DialTrack(l0, Books(), c, dials, tried, false) && Marks(attempted, tried)
        invariant if attempt == 0 then tried == [] && q == [initial] else tried != [] && tried[0] == initial
        invariant routingMode.RoundRobin? ==> RobinTrack(h, next0, nextBackendIndex, attempt, q, tried)
        invariant routingMode.Hashing? ==> |tried| == attempt
      {
        TrackFacts(l0, Books(), c, dials, tried, false);
        ghost var next, before := nextBackendIndex, tried;
        var index := ChooseBackend(attempt, initial, attempted);
        if index.None? {
          if routingMode.RoundRobin? { PickStays(h, next); }
          break;
        }
        if routingMode.Hashing? { NotMarked(attempted, tried, index.value); }
        ok, attempted, tried := TryIndex(c, index.value, attempted, dials, tried, l0);
        if ok {
          return;
        }
        if routingMode.RoundRobin? {
          RobinRound(h, next0, next, nextBackendIndex, attempt, q, before, index.value);
          q := if attempt == 0 then q else q + [index.value];
        }
        attempt := attempt + 1;
      }
      forall i | 0 <= i < n && h[i] ensures i in tried {
        if attempt == n && routingMode.RoundRobin? {
          RobinDone(h, next0, nextBackendIndex, q, tried, i);
        } else if attempt == n {
          TriedAll(l0, Books(), c, dials, tried, i);
        } else {
          NotMarked(attempted, tried, i);
        }
      }
    }

    /** There is no backend for that address to begin with. */
    ghost predicate Unroutable(clientIp: string)
      reads this, consistentHash
    {
      if routingMode.RoundRobin? then true !in HealthOf(backends)
      else ConsistentHash.Routes(consistentHash.keys, HealthOf(backends), ConsistentHash.Position(clientIp), None)
    }

    /** Tries backends for a client until one attempt works. */
    method ConnectClientToBackend(c: int, dials: seq<Dial>) returns (ok: bool, tried: seq<nat>)
      requires Valid() && (c in connections ==> Waiting(Books(), c))
      requires |dials| >= |backends| && forall k :: 0 <= k < |dials| ==> Fresh(open, dials[k])
      modifies `connections, `backendToClient, `backends, `open, `nextBackendIndex
      ensures Valid()
      ensures RowEnds(tried, dials, ok) && Books() == TryAll(old(Books()), c, tried, dials, false) && OnlyTouches(old(Books()), Books(), c)
      ensures c in old(connections) ==> c in connections && (!ok ==> Waiting(Books(), c))
      ensures ok ==> c in connections && connections[c].backendFd != -1 && !connections[c].metricsConnection
      ensures Distinct(tried) && forall i :: i in tried ==> i < |old(backends)| && HealthOf(old(backends))[i]
      ensures !ok && tried != [] ==> forall i :: 0 <= i < |old(backends)| && HealthOf(old(backends))[i] ==> i in tried
      ensures routingMode.RoundRobin? && c in old(connections) && true in HealthOf(old(backends)) ==>
                tried != [] && tried[0] == Pick(HealthOf(old(backends)), old(nextBackendIndex)).0
      ensures routingMode.Hashing? && c in old(connections) ==>
                ConsistentHash.Routes(consistentHash.keys, HealthOf(old(backends)), ConsistentHash.Position(old(connections)[c].clientIp),
                                      if tried == [] then None else Some(tried[0]))
    {
      hide BooksOk, Clean, Pick, DialTrack, TrackEnds, TryAll, OnlyTouches, RowEnds, Distinct;
      hide ConsistentHash.RingIs, ConsistentHash.Position, ConsistentHash.Routes;
      ok, tried := false, [];
      ghost var l0, h := Books(), HealthOf(backends);
      TrackNothing(l0, c, dials, false);
      if true !in h && c in connections {
        ConsistentHash.NowhereToRoute(consistentHash.keys, h, ConsistentHash.Position(connections[c].clientIp));
      }
      var some := HasHealthyBackend();
      if !some || c !in connections {
        return;
      }
      ghost var next0 := nextBackendIndex;
      var initial := SelectBackend(connections[c].clientIp);
      if initial.None? {
        return;
      }
      ok, tried := TryBackends(c, initial.value, dials, next0);
      if ok { EndFacts(l0, Books(), c, dials, tried, false); } else { TrackFacts(l0, Books(), c, dials, tried, false); }
    }

    // ----- closing -----

    method CloseConnection(c: int)
      requires Valid()
      modifies `connections, `backendToClient, `backends, `open, `wires
      ensures Valid() && c !in connections && OnlyTouches(old(Books()), Books(), c)
      ensures c in old(connections) ==> LinkedOk(old(Books()), c) && Books() == Closed(old(Books()), c)
      ensures c !in old(connections) ==> Books() == old(Books())
    {
      hide BooksOk, Clean, ConsistentHash.RingIs, Minus, ClientLinked, RelayOk;
      if c !in connections {
        TrackNothing(Books(), c, [], false);
        return;
      }
      ClosedOk(Books(), c);
      var p := connections[c];
      if p.backendFd != -1 {
        backendToClient := backendToClient - {p.backendFd};
        if p.backendIndex < |backends| {
          backends := backends[p.backendIndex := Minus(backends[p.backendIndex])];
        }
        open := open - {p.backendFd};
      }
      open := open - {c};
      connections := connections - {c};
      wires := wires - {c};
    }

    /** Gives up a backend that was still connecting and tries every other healthy one, in cyclic order. */
    method FailoverConnection(c: int, failed: nat, dials: seq<Dial>) returns (ok: bool, tried: seq<nat>)
      requires Valid()
      requires c in connections ==> connections[c].backendFd != -1 && connections[c].backendConnecting && failed == connections[c].backendIndex
      requires |dials| >= |backends|
      requires c in connections ==> forall k :: 0 <= k < |dials| ==> Fresh(open - {connections[c].backendFd}, dials[k])
      modifies `connections, `backendToClient, `backends, `open, `wires
      ensures Valid() && OnlyTouches(old(Books()), Books(), c) && RowEnds(tried, dials, ok)
      ensures c !in old(connections) ==> !ok && tried == [] && Books() == old(Books())
      ensures c in old(connections) ==>
                && failed < |old(backends)| && c in old(wires)
                && var l := TryAll(Detached(old(Books()), c), c, tried, dials, true);
                   if ok then Books() == l else c in l.connections && LinkedOk(l, c) && Books() == Closed(l, c)
      ensures c in old(connections) ==> tried <= Others(HealthOf(old(backends)), failed)
      ensures c in old(connections) && !ok ==> tried == Others(HealthOf(old(backends)), failed)
      ensures if ok then c in connections && connections[c].backendFd != -1 && !connections[c].metricsConnection else c !in connections
    {
      hide BooksOk, Clean, ConsistentHash.RingIs, DialTrack, TrackEnds, TryAll, OnlyTouches, RowEnds, Others, Detached, Closed;
      ghost var l := Books();
      ok, tried := false, [];
      TrackNothing(l, c, dials, true);
      if c !in connections {
        return;
      }
      GiveUpBackend(c);
      ok, tried := TryOthers(c, failed, dials);
      TouchesChain(l, Detached(l, c), Books(), c);
      if !ok {
        ghost var l2 := Books();
        CloseConnection(c);
        TouchesChain(l, l2, Books(), c);
      }
    }

    /** Closes the backend of a client whose connection to it has failed. */
    method GiveUpBackend(c: int)
      requires Valid() && c in connections && connections[c].backendFd != -1 && connections[c].backendConnecting
      modifies `connections, `backendToClient, `backends, `open, `wires
      ensures c in old(wires) && old(connections)[c].backendIndex < |old(backends)|
      ensures Valid() && Books() == Detached(old(Books()), c) && OnlyTouches(old(Books()), Books(), c)
      ensures Waiting(Books(), c) && open == old(open) - {old(connections)[c].backendFd} && HealthOf(backends) == HealthOf(old(backends))
    {
      DetachedOk(Books(), c);
      BuffersFit(Books(), c);
      hide BooksOk, Clean, ConsistentHash.RingIs, OnlyTouches, Minus, ClientLinked, RelayOk, BuffersOk;
      var p := connections[c];
      backendToClient := backendToClient - {p.backendFd};
      if p.backendIndex < |backends| {
        backends := backends[p.backendIndex := GivenUp(backends[p.backendIndex])];
      }
      open := open - {p.backendFd};
      connections := connections[c := Free(p)];
      wires := wires[c := Freed(wires[c])];
    }

    /** The failover loop. */
    method TryOthers(c: int, failed: nat, dials: seq<Dial>) returns (ok: bool, tried: seq<nat>)
      requires Valid() && Waiting(Books(), c) && failed < |backends|
      requires |dials| >= |backends| && forall k :: 0 <= k < |dials| ==> Fresh(open, dials[k])
      modifies `connections, `backendToClient, `backends, `open
      ensures Valid() && RowEnds(tried, dials, ok) && Books() == TryAll(old(Books()), c, tried, dials, true)
      ensures OnlyTouches(old(Books()), Books(), c) && c in connections
      ensures tried <= Others(HealthOf(old(backends)), failed)
      ensures !ok ==> tried == Others(HealthOf(old(backends)), failed)
      ensures ok ==> connections[c].backendFd != -1 && !connections[c].metricsConnection
    {
      hide BooksOk, Clean, ConsistentHash.RingIs, DialTrack, TrackEnds, TryAll, TryOnce, OnlyTouches, RowEnds, Others, Visited, HealthOf, Distinct;
      ghost var l0, h := Books(), HealthOf(backends);
      ok, tried := false, [];
      TrackNothing(l0, c, dials, true);
      var n := |backends|;
      VisitedAll(h, failed);
      var attempt := 0;
      while attempt < n
        invariant 0 <= attempt <= n == |backends| && |tried| <= attempt && Valid()
        invariant DialTrack(l0, Books(), c, dials, tried, true)
        invariant tried == Visited(h, failed, if attempt < n then attempt else n - 1)
      {
        TrackFacts(l0, Books(), c, dials, tried, true);
        FailoverIndexIs(failed, attempt, n);
        var index := FailoverIndex(failed, attempt, n);
        if index != failed {
          VisitNext(h, failed, attempt);
          VisitIsNew(h, failed, attempt);
          if backends[index].healthy {
            TrackStep(l0, Books(), c, dials, tried, true, index);
            ok := Attempt(c, index, dials[|tried|], true);
            tried := tried + [index];
            VisitedFirst(h, failed, attempt + 1);
            if ok {
              EndFacts(l0, Books(), c, dials, tried, true);
              return;
            }
            TrackFacts(l0, Books(), c, dials, tried, true);
          }
        }
        attempt := attempt + 1;
      }
      TrackFacts(l0, Books(), c, dials, tried, true);
    }

    // ----- moving bytes -----

    /** The client a descriptor belongs to. */
    function ClientOf(fd: int): int
      reads this
    {
      if fd in backendToClient then backendToClient[fd] else fd
    }

    function IpOf(fd: int): string
      reads this
    {
      if ClientOf(fd) in connections then connections[ClientOf(fd)].clientIp else ""
    }

    /** Reads from one side of a connection into the buffer for the other; false when the connection had to be closed. */
    method ForwardData(sourceFd: int, answers: seq<Receipt>, drain: bool) returns (go: bool, rest: seq<Receipt>)
      requires Valid() && MayRead(Books(), ClientOf(sourceFd), sourceFd in backendToClient, answers)
      modifies `connections, `backendToClient, `backends, `open, `wires
      ensures Valid() && OnlyTouches(old(Books()), Books(), old(ClientOf(sourceFd)))
      ensures LinkedOk(old(Books()), old(ClientOf(sourceFd)))
      ensures (Books(), go, rest) == ReadStep(old(Books()), old(ClientOf(sourceFd)), old(sourceFd in backendToClient), answers, drain)
      ensures go ==> MayRead(Books(), old(ClientOf(sourceFd)), old(sourceFd in backendToClient), rest)
      ensures go ==> Undisturbed(old(Books()), Books(), old(ClientOf(sourceFd)))
      ensures Carries(old(Books()), Books(), old(ClientOf(sourceFd)))
    {
      hide BooksOk, Clean, ConsistentHash.RingIs, OnlyTouches, Pump, Closed, Plausible, ClientLinked, RelayOk, Carries;
      ghost var l := Books();
      var fromBackend := sourceFd in backendToClient;
      var c := ClientOf(sourceFd);
      var p := connections[c];
      PumpIsPlausible(PendingOf(p, fromBackend), answers, drain, if fromBackend then wires[c].backendEof else wires[c].clientEof);
      ReadFits(l, c, fromBackend, answers, drain);
      ClosedOk(l, c);
      ReadCarries(l, c, fromBackend, answers, drain);
      var buffer, offset, end, used;
      if fromBackend {
        buffer, offset, end, used := Receive(p.toClient, p.toClientOffset, answers, drain);
      } else {
        buffer, offset, end, used := Receive(p.toBackend, p.toBackendOffset, answers, drain);
      }
      rest := answers[used..];
      go := end == Open || end == SawEof;
      if !go {
        CloseConnection(c);
        return;
      }
      var data, eof := Pump(PendingOf(p, fromBackend), answers, drain).data, end == SawEof;
      if fromBackend {
        connections := connections[c := p.(toClient := buffer, toClientOffset := offset, backendReadClosed := p.backendReadClosed || eof)];
        wires := wires[c := WireFromBackend(wires[c], data, eof)];
      } else {
        connections := connections[c := p.(toBackend := buffer, toBackendOffset := offset, clientReadClosed := p.clientReadClosed || eof)];
        wires := wires[c := WireFromClient(wires[c], data, eof)];
      }
    }

    /** Sends what waits for one side of a connection; the connection is closed when the socket fails. */
    method FlushData(destinationFd: int, answers: seq<Sending>)
      requires Valid() && MaySend(Books(), ClientOf(destinationFd), destinationFd in backendToClient)
      modifies `connections, `backendToClient, `backends, `open, `wires
      ensures Valid() && OnlyTouches(old(Books()), Books(), old(ClientOf(destinationFd)))
      ensures LinkedOk(old(Books()), old(ClientOf(destinationFd)))
      ensures Books() == FlushStep(old(Books()), old(ClientOf(destinationFd)), old(destinationFd in backendToClient), answers)
      ensures Carries(old(Books()), Books(), old(ClientOf(destinationFd)))
    {
      hide BooksOk, Clean, ConsistentHash.RingIs, OnlyTouches, Push, Closed, ClientLinked, RelayOk, Carries;
      var toBackend := destinationFd in backendToClient;
      var c := ClientOf(destinationFd);
      var p := connections[c];
      ClosedOk(Books(), c);
      FlushCarries(Books(), c, toBackend, answers);
      var count, failed := Transmit(PendingOf(p, !toBackend), answers);
      if failed {
        CloseConnection(c);
        return;
      }
      TransmittedOk(Books(), c, toBackend, count);
      if toBackend {
        wires := wires[c := wires[c].(toBackend := wires[c].toBackend + p.toBackend[p.toBackendOffset..p.toBackendOffset + count])];
        connections := connections[c := p.(toBackendOffset := p.toBackendOffset + count)];
      } else {
        wires := wires[c := wires[c].(toClient := wires[c].toClient + p.toClient[p.toClientOffset..p.toClientOffset + count])];
        connections := connections[c := p.(toClientOffset := p.toClientOffset + count)];
      }
    }

    // ----- events -----

    /** Changes a client's record without its books. */
    method Amend(c: int, p: Pair)
      requires Valid() && c in connections && c in wires && SameBooks(connections[c], p) && RelayOk(p, wires[c])
      modifies `connections
      ensures Valid() && OnlyTouches(old(Books()), Books(), c) && Books() == Touched(old(Books()), c, p, old(wires)[c])
    {
      hide Clean, ConsistentHash.RingIs, OnlyTouches, BooksOk, RelayOk, SameBooks;
      TouchedOk(Books(), c, p, wires[c]);
      assert wires == wires[c := wires[c]];
      connections := connections[c := p];
    }

    /** An error on a descriptor: another backend is tried if the present one was still connecting. */
    method SocketFailed(c: int, isBackend: bool, dials: seq<Dial>) returns (tried: seq<nat>)
      requires Valid() && c in connections && (isBackend ==> connections[c].backendFd != -1)
      requires |dials| >= |backends| && forall k :: 0 <= k < |dials| ==> Fresh(open - {connections[c].backendFd}, dials[k])
      modifies `connections, `backendToClient, `backends, `open, `wires
      ensures Valid() && OnlyTouches(old(Books()), Books(), c) && Swaps(old(Books()), Books(), c)
      ensures LinkedOk(old(Books()), c) && c in old(wires) && Books() == SocketStep(old(Books()), c, isBackend, dials, tried)
      ensures RowEnds(tried, dials, RowWorks(tried, dials))
      ensures if isBackend && old(connections)[c].backendConnecting then OthersTried(old(Books()), Books(), c, dials, tried) else tried == []
    {
      LinkedKnown(Books(), c);
      ClosedCarries(Books(), c);
      hide BooksOk, Clean, ConsistentHash.RingIs, OnlyTouches, RelayOk, TryAll, Others, RowEnds, Detached, Closed, Swaps;
      ghost var l := Books();
      tried := [];
      if isBackend && connections[c].backendConnecting {
        var ok;
        ok, tried := FailoverConnection(c, connections[c].backendIndex, dials);
        RowIs(tried, dials, ok);
        FailoverSwaps(l, c, dials, tried);
      } else {
        CloseConnection(c);
        NoRow(dials);
      }
    }

    /** The metrics page is served once, to a request that asks for it. */
    method AnswerMetrics(c: int, request: Receipt, page: string)
      requires Valid() && c in connections && connections[c].metricsConnection
      modifies `connections, `backendToClient, `backends, `open, `wires
      ensures Valid() && OnlyTouches(old(Books()), Books(), c) && Carries(old(Books()), Books(), c)
      ensures LinkedOk(old(Books()), c) && c in old(wires) && Books() == MetricsStep(old(Books()), c, request, page)
    {
      WiredClient(Books(), c);
      LinkedKnown(Books(), c);
      MetricsCarries(Books(), c, request, page);
      hide BooksOk, Clean, ConsistentHash.RingIs, OnlyTouches, RelayOk, ClientLinked, Carries;
      if request.Data? && METRICS_PREFIX <= request.bytes {
        PageKeeps(connections[c], wires[c], page);
        Amend(c, PageServed(connections[c], page));
      } else {
        CloseConnection(c);
      }
    }

    /** Input from a client: the first bytes decide between waiting, the metrics page and a backend. */
    method ClientReadable(c: int, s: Answers) returns (go: bool, rest: seq<Receipt>, tried: seq<nat>)
      requires Valid() && c in connections && Possible(Books(), c, s)
      modifies `connections, `backendToClient, `backends, `open, `wires, `nextBackendIndex
      ensures Valid() && OnlyTouches(old(Books()), Books(), c) && Carries(old(Books()), Books(), c)
      ensures go ==> c !in backendToClient && MayRead(Books(), c, false, rest)
      ensures LinkedOk(old(Books()), c) && c in old(wires)
      ensures (Books(), go, rest) == ClientStep(old(Books()), c, s, tried) && RowEnds(tried, s.dials, RowWorks(tried, s.dials))
      ensures SoughtFirst(old(Books()), Books(), c, true, s, tried, go, old(Unroutable(connections[c].clientIp)))
    {
      LinkedKnown(Books(), c);
      BuffersFit(Books(), c);
      WiredClient(Books(), c);
      hide BooksOk, Clean, ConsistentHash.RingIs, OnlyTouches, RelayOk, ClientLinked, BuffersOk, Plausible, Carries, RowEnds;
      hide MetricsStep, ReadStep, FirstBackend, LookAt, Closed;
      go, rest, tried := false, s.fromClient, [];
      ghost var l := Books();
      TrackNothing(l, c, [], false);
      CarriesNothing(l, c);
      NoRow(s.dials);
      if connections[c].metricsConnection {
        AnswerMetrics(c, s.request, s.page);
        return;
      }
      if connections[c].backendFd == -1 {
        var look := LookFirst(s.peek);
        if look == LooksBroken {
          ClosedCarries(l, c);
          CloseConnection(c);
        } else if look == AsksForMetrics {
          TurnToMetrics(c, s.request, s.page);
        } else if look == AsksForBackend {
          go, rest, tried := ReadFromNewBackend(c, s);
        }
        return;
      }
      Pending(connections[c]);
      go, rest := ForwardData(c, s.fromClient, false);
    }

    /** The first bytes ask for the metrics page: the connection never gets a backend. */
    method TurnToMetrics(c: int, request: Receipt, page: string)
      requires Valid() && c in connections && connections[c].backendFd == -1 && !connections[c].metricsConnection
      modifies `connections, `backendToClient, `backends, `open, `wires
      ensures Valid() && OnlyTouches(old(Books()), Books(), c) && Carries(old(Books()), Books(), c)
      ensures LinkedOk(old(Books()), c) && c in old(wires)
      ensures Books() == MetricsStep(Touched(old(Books()), c, old(connections)[c].(metricsConnection := true), old(wires)[c]), c, request, page)
    {
      LinkedKnown(Books(), c);
      WiredClient(Books(), c);
      AskingCarries(Books(), c);
      MetricsKeeps(connections[c], wires[c]);
      hide BooksOk, Clean, ConsistentHash.RingIs, OnlyTouches, RelayOk, ClientLinked, Carries, MetricsStep;
      ghost var l := Books();
      Amend(c, connections[c].(metricsConnection := true));
      ghost var l1 := Books();
      AnswerMetrics(c, request, page);
      TouchesChain(l, l1, Books(), c);
      CarriesChain(l, l1, Books(), c);
    }

    /** The client gets a backend and is read from, or is closed when there is none. */
    method ReadFromNewBackend(c: int, s: Answers) returns (go: bool, rest: seq<Receipt>, tried: seq<nat>)
      requires Valid() && c in connections && Possible(Books(), c, s) && Waiting(Books(), c)
      modifies `connections, `backendToClient, `backends, `open, `wires, `nextBackendIndex
      ensures Valid() && OnlyTouches(old(Books()), Books(), c) && Carries(old(Books()), Books(), c)
      ensures go ==> c !in backendToClient && MayRead(Books(), c, false, rest)
      ensures (Books(), go, rest) == FirstBackend(old(Books()), c, s, tried) && RowEnds(tried, s.dials, RowWorks(tried, s.dials))
      ensures FirstTried(old(Books()), Books(), c, s.dials, tried, old(Unroutable(connections[c].clientIp)))
    {
      ghost var l := Books();
      WiredClient(l, c);
      hide BooksOk, Clean, ConsistentHash.RingIs, OnlyTouches, RelayOk, ClientLinked, BuffersOk, Plausible, Carries, RowEnds;
      hide TryAll, ReadStep, Closed, ConsistentHash.Routes, Pick;
      var ok;
      ok, tried := ConnectClientToBackend(c, s.dials);
      RowIs(tried, s.dials, ok);
      RowFits(tried, s.dials, ok);
      FirstTryCarries(l, c, tried, s.dials);
      ghost var l1 := Books();
      LinkedKnown(l1, c);
      if !ok {
        ClosedCarries(l1, c);
        CloseConnection(c);
        TouchesChain(l, l1, Books(), c);
        CarriesChain(l, l1, Books(), c);
        return false, s.fromClient, tried;
      }
      BuffersFit(l1, c);
      WiredClient(l1, c);
      Pending(connections[c]);
      go, rest := ForwardData(c, s.fromClient, false);
      TouchesChain(l, l1, Books(), c);
      CarriesChain(l, l1, Books(), c);
    }

    /** Both send directions of a connection, as far as something waits. */
    method FlushBoth(c: int, s: Answers)
      requires Valid() && c in connections
      modifies `connections, `backendToClient, `backends, `open, `wires
      ensures Valid() && OnlyTouches(old(Books()), Books(), c)
      ensures Books() == FlushAll(old(Books()), c, s.toBackend, s.toClient) && Carries(old(Books()), Books(), c)
    {
      hide BooksOk, Clean, ConsistentHash.RingIs, OnlyTouches, RelayOk, ClientLinked, BuffersOk, Closed;
      hide Transmitted, Push, FlushStep, LinkedOk, Carries;
      ghost var l := Books();
      TrackNothing(l, c, [], false);
      CarriesNothing(l, c);
      LinkedKnown(l, c);
      BuffersFit(l, c);
      Pending(connections[c]);
      WiredClient(l, c);
      BackendLeadsBack(l, c);
      var p := connections[c];
      if p.backendFd != -1 && !p.backendConnecting && p.toBackendOffset < |p.toBackend| {
        FlushData(p.backendFd, s.toBackend);
      }
      if c !in connections {
        return;
      }
      ghost var l1 := Books();
      LinkedKnown(l1, c);
      BuffersFit(l1, c);
      WiredClient(l1, c);
      var p1 := connections[c];
      Pending(p1);
      if p1.toClientOffset < |p1.toClient| {
        FlushData(c, s.toClient);
        TouchesChain(l, l1, Books(), c);
        CarriesChain(l, l1, Books(), c);
      }
    }

    /** The end of a round: sent buffers are emptied, drained directions are shut down, finished connections closed. */
    method Settle(c: int)
      requires Valid() && c in connections
      modifies this
      ensures Valid() && OnlyTouches(old(Books()), Books(), c) && c in old(wires) && LinkedOk(old(Books()), c)
      ensures nextBackendIndex == old(nextBackendIndex) && healthFds == old(healthFds)
      ensures Books() == SettleStep(old(Books()), c) && Carries(old(Books()), Books(), c)
      ensures var (p, w) := (old(connections)[c], old(wires)[c]);
              farewells == old(farewells) + if FateOf(Cleared(p)) == Keep then [] else [Farewell(Settled(p), w, FateOf(Cleared(p)))]
    {
      WiredClient(Books(), c);
      FarewellIsClean(connections[c], wires[c]);
      SettleKeeps(connections[c], wires[c]);
      LinkedKnown(Books(), c);
      SettleCarries(Books(), c);
      hide Carries, BooksOk, Clean, ConsistentHash.RingIs, OnlyTouches, RelayOk, ClientLinked, Closed, Cleared, Settled, FateOf;
      var p, fate := SettlePair(connections[c]);
      End(c, p, fate);
    }

    /** The settled record is kept, or the connection closed. */
    method End(c: int, p: Pair, fate: Fate)
      requires Valid() && c in connections && c in wires && SameBooks(connections[c], p) && RelayOk(p, wires[c])
      requires Clean(Farewell(p, wires[c], fate))
      modifies this
      ensures Valid() && OnlyTouches(old(Books()), Books(), c) && LinkedOk(old(Books()), c)
      ensures nextBackendIndex == old(nextBackendIndex) && healthFds == old(healthFds)
      ensures fate == Keep ==> Books() == Touched(old(Books()), c, p, old(wires)[c]) && farewells == old(farewells)
      ensures fate != Keep ==> Books() == Closed(old(Books()), c) && farewells == old(farewells) + [Farewell(p, old(wires)[c], fate)]
    {
      LinkedKnown(Books(), c);
      hide BooksOk, Clean, ConsistentHash.RingIs, OnlyTouches, RelayOk, ClientLinked, Closed, SameBooks, Touched;
      if fate == Keep { Amend(c, p); } else { Dismiss(c, Farewell(p, wires[c], fate)); }
    }

    /** The connection is closed, and how it ended is kept. */
    method Dismiss(c: int, farewell: Farewell)
      requires Valid() && c in connections && Clean(farewell)
      modifies this
      ensures Valid() && OnlyTouches(old(Books()), Books(), c) && LinkedOk(old(Books()), c)
      ensures nextBackendIndex == old(nextBackendIndex) && healthFds == old(healthFds)
      ensures Books() == Closed(old(Books()), c) && farewells == old(farewells) + [farewell]
    {
      hide BooksOk, Clean, ConsistentHash.RingIs, OnlyTouches, RelayOk, Closed;
      CloseConnection(c);
      farewells := farewells + [farewell];
    }

    /** The reads a backend's event leads to: of what is there, and of everything once the peer has ended. */
    method ReadBackend(fd: int, e: Event, answers: seq<Receipt>) returns (go: bool)
      requires Valid() && fd in backendToClient && MayRead(Books(), backendToClient[fd], true, answers)
      modifies `connections, `backendToClient, `backends, `open, `wires
      ensures Valid() && OnlyTouches(old(Books()), Books(), old(backendToClient)[fd])
      ensures go ==> Undisturbed(old(Books()), Books(), old(backendToClient)[fd])
      ensures LinkedOk(old(Books()), old(backendToClient)[fd])
      ensures (Books(), go) == ReadBoth(old(Books()), old(backendToClient)[fd], true, e.readable, e.readHungUp || e.hungUp, answers)
      ensures Carries(old(Books()), Books(), old(backendToClient)[fd])
    {
      hide BooksOk, Clean, ConsistentHash.RingIs, OnlyTouches, RelayOk, ClientLinked, Closed, Plausible;
      hide Received, Pump, MayRead, ReadStep, LinkedOk, Carries;
      var c := backendToClient[fd];
      ghost var l := Books();
      TrackNothing(l, c, [], false);
      CarriesNothing(l, c);
      MayReadKnown(l, c, true, answers);
      LinkedKnown(l, c);
      go := true;
      var rest := answers;
      if e.readable {
        go, rest := ForwardData(fd, answers, false);
        if !go {
          return;
        }
      }
      if e.readHungUp || e.hungUp {
        ghost var l1 := Books();
        LinkedKnown(l1, c);
        go, rest := ForwardData(fd, rest, true);
        TouchesChain(l, l1, Books(), c);
        CarriesChain(l, l1, Books(), c);
      }
    }

    /** The reads a client's event leads to. */
    method ReadClient(c: int, e: Event, s: Answers) returns (go: bool, tried: seq<nat>)
      requires Valid() && c in connections && Possible(Books(), c, s)
      modifies `connections, `backendToClient, `backends, `open, `wires, `nextBackendIndex
      ensures Valid() && OnlyTouches(old(Books()), Books(), c) && Carries(old(Books()), Books(), c) && (go ==> c in connections)
      ensures LinkedOk(old(Books()), c) && c in old(wires) && (Books(), go) == ClientInput(old(Books()), c, e, s, tried)
      ensures RowEnds(tried, s.dials, RowWorks(tried, s.dials))
      ensures SoughtFirst(old(Books()), Books(), c, e.readable, s, tried, go, old(Unroutable(connections[c].clientIp)))
    {
      BuffersFit(Books(), c);
      WiredClient(Books(), c);
      LinkedKnown(Books(), c);
      hide BooksOk, Clean, ConsistentHash.RingIs, OnlyTouches, RelayOk, ClientLinked, Closed, Plausible, Received, Pump;
      hide BuffersOk, ReadStep, LinkedOk, Carries, ClientStep, RowEnds, SoughtFirst, Unroutable;
      ghost var l, unroutable := Books(), Unroutable(connections[c].clientIp);
      SoughtNothing(l, c, s, unroutable);
      TrackNothing(l, c, [], false);
      CarriesNothing(l, c);
      NoRow(s.dials);
      go, tried := true, [];
      var rest := s.fromClient;
      Pending(connections[c]);
      if e.readable {
        go, rest, tried := ClientReadable(c, s);
      }
      if go && (e.readHungUp || e.hungUp) && !connections[c].metricsConnection {
        ghost var l1 := Books();
        go, rest := DrainClient(c, rest);
        SoughtStays(l, l1, Books(), c, e.readable, s, tried, go, unroutable);
        TouchesChain(l, l1, Books(), c);
        CarriesChain(l, l1, Books(), c);
      }
      assert (Books(), go) == ClientInput(l, c, e, s, tried);
    }

    /** After a hang-up everything the client has still sent is read. */
    method DrainClient(c: int, answers: seq<Receipt>) returns (go: bool, rest: seq<Receipt>)
      requires Valid() && c !in backendToClient && MayRead(Books(), c, false, answers)
      modifies `connections, `backendToClient, `backends, `open, `wires
      ensures Valid() && OnlyTouches(old(Books()), Books(), c) && Carries(old(Books()), Books(), c) && (go ==> c in connections)
      ensures LinkedOk(old(Books()), c) && (Books(), go, rest) == ReadStep(old(Books()), c, false, answers, true)
    {
      LinkedKnown(Books(), c);
      hide BooksOk, Clean, ConsistentHash.RingIs, OnlyTouches, RelayOk, ClientLinked, Closed, Plausible, Received, Pump;
      hide BuffersOk, ReadStep, LinkedOk, Carries;
      go, rest := ForwardData(c, answers, true);
    }

    /** The outcome of a connection attempt that was under way. */
    method FinishConnecting(c: int, s: Answers) returns (go: bool, tried: seq<nat>)
      requires Valid() && c in connections && connections[c].backendFd != -1 && connections[c].backendConnecting && c in wires
      requires |s.dials| >= |backends| && forall k :: 0 <= k < |s.dials| ==> Fresh(open - {connections[c].backendFd}, s.dials[k])
      modifies `connections, `backendToClient, `backends, `open, `wires
      ensures Valid() && OnlyTouches(old(Books()), Books(), c) && LinkedOk(old(Books()), c)
      ensures go == s.socketOk && RowEnds(tried, s.dials, RowWorks(tried, s.dials))
      ensures go ==> c in connections && Books() == Standing(old(Books()), c) && Carries(old(Books()), Books(), c)
      ensures !go ==> Books() == FailedOver(old(Books()), c, s.dials, tried) && Swaps(old(Books()), Books(), c)
      ensures if go then tried == [] else OthersTried(old(Books()), Books(), c, s.dials, tried)
    {
      WiredClient(Books(), c);
      LinkedKnown(Books(), c);
      StandingCarries(Books(), c);
      hide BooksOk, Clean, ConsistentHash.RingIs, OnlyTouches, RelayOk, ClientLinked, TryAll, Others, RowEnds, Detached, Closed, Carries, Swaps;
      go, tried := s.socketOk, [];
      NoRow(s.dials);
      if !go {
        ghost var l := Books();
        var ok;
        ok, tried := FailoverConnection(c, connections[c].backendIndex, s.dials);
        RowIs(tried, s.dials, ok);
        RowFits(tried, s.dials, ok);
        FailoverSwaps(l, c, s.dials, tried);
        return;
      }
      ConnectedKeeps(connections[c], wires[c]);
      assert wires == wires[c := wires[c]];
      Amend(c, connections[c].(backendConnecting := false));
    }

    /** One event on a descriptor of a client or a backend. */
    method HandleEvent(fd: int, e: Event, s: Answers) returns (tried: seq<nat>)
      requires Valid() && (ClientOf(fd) in connections ==> Possible(Books(), ClientOf(fd), s))
      modifies this
      ensures Valid() && OnlyTouches(old(Books()), Books(), old(ClientOf(fd))) && healthFds == old(healthFds)
      ensures old(ClientOf(fd)) !in old(connections) ==> Books() == old(Books())
      ensures var (l, c, isBackend) := (old(Books()), old(ClientOf(fd)), old(fd in backendToClient));
              c in l.connections ==>
                && LinkedOk(l, c) && c in l.wires && (isBackend ==> MayRead(l, c, true, s.fromBackend))
                && Books() == Served(l, c, isBackend, e, s, tried)
                && Thorough(l, Books(), c, isBackend, e, s, tried, old(Unroutable(IpOf(fd))))
      ensures RowEnds(tried, s.dials, RowWorks(tried, s.dials))
      ensures Continues(old(Books()), Books(), old(ClientOf(fd)))
    {
      var isBackend := fd in backendToClient;
      var c := ClientOf(fd);
      ghost var l := Books();
      if isBackend { BackendKnown(l, fd, s); }
      hide BooksOk, Clean, ConsistentHash.RingIs, OnlyTouches, RelayOk, ClientLinked, Closed, Plausible, MayRead;
      hide LinkedOk, Carries, Swaps, Continues, SocketStep, BackendInput, ClientInput, FinishRound, RowEnds;
      hide OthersTried, FirstTried, Unroutable, ConnectFails;
      tried := [];
      TrackNothing(l, c, [], false);
      CarriesNothing(l, c);
      NoRow(s.dials);
      if c !in connections {
        return;
      }
      LinkedKnown(l, c);
      if e.failed || (e.hungUp && !e.readable) {
        tried := SocketFailed(c, isBackend, s.dials);
        CarriedThenSwapped(l, l, Books(), c);
        return;
      }
      var go;
      if isBackend {
        go, tried := HandleBackend(fd, e, s);
      } else {
        go, tried := ReadClient(c, e, s);
        CarriedContinues(l, Books(), c);
      }
      if !go {
        return;
      }
      ghost var l1 := Books();
      FinishEvent(c, s);
      if !isBackend {
        SoughtStays(l, l1, Books(), c, e.readable, s, tried, go, old(Unroutable(IpOf(fd))));
      }
      TouchesChain(l, l1, Books(), c);
      CarriesChain(l, l1, Books(), c);
      CarriedContinues(l, Books(), c);
    }

    /** Input from a backend, and the outcome of a connection attempt that was under way. */
    method HandleBackend(fd: int, e: Event, s: Answers) returns (go: bool, tried: seq<nat>)
      requires Valid() && fd in backendToClient && backendToClient[fd] in connections && connections[backendToClient[fd]].backendFd != -1
      requires MayRead(Books(), backendToClient[fd], true, s.fromBackend) && Possible(Books(), backendToClient[fd], s)
      modifies `connections, `backendToClient, `backends, `open, `wires
      ensures var c := old(backendToClient)[fd];
              && Valid() && OnlyTouches(old(Books()), Books(), c) && Continues(old(Books()), Books(), c)
              && LinkedOk(old(Books()), c) && (Books(), go) == BackendInput(old(Books()), c, e, s, tried)
              && (go ==> c in connections && Carries(old(Books()), Books(), c))
              && if old(connections)[c].backendConnecting && ConnectFails(old(Books()), c, e, s)
                 then !go && OthersTried(old(Books()), Books(), c, s.dials, tried) else tried == []
      ensures RowEnds(tried, s.dials, RowWorks(tried, s.dials))
    {
      var c := backendToClient[fd];
      ghost var l := Books();
      LinkedKnown(l, c);
      hide BooksOk, Clean, ConsistentHash.RingIs, OnlyTouches, RelayOk, ClientLinked, Closed, Plausible, MayRead;
      hide Carries, Swaps, Continues, ReadBoth, FailedOver, Standing, RowEnds, OthersTried;
      tried := [];
      NoRow(s.dials);
      go := ReadBackend(fd, e, s.fromBackend);
      ghost var l1 := Books();
      CarriedContinues(l, l1, c);
      if go {
        LinkedKnown(l1, c);
        if connections[c].backendConnecting && e.writable {
          go, tried := FinishConnecting(c, s);
          TouchesChain(l, l1, Books(), c);
          if go {
            CarriesChain(l, l1, Books(), c);
            CarriedContinues(l, Books(), c);
          } else {
            SameOthers(l, l1, Books(), c, s.dials, tried);
            CarriedThenSwapped(l, l1, Books(), c);
          }
        }
      }
    }

    /** The output of an event, and whatever is due afterwards. */
    method FinishEvent(c: int, s: Answers)
      requires Valid() && c in connections
      modifies this
      ensures Valid() && OnlyTouches(old(Books()), Books(), c) && healthFds == old(healthFds)
      ensures Books() == FinishRound(old(Books()), c, s.toBackend, s.toClient) && Carries(old(Books()), Books(), c)
    {
      hide BooksOk, Clean, ConsistentHash.RingIs, OnlyTouches, RelayOk, ClientLinked, FlushAll, SettleStep, Carries;
      ghost var l := Books();
      FlushBoth(c, s);
      if c in connections {
        ghost var l1 := Books();
        LinkedKnown(l1, c);
        Settle(c);
        TouchesChain(l, l1, Books(), c);
        CarriesChain(l, l1, Books(), c);
      }
    }

    /** Takes in every waiting client while there is room. */
    method HandleAccept(incoming: seq<Incoming>)
      requires Valid() && Arrivals(open, MAX_CONNECTIONS - |connections|, incoming)
      modifies `connections, `open, `wires
      ensures Valid()
      ensures Older(old(Books()), Books()) && Books() == TakenIn(old(Books()), incoming)
    {
      hide BooksOk, Clean, ConsistentHash.RingIs, RelayOk, Arrivals, TakenIn, Older, Accepted, NewPair;
      RoomLeft(Books());
      OlderSelf(Books());
      TakenInEnds(Books(), incoming);
      var k := 0;
      assert incoming[0..] == incoming;
      while k < |incoming|
        invariant 0 <= k <= |incoming| && Valid() && |connections| <= MAX_CONNECTIONS
        invariant Arrivals(open, MAX_CONNECTIONS - |connections|, incoming[k..])
        invariant Older(old(Books()), Books())
        invariant TakenIn(Books(), incoming[k..]) == TakenIn(old(Books()), incoming)
      {
        var next := incoming[k];
        NextArrival(open, MAX_CONNECTIONS - |connections|, incoming, k);
        NextTakenIn(Books(), incoming, k);
        k := k + 1;
        if next.AcceptEnds? {
          return;
        }
        if next.AcceptInterrupted? {
          continue;
        }
        ghost var l := Books();
        AcceptedRoom(l, next.fd, next.ip);
        OlderSelf(l);
        AcceptedOlder(l, next.fd, next.ip);
        TakeIn(next);
        OlderChain(old(Books()), l, Books());
        RoomLeft(Books());
      }
      TakenInEnds(Books(), incoming[k..]);
    }

    /** One client: refused when there is no room, dropped when the event loop does not take it. */
    method TakeIn(next: Incoming)
      requires Valid() && next.Client? && next.fd >= 0 && next.fd !in open
      modifies `connections, `open, `wires
      ensures Valid()
      ensures Books() == if |old(connections)| < MAX_CONNECTIONS && next.watched then Accepted(old(Books()), next.fd, next.ip) else old(Books())
    {
      AbsentClient(Books(), next.fd);
      PutAndTaken(open, connections, next.fd, NewPair(next.fd, next.ip));
      hide BooksOk, Clean, ConsistentHash.RingIs, RelayOk, NewPair;
      open := open + {next.fd};
      if |connections| >= MAX_CONNECTIONS {
        open := open - {next.fd};
        assert Books() == old(Books());
        return;
      }
      connections := connections[next.fd := NewPair(next.fd, next.ip)];
      if next.watched {
        Enter(old(Books()), next.fd, next.ip);
      } else {
        connections := connections - {next.fd};
        open := open - {next.fd};
        assert Books() == old(Books());
      }
    }

    /** The descriptor is watched: the client is on the books. */
    method Enter(ghost l: Ledger, fd: int, ip: string)
      requires BooksOk(l) && |l.connections| < MAX_CONNECTIONS && fd >= 0 && fd !in l.open
      requires Books() == l.(connections := l.connections[fd := NewPair(fd, ip)], open := l.open + {fd})
      modifies `wires
      ensures BooksOk(Books()) && Books() == Accepted(l, fd, ip)
    {
      AcceptedOk(l, fd, ip);
      hide BooksOk, OnlyTouches, NewPair;
      wires := wires[fd := NEW_WIRE];
      assert Books() == Accepted(l, fd, ip);
    }

    // ----- the whole run -----

    /** Closes everything at the end; no descriptor but those of health checks stays open. */
    method CloseAllConnections()
      requires Valid()
      modifies `connections, `backendToClient, `backends, `open, `wires
      ensures Valid() && connections == map[] && backendToClient == map[] && open == healthFds
      ensures |backends| == |old(backends)| && forall i :: 0 <= i < |backends| ==> backends[i].connectionCount == 0
    {
      hide BooksOk, Clean, ConsistentHash.RingIs, OnlyTouches, RelayOk, ClientLinked, Minus;
      ghost var left := Books();
      var todo := connections.Keys;
      while todo != {}
        invariant BooksOk(left) && left.connections.Keys == todo <= connections.Keys
        invariant forall c :: c in todo ==> left.connections[c] == connections[c]
        invariant left.backends == backends && left.open == open && left.health == healthFds && |backends| == |old(backends)|
        decreases |todo|
      {
        SomeMember(todo);
        var c :| c in todo;
        ClosedOk(left, c);
        CloseDescriptors(c, left);
        left := Closed(left, c);
        todo := todo - {c};
      }
      AllGone(left);
      connections, backendToClient, wires := map[], map[], map[];
    }

    /** Closes the descriptors of one connection of the books that are left, and takes it off its backend's count. */
    method CloseDescriptors(c: int, ghost left: Ledger)
      requires c in connections && LinkedOk(left, c) && left.connections[c] == connections[c]
      requires left.backends == backends && left.open == open
      modifies `backends, `open
      ensures backends == Closed(left, c).backends && open == Closed(left, c).open
    {
      hide Minus;
      var p := connections[c];
      if p.backendFd != -1 {
        if p.backendIndex < |backends| {
          backends := backends[p.backendIndex := Minus(backends[p.backendIndex])];
        }
        open := open - {p.backendFd};
      }
      open := open - {c};
    }

    /** One round of the event loop; what the kernel could not report does not happen. */
    method HandleRound(round: Round)
      requires Valid()
      modifies this
      ensures Valid() && AllContinue(old(Books()), Books())
    {
      hide BooksOk, Clean, ConsistentHash.RingIs, OnlyTouches, RelayOk, Possible, Arrivals, AllContinue, Continues, Served, RowEnds;
      RoomLeft(Books());
      ghost var l := Books();
      UntouchedContinues(l, l);
      match round
      case Accepting(incoming) =>
        if Arrivals(open, MAX_CONNECTIONS - |connections|, incoming) {
          HandleAccept(incoming);
          UntouchedContinues(l, Books());
        }
      case Ready(fd, event, answers) =>
        if fd !in healthFds && (ClientOf(fd) in connections ==> Possible(Books(), ClientOf(fd), answers)) {
          ghost var c := ClientOf(fd);
          var tried := HandleEvent(fd, event, answers);
          OneContinues(l, Books(), c);
        }
      case CheckOpened(fd) =>
        if fd !in open {
          HealthOpenedOk(Books(), fd);
          healthFds, open := healthFds + {fd}, open + {fd};
          UntouchedContinues(l, Books());
        }
      case CheckClosed(fd) =>
        if fd in healthFds {
          HealthClosedOk(Books(), fd);
          healthFds, open := healthFds - {fd}, open - {fd};
          UntouchedContinues(l, Books());
        }
      case Judged(index, healthy) =>
        if index < |backends| {
          RecordedOk(Books(), index, backends[index].(healthy := healthy));
          backends := backends[index := backends[index].(healthy := healthy)];
          UntouchedContinues(l, Books());
        }
    }

    /** Whatever happens, every connection that survives a round is continued by it; at the end no descriptor is left
        open, every counter is back at zero, and every graceful close on the way has lost nothing. */
    method Start(rounds: seq<Round>) returns (ghost trace: seq<Ledger>)
      requires Valid()
      modifies this
      ensures |trace| == |rounds| + 1 && trace[0] == old(Books()) && Traced(trace)
      ensures Valid() && open == {} && connections == map[] && backendToClient == map[]
      ensures forall i :: 0 <= i < |backends| ==> backends[i].connectionCount == 0
      ensures forall k :: 0 <= k < |farewells| ==> Clean(farewells[k])
    {
      hide BooksOk, Clean, ConsistentHash.RingIs, AllContinue, Traced;
      trace := [Books()];
      TraceBegins(Books());
      for k := 0 to |rounds|
        invariant Valid() && |trace| == k + 1 && trace[0] == old(Books()) && trace[k] == Books() && Traced(trace)
      {
        HandleRound(rounds[k]);
        TraceGrows(trace, Books());
        trace := trace + [Books()];
      }
      CloseAllConnections();
      NoChecksLeft(Books());
      open, healthFds := open - healthFds, {};
    }
  }

  /** A finished connection that is closed gracefully has delivered everything. */
  lemma FarewellIsClean(p: Pair, w: Wire)
    requires RelayOk(p, w)
    ensures Clean(Farewell(Settled(p), w, FateOf(Cleared(p))))
  {
    if FateOf(Cleared(p)) == Graceful {
      assert !p.metricsConnection;
      GracefulExactly(p, w);
    }
  }
}
