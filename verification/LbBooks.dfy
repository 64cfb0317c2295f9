/** The load balancer's bookkeeping (src/lb/LoadBalancer.cpp): its two maps, the backend counters and the open descriptors. */
module LbBooks {
  import opened Collections
  import opened Relay
  import opened Sockets

  const MAX_CONNECTIONS: nat := 100000

  datatype Backend = Backend(healthy: bool, connectionCount: nat, totalConnections: nat, failedConnections: nat, failovers: nat)

  /** Everything the load balancer keeps about its connections; `open` are the descriptors really open,
      `wires` the bytes that have really passed. */
  datatype Ledger = Ledger(
    connections: map<int, Pair>, backendToClient: map<int, int>, backends: seq<Backend>,
    health: set<int>, open: set<int>, wires: map<int, Wire>)

  function Attached(connections: map<int, Pair>, index: nat): set<int> {
    set c | c in connections && connections[c].backendFd != -1 && connections[c].backendIndex == index
  }

  /** Client `c` is known under its own descriptor, and its backend, if any, leads back to it. */
  predicate ClientLinked(p: Pair, c: int, back: map<int, int>, pool: nat) {
    && c >= 0 && p.clientFd == c && p.backendFd >= -1
    && (p.backendFd != -1 ==> p.backendIndex < pool && p.backendFd in back && back[p.backendFd] == c)
  }

  predicate BackendLinked(b: int, c: int, connections: map<int, Pair>) {
    b >= 0 && c in connections && connections[c].backendFd == b
  }

  /** Each map is the other one read backwards. */
  predicate LinksOk(connections: map<int, Pair>, back: map<int, int>, pool: nat) {
    && (forall c :: c in connections ==> ClientLinked(connections[c], c, back, pool))
    && (forall b :: b in back ==> BackendLinked(b, back[b], connections))
  }

  /** Each backend's counter is the number of connections attached to it. */
  predicate CountsOk(connections: map<int, Pair>, backends: seq<Backend>) {
    forall i :: 0 <= i < |backends| ==> backends[i].connectionCount == |Attached(connections, i)|
  }

  /** The open descriptors are the clients, the backends and the health checks, and no descriptor has two uses. */
  ghost predicate FdsOk(clients: set<int>, backs: set<int>, health: set<int>, open: set<int>) {
    forall f: int ::
      && (f in open <==> f in clients || f in backs || f in health)
      && !(f in clients && f in backs) && !(f in clients && f in health) && !(f in backs && f in health)
  }

  predicate RelaysOk(connections: map<int, Pair>, wires: map<int, Wire>) {
    && (forall c :: c in connections ==> c in wires && RelayOk(connections[c], wires[c]))
    && (forall c :: c in wires ==> c in connections)
  }

  ghost predicate BooksOk(l: Ledger) {
    && LinksOk(l.connections, l.backendToClient, |l.backends|)
    && CountsOk(l.connections, l.backends)
    && FdsOk(l.connections.Keys, l.backendToClient.Keys, l.health, l.open)
    && RelaysOk(l.connections, l.wires)
    && |l.connections| <= MAX_CONNECTIONS
  }

  /** Every other connection is left as it was. */
  ghost predicate OnlyTouches(l: Ledger, l': Ledger, client: int) {
    && (forall c :: c != client ==> Same(l.connections, l'.connections, c))
    && (forall c :: c != client ==> Same(l.wires, l'.wires, c))
  }

  predicate Same<T(==)>(m: map<int, T>, m': map<int, T>, c: int) {
    (c in m <==> c in m') && (c in m ==> m[c] == m'[c])
  }

  lemma SameUpdated<T>(m: map<int, T>, m': map<int, T>, c: int, value: T)
    requires m' == m[c := value]
    ensures forall d :: d != c ==> Same(m, m', d)
  {
  }

  lemma SameRemoved<T>(m: map<int, T>, c: int)
    ensures forall d :: d != c ==> Same(m, m - {c}, d)
  {
  }

  lemma EmptyBooks(backends: seq<Backend>)
    requires forall i :: 0 <= i < |backends| ==> backends[i].connectionCount == 0
    ensures BooksOk(Ledger(map[], map[], backends, {}, {}, map[]))
  {
    var none: map<int, Pair> := map[];
    forall i | 0 <= i < |backends| ensures |Attached(none, i)| == 0 {
      assert Attached(none, i) == {};
    }
    hide Attached;
  }

  // ----- descriptors -----

  lemma ClientOpens(clients: set<int>, backs: set<int>, health: set<int>, open: set<int>, f: int)
    requires FdsOk(clients, backs, health, open) && f !in open
    ensures FdsOk(clients + {f}, backs, health, open + {f})
  {
  }

  lemma BackendOpens(clients: set<int>, backs: set<int>, health: set<int>, open: set<int>, f: int)
    requires FdsOk(clients, backs, health, open) && f !in open
    ensures FdsOk(clients, backs + {f}, health, open + {f})
  {
  }

  lemma ClientCloses(clients: set<int>, backs: set<int>, health: set<int>, open: set<int>, f: int)
    requires FdsOk(clients, backs, health, open) && f in clients
    ensures FdsOk(clients - {f}, backs, health, open - {f})
  {
  }

  lemma BackendCloses(clients: set<int>, backs: set<int>, health: set<int>, open: set<int>, f: int)
    requires FdsOk(clients, backs, health, open) && f in backs
    ensures FdsOk(clients, backs - {f}, health, open - {f})
  {
  }

  // ----- a client comes -----

  function Accepted(l: Ledger, fd: int, ip: string): Ledger {
    l.(connections := l.connections[fd := NewPair(fd, ip)], open := l.open + {fd}, wires := l.wires[fd := NEW_WIRE])
  }

  lemma AcceptedLinks(connections: map<int, Pair>, back: map<int, int>, pool: nat, fd: int, ip: string)
    requires LinksOk(connections, back, pool) && fd !in connections && fd >= 0
    ensures LinksOk(connections[fd := NewPair(fd, ip)], back, pool)
  {
  }

  /** A pair that replaces one with the same attachment changes no counter. */
  lemma SameAttached(connections: map<int, Pair>, c: int, p: Pair, backends: seq<Backend>)
    requires CountsOk(connections, backends)
    requires if c in connections then SameBooks(connections[c], p) else p.backendFd == -1
    ensures CountsOk(connections[c := p], backends)
  {
    forall i | 0 <= i < |backends| ensures Attached(connections[c := p], i) == Attached(connections, i) {
    }
  }

  lemma RelaysUpdated(connections: map<int, Pair>, wires: map<int, Wire>, c: int, p: Pair, w: Wire)
    requires RelaysOk(connections, wires) && RelayOk(p, w)
    ensures RelaysOk(connections[c := p], wires[c := w])
  {
    hide RelayOk;
  }

  lemma AbsentClient(l: Ledger, fd: int)
    requires BooksOk(l) && fd !in l.open
    ensures fd !in l.connections && fd !in l.backendToClient && fd !in l.health
  {
    hide RelayOk, LinksOk, CountsOk, RelaysOk;
  }

  /** Every connection of the first books is in the second ones as it was. */
  ghost predicate Older(l: Ledger, l': Ledger) {
    && (forall c :: c in l.connections ==> c in l'.connections && l'.connections[c] == l.connections[c])
    && (forall c :: c in l.wires ==> c in l'.wires && l'.wires[c] == l.wires[c])
  }

  lemma OlderSelf(l: Ledger)
    ensures Older(l, l)
  {
  }

  lemma OlderChain(l: Ledger, l1: Ledger, l2: Ledger)
    requires Older(l, l1) && Older(l1, l2)
    ensures Older(l, l2)
  {
  }

  lemma AcceptedOlder(l: Ledger, fd: int, ip: string)
    requires BooksOk(l) && fd !in l.open
    ensures Older(l, Accepted(l, fd, ip))
  {
    AbsentClient(l, fd);
    AbsentWire(l, fd);
    hide BooksOk;
  }

  lemma AcceptedRoom(l: Ledger, fd: int, ip: string)
    requires BooksOk(l) && fd !in l.open
    ensures |Accepted(l, fd, ip).connections| == |l.connections| + 1 && Accepted(l, fd, ip).open == l.open + {fd}
  {
    AbsentClient(l, fd);
    Updated(l.connections, fd, NewPair(fd, ip));
    hide BooksOk;
  }

  lemma PutAndTaken(open: set<int>, connections: map<int, Pair>, fd: int, p: Pair)
    requires fd !in open && fd !in connections
    ensures open + {fd} - {fd} == open && connections[fd := p] - {fd} == connections
  {
  }

  lemma AbsentWire(l: Ledger, fd: int)
    requires BooksOk(l) && fd !in l.open
    ensures fd !in l.wires
  {
    hide RelayOk, LinksOk, CountsOk;
  }

  lemma AcceptedOk(l: Ledger, fd: int, ip: string)
    requires BooksOk(l) && fd >= 0 && fd !in l.open && |l.connections| < MAX_CONNECTIONS
    ensures BooksOk(Accepted(l, fd, ip)) && OnlyTouches(l, Accepted(l, fd, ip), fd)
  {
    AbsentClient(l, fd);
    hide RelayOk, LinksOk, CountsOk, RelaysOk, FdsOk, Attached, ClientLinked, BackendLinked, Same;
    FreshOk(fd, ip);
    ClientOpens(l.connections.Keys, l.backendToClient.Keys, l.health, l.open, fd);
    SameUpdated(l.connections, Accepted(l, fd, ip).connections, fd, NewPair(fd, ip));
    SameUpdated(l.wires, Accepted(l, fd, ip).wires, fd, NEW_WIRE);
    RelaysUpdated(l.connections, l.wires, fd, NewPair(fd, ip), NEW_WIRE);
    AcceptedLinks(l.connections, l.backendToClient, |l.backends|, fd, ip);
    SameAttached(l.connections, fd, NewPair(fd, ip), l.backends);
    Updated(l.connections, fd, NewPair(fd, ip));
  }

  // ----- a connection is changed without its books -----

  function Touched(l: Ledger, c: int, p: Pair, w: Wire): Ledger {
    l.(connections := l.connections[c := p], wires := l.wires[c := w])
  }

  predicate SameBooks(p: Pair, p': Pair) {
    p'.clientFd == p.clientFd && p'.backendFd == p.backendFd && p'.backendIndex == p.backendIndex
  }

  lemma TouchedLinks(connections: map<int, Pair>, back: map<int, int>, pool: nat, c: int, p: Pair)
    requires LinksOk(connections, back, pool) && c in connections && SameBooks(connections[c], p)
    ensures LinksOk(connections[c := p], back, pool)
  {
  }

  lemma TouchedOk(l: Ledger, c: int, p: Pair, w: Wire)
    requires BooksOk(l) && c in l.connections && SameBooks(l.connections[c], p) && RelayOk(p, w)
    ensures BooksOk(Touched(l, c, p, w)) && OnlyTouches(l, Touched(l, c, p, w), c)
  {
    hide RelayOk, LinksOk, CountsOk, RelaysOk, FdsOk;
    RelaysUpdated(l.connections, l.wires, c, p, w);
    TouchedLinks(l.connections, l.backendToClient, |l.backends|, c, p);
    SameAttached(l.connections, c, p, l.backends);
    Updated(l.connections, c, p);
  }

  // ----- a backend is attached -----

  function Plus(b: Backend): Backend { b.(connectionCount := b.connectionCount + 1, totalConnections := b.totalConnections + 1) }

  /** The guarded decrement. */
  function Minus(b: Backend): Backend { if b.connectionCount > 0 then b.(connectionCount := b.connectionCount - 1) else b }

  function Tie(p: Pair, fd: int, index: nat, connecting: bool): Pair {
    p.(backendFd := fd, backendIndex := index, backendConnecting := connecting)
  }

  /** Client `c` is attached to backend `index` over `fd`. */
  function Tied(l: Ledger, c: int, fd: int, index: nat, connecting: bool): Ledger
    requires c in l.connections && index < |l.backends|
  {
    l.(connections := l.connections[c := Tie(l.connections[c], fd, index, connecting)],
       backendToClient := l.backendToClient[fd := c],
       backends := l.backends[index := Plus(l.backends[index])],
       open := l.open + {fd})
  }

  lemma OneMoreAttached(connections: map<int, Pair>, c: int, p: Pair, i: nat)
    requires c in connections && connections[c].backendFd == -1 && p.backendFd != -1
    ensures |Attached(connections[c := p], i)| == |Attached(connections, i)| + if i == p.backendIndex then 1 else 0
  {
    assert c !in Attached(connections, i);
    if i == p.backendIndex {
      assert Attached(connections[c := p], i) == Attached(connections, i) + {c};
    } else {
      assert Attached(connections[c := p], i) == Attached(connections, i);
    }
  }

  lemma TiedCounts(connections: map<int, Pair>, backends: seq<Backend>, c: int, p: Pair)
    requires CountsOk(connections, backends) && c in connections && connections[c].backendFd == -1
    requires p.backendFd != -1 && p.backendIndex < |backends|
    ensures CountsOk(connections[c := p], backends[p.backendIndex := Plus(backends[p.backendIndex])])
  {
    hide Attached;
    forall i | 0 <= i < |backends|
      ensures |Attached(connections[c := p], i)| == |Attached(connections, i)| + if i == p.backendIndex then 1 else 0
    {
      OneMoreAttached(connections, c, p, i);
    }
  }

  lemma TiedLinks(connections: map<int, Pair>, back: map<int, int>, pool: nat, c: int, p: Pair)
    requires LinksOk(connections, back, pool) && c in connections && connections[c].backendFd == -1
    requires p.clientFd == c && p.backendFd >= 0 && p.backendIndex < pool && p.backendFd !in back
    ensures LinksOk(connections[c := p], back[p.backendFd := c], pool)
  {
    assert ClientLinked(connections[c], c, back, pool);
    forall b | b in back ensures back[b] != c {
      assert BackendLinked(b, back[b], connections);
    }
  }

  lemma TiedOk(l: Ledger, c: int, fd: int, index: nat, connecting: bool)
    requires BooksOk(l) && c in l.connections && l.connections[c].backendFd == -1 && !l.connections[c].metricsConnection
    requires index < |l.backends| && fd >= 0 && fd !in l.open
    ensures BooksOk(Tied(l, c, fd, index, connecting)) && OnlyTouches(l, Tied(l, c, fd, index, connecting), c)
  {
    var p := Tie(l.connections[c], fd, index, connecting);
    WiredClient(l, c);
    AttachKeeps(l.connections[c], l.wires[c], fd, index, connecting);
    AbsentClient(l, fd);
    hide RelayOk, LinksOk, CountsOk, RelaysOk, FdsOk, Plus;
    BackendOpens(l.connections.Keys, l.backendToClient.Keys, l.health, l.open, fd);
    TiedCounts(l.connections, l.backends, c, p);
    TiedLinks(l.connections, l.backendToClient, |l.backends|, c, p);
    RelaysUpdated(l.connections, l.wires, c, p, l.wires[c]);
    assert l.wires[c := l.wires[c]] == l.wires;
    Updated(l.connections, c, p);
    assert l.backendToClient[fd := c].Keys == l.backendToClient.Keys + {fd};
  }

  /** A client's record, and what is known of it. */
  lemma WiredClient(l: Ledger, c: int)
    requires BooksOk(l) && c in l.connections
    ensures c in l.wires && RelayOk(l.connections[c], l.wires[c]) && ClientLinked(l.connections[c], c, l.backendToClient, |l.backends|)
    ensures c in l.open && c !in l.backendToClient && c !in l.health && c >= 0
    ensures l.connections[c].backendFd != -1 ==> l.connections[c].backendFd in l.open
    ensures l.connections[c].backendFd !in l.connections
  {
    hide RelayOk, CountsOk;
    assert ClientLinked(l.connections[c], c, l.backendToClient, |l.backends|);
    forall d | d in l.connections ensures d >= 0 && d !in l.backendToClient {
      assert ClientLinked(l.connections[d], d, l.backendToClient, |l.backends|);
    }
  }

  // ----- a backend is given up -----

  function Free(p: Pair): Pair { p.(backendFd := -1, backendConnecting := false) }

  function Freed(w: Wire): Wire { w.(backendEof := false, staleEof := w.staleEof || w.backendEof) }

  function GivenUp(b: Backend): Backend { Minus(b).(failedConnections := b.failedConnections + 1) }

  /** The failed backend of client `c` is closed. */
  function Detached(l: Ledger, c: int): Ledger
    requires c in l.connections && c in l.wires && l.connections[c].backendIndex < |l.backends|
  {
    var p := l.connections[c];
    l.(connections := l.connections[c := Free(p)], backendToClient := l.backendToClient - {p.backendFd},
       backends := l.backends[p.backendIndex := GivenUp(l.backends[p.backendIndex])],
       open := l.open - {p.backendFd}, wires := l.wires[c := Freed(l.wires[c])])
  }

  /** The counter of a connection's backend is never at zero when it is taken down. */
  lemma NeverZero(connections: map<int, Pair>, backends: seq<Backend>, c: int)
    requires CountsOk(connections, backends) && c in connections && connections[c].backendFd != -1
    requires connections[c].backendIndex < |backends|
    ensures backends[connections[c].backendIndex].connectionCount > 0
  {
    assert c in Attached(connections, connections[c].backendIndex);
  }

  lemma FreeCounts(connections: map<int, Pair>, connections': map<int, Pair>, backends: seq<Backend>, b: Backend, c: int)
    requires CountsOk(connections, backends) && c in connections && connections[c].backendFd != -1
    requires connections[c].backendIndex < |backends| && b.connectionCount == Minus(backends[connections[c].backendIndex]).connectionCount
    requires forall d :: d != c ==> Same(connections, connections', d)
    requires c in connections' ==> connections'[c].backendFd == -1
    ensures CountsOk(connections', backends[connections[c].backendIndex := b])
  {
    var k := connections[c].backendIndex;
    NeverZero(connections, backends, c);
    forall i | 0 <= i < |backends|
      ensures |Attached(connections', i)| == |Attached(connections, i)| - if i == k then 1 else 0
    {
      forall d | d != c ensures d in Attached(connections', i) <==> d in Attached(connections, i) {
        assert Same(connections, connections', d);
      }
      assert Attached(connections', i) == Attached(connections, i) - {c};
    }
  }

  lemma FreedLinks(connections: map<int, Pair>, back: map<int, int>, pool: nat, c: int)
    requires LinksOk(connections, back, pool) && c in connections && connections[c].backendFd != -1
    ensures LinksOk(connections[c := Free(connections[c])], back - {connections[c].backendFd}, pool)
    ensures LinksOk(connections - {c}, back - {connections[c].backendFd}, pool)
  {
    assert ClientLinked(connections[c], c, back, pool);
    forall b | b in back ensures back[b] == c <==> b == connections[c].backendFd {
      assert BackendLinked(b, back[b], connections);
    }
    forall d | d in connections && d != c ensures connections[d].backendFd != connections[c].backendFd || connections[d].backendFd == -1 {
      assert ClientLinked(connections[d], d, back, pool);
    }
  }

  lemma DetachedOk(l: Ledger, c: int)
    requires BooksOk(l) && c in l.connections && l.connections[c].backendFd != -1 && l.connections[c].backendConnecting
    ensures c in l.wires && l.connections[c].backendIndex < |l.backends|
    ensures BooksOk(Detached(l, c)) && OnlyTouches(l, Detached(l, c), c)
  {
    WiredClient(l, c);
    var p := l.connections[c];
    var b := l.backends[p.backendIndex];
    DetachKeeps(p, l.wires[c]);
    hide RelayOk, LinksOk, CountsOk, RelaysOk, FdsOk, Attached, Minus;
    BackendCloses(l.connections.Keys, l.backendToClient.Keys, l.health, l.open, p.backendFd);
    FreeCounts(l.connections, l.connections[c := Free(p)], l.backends, GivenUp(b), c);
    FreedLinks(l.connections, l.backendToClient, |l.backends|, c);
    RelaysUpdated(l.connections, l.wires, c, Free(p), Freed(l.wires[c]));
    Updated(l.connections, c, Free(p));
    assert (l.backendToClient - {p.backendFd}).Keys == l.backendToClient.Keys - {p.backendFd};
  }

  // ----- counters that nothing depends on -----

  /** A backend's record may change in any way that keeps its number of connections. */
  lemma RecordedOk(l: Ledger, index: nat, b: Backend)
    requires BooksOk(l) && index < |l.backends| && b.connectionCount == l.backends[index].connectionCount
    ensures BooksOk(l.(backends := l.backends[index := b]))
  {
    hide RelayOk, LinksOk, RelaysOk, FdsOk, Attached;
  }

  // ----- a connection is closed -----

  predicate LinkedOk(l: Ledger, c: int) {
    c in l.connections && (l.connections[c].backendFd != -1 ==> l.connections[c].backendIndex < |l.backends|)
  }

  function Closed(l: Ledger, c: int): Ledger
    requires c in l.connections && (l.connections[c].backendFd != -1 ==> l.connections[c].backendIndex < |l.backends|)
  {
    var p := l.connections[c];
    if p.backendFd == -1 then
      l.(connections := l.connections - {c}, open := l.open - {c}, wires := l.wires - {c})
    else
      l.(connections := l.connections - {c}, backendToClient := l.backendToClient - {p.backendFd},
         backends := l.backends[p.backendIndex := Minus(l.backends[p.backendIndex])],
         open := l.open - {p.backendFd} - {c}, wires := l.wires - {c})
  }

  lemma LooseCounts(connections: map<int, Pair>, backends: seq<Backend>, c: int)
    requires CountsOk(connections, backends) && c in connections && connections[c].backendFd == -1
    ensures CountsOk(connections - {c}, backends)
  {
    forall i | 0 <= i < |backends| ensures Attached(connections - {c}, i) == Attached(connections, i) {
    }
  }

  lemma LooseLinks(connections: map<int, Pair>, back: map<int, int>, pool: nat, c: int)
    requires LinksOk(connections, back, pool) && c in connections && connections[c].backendFd == -1
    ensures LinksOk(connections - {c}, back, pool)
  {
    forall b | b in back ensures back[b] != c {
      assert BackendLinked(b, back[b], connections);
    }
  }

  lemma RelaysLess(connections: map<int, Pair>, wires: map<int, Wire>, c: int)
    requires RelaysOk(connections, wires)
    ensures RelaysOk(connections - {c}, wires - {c})
  {
    hide RelayOk;
  }

  lemma ClosedLoose(l: Ledger, c: int)
    requires BooksOk(l) && c in l.connections && l.connections[c].backendFd == -1
    ensures BooksOk(Closed(l, c)) && OnlyTouches(l, Closed(l, c), c)
  {
    hide RelayOk, LinksOk, CountsOk, RelaysOk, FdsOk, Same;
    SameRemoved(l.connections, c);
    SameRemoved(l.wires, c);
    ClientCloses(l.connections.Keys, l.backendToClient.Keys, l.health, l.open, c);
    LooseCounts(l.connections, l.backends, c);
    LooseLinks(l.connections, l.backendToClient, |l.backends|, c);
    RelaysLess(l.connections, l.wires, c);
    Shrunk(l.connections, c);
  }

  lemma ClosedTied(l: Ledger, c: int)
    requires BooksOk(l) && c in l.connections && l.connections[c].backendFd != -1
    ensures l.connections[c].backendIndex < |l.backends|
    ensures BooksOk(Closed(l, c)) && OnlyTouches(l, Closed(l, c), c)
  {
    WiredClient(l, c);
    hide RelayOk, LinksOk, CountsOk, RelaysOk, FdsOk, Attached, Minus, Same;
    SameRemoved(l.connections, c);
    SameRemoved(l.wires, c);
    var p := l.connections[c];
    BackendCloses(l.connections.Keys, l.backendToClient.Keys, l.health, l.open, p.backendFd);
    ClientCloses(l.connections.Keys, l.backendToClient.Keys - {p.backendFd}, l.health, l.open - {p.backendFd}, c);
    FreeCounts(l.connections, l.connections - {c}, l.backends, Minus(l.backends[p.backendIndex]), c);
    FreedLinks(l.connections, l.backendToClient, |l.backends|, c);
    RelaysLess(l.connections, l.wires, c);
    Shrunk(l.connections, c);
    assert (l.backendToClient - {p.backendFd}).Keys == l.backendToClient.Keys - {p.backendFd};
  }

  lemma ClosedOk(l: Ledger, c: int)
    requires BooksOk(l) && c in l.connections
    ensures l.connections[c].backendFd != -1 ==> l.connections[c].backendIndex < |l.backends|
    ensures BooksOk(Closed(l, c)) && OnlyTouches(l, Closed(l, c), c)
  {
    hide BooksOk, OnlyTouches, Closed;
    if l.connections[c].backendFd == -1 { ClosedLoose(l, c); } else { ClosedTied(l, c); }
  }

  // ----- health checks -----

  lemma HealthOpenedOk(l: Ledger, fd: int)
    requires BooksOk(l) && fd !in l.open
    ensures BooksOk(l.(health := l.health + {fd}, open := l.open + {fd}))
  {
    hide RelayOk, LinksOk, CountsOk, RelaysOk;
  }

  lemma HealthClosedOk(l: Ledger, fd: int)
    requires BooksOk(l) && fd in l.health
    ensures BooksOk(l.(health := l.health - {fd}, open := l.open - {fd}))
  {
    hide RelayOk, LinksOk, CountsOk, RelaysOk;
  }

  // ----- bytes that pass -----

  /** `data`, and perhaps the end of the stream, has been read from one side of client `c`. */
  function Received(l: Ledger, c: int, fromBackend: bool, data: string, eof: bool): Ledger
    requires c in l.connections && c in l.wires
  {
    if fromBackend then Touched(l, c, ReadFromBackend(l.connections[c], data, eof), WireFromBackend(l.wires[c], data, eof))
    else Touched(l, c, ReadFromClient(l.connections[c], data, eof), WireFromClient(l.wires[c], data, eof))
  }

  lemma ReceivedOk(l: Ledger, c: int, fromBackend: bool, data: string, eof: bool)
    requires BooksOk(l) && c in l.connections && c in l.wires
    requires if fromBackend then l.connections[c].backendFd != -1 && (l.wires[c].backendEof ==> data == "")
             else !l.connections[c].metricsConnection && (l.wires[c].clientEof ==> data == "")
    requires BuffersOk(l.connections[c])
    requires |if fromBackend then ToClientPending(l.connections[c]) else ToBackendPending(l.connections[c])| + |data| <= MAX_BUFFER_SIZE
    ensures BooksOk(Received(l, c, fromBackend, data, eof)) && OnlyTouches(l, Received(l, c, fromBackend, data, eof), c)
  {
    WiredClient(l, c);
    if fromBackend { ReadBackendKeeps(l.connections[c], l.wires[c], data, eof); } else { ReadClientKeeps(l.connections[c], l.wires[c], data, eof); }
    hide BooksOk, OnlyTouches, RelayOk, BuffersOk;
    var l' := Received(l, c, fromBackend, data, eof);
    TouchedOk(l, c, l'.connections[c], l'.wires[c]);
  }

  /** How many bytes wait in the buffer that one side is read into. */
  function PendingOf(p: Pair, fromBackend: bool): int {
    if fromBackend then |p.toClient| - p.toClientOffset else |p.toBackend| - p.toBackendOffset
  }

  /** One side of client `c` can be read, and `answers` is what the kernel may answer. */
  predicate MayRead(l: Ledger, c: int, fromBackend: bool, answers: seq<Receipt>) {
    && c in l.connections && c in l.wires && PendingOf(l.connections[c], fromBackend) >= 0
    && if fromBackend then l.connections[c].backendFd != -1 && Plausible(answers, l.wires[c].backendEof)
       else !l.connections[c].metricsConnection && Plausible(answers, l.wires[c].clientEof)
  }

  /** Nothing but the bytes of client `c` has changed. */
  predicate Undisturbed(l: Ledger, l': Ledger, c: int) {
    && l'.backendToClient == l.backendToClient && l'.backends == l.backends && l'.open == l.open && l'.health == l.health
    && c in l.connections && c in l'.connections && SameBooks(l.connections[c], l'.connections[c])
    && l'.connections[c].backendConnecting == l.connections[c].backendConnecting
  }

  lemma MayReadKnown(l: Ledger, c: int, fromBackend: bool, answers: seq<Receipt>)
    requires MayRead(l, c, fromBackend, answers)
    ensures Undisturbed(l, l, c) && c in l.wires
  {
  }

  /** What a read loop takes fits the buffer, and keeps the books. */
  lemma ReadFits(l: Ledger, c: int, fromBackend: bool, answers: seq<Receipt>, drain: bool)
    requires BooksOk(l) && MayRead(l, c, fromBackend, answers)
    ensures var r := Pump(PendingOf(l.connections[c], fromBackend), answers, drain);
            var l' := Received(l, c, fromBackend, r.data, r.end == SawEof);
            BooksOk(l') && OnlyTouches(l, l', c) && MayRead(l', c, fromBackend, answers[r.used..])
    ensures Plausible(answers, false)
  {
    var p := l.connections[c];
    BuffersFit(l, c);
    hide BooksOk, OnlyTouches, Pump;
    var r := Pump(PendingOf(p, fromBackend), answers, drain);
    PumpIsPlausible(PendingOf(p, fromBackend), answers, drain, if fromBackend then l.wires[c].backendEof else l.wires[c].clientEof);
    ReceivedOk(l, c, fromBackend, r.data, r.end == SawEof);
    AppendedPending(p.toClient, p.toClientOffset, r.data);
    AppendedPending(p.toBackend, p.toBackendOffset, r.data);
  }

  /** One side of client `c` can be sent to. */
  predicate MaySend(l: Ledger, c: int, toBackend: bool) {
    && c in l.connections && c in l.wires && PendingOf(l.connections[c], !toBackend) >= 0
    && (toBackend ==> l.connections[c].backendFd != -1 && !l.connections[c].backendConnecting)
  }

  /** `count` pending bytes have been sent to one side of client `c`. */
  function Transmitted(l: Ledger, c: int, toBackend: bool, count: nat): Ledger
    requires c in l.connections && c in l.wires
    requires if toBackend then l.connections[c].toBackendOffset + count <= |l.connections[c].toBackend|
             else l.connections[c].toClientOffset + count <= |l.connections[c].toClient|
  {
    var p, w := l.connections[c], l.wires[c];
    if toBackend then
      Touched(l, c, p.(toBackendOffset := p.toBackendOffset + count),
              w.(toBackend := w.toBackend + p.toBackend[p.toBackendOffset..p.toBackendOffset + count]))
    else
      Touched(l, c, p.(toClientOffset := p.toClientOffset + count),
              w.(toClient := w.toClient + p.toClient[p.toClientOffset..p.toClientOffset + count]))
  }

  lemma TransmittedOk(l: Ledger, c: int, toBackend: bool, count: nat)
    requires BooksOk(l) && c in l.connections && c in l.wires
    requires if toBackend then l.connections[c].toBackendOffset + count <= |l.connections[c].toBackend|
             else l.connections[c].toClientOffset + count <= |l.connections[c].toClient|
    requires toBackend ==> l.connections[c].backendFd != -1 && !l.connections[c].backendConnecting
    ensures BooksOk(Transmitted(l, c, toBackend, count)) && OnlyTouches(l, Transmitted(l, c, toBackend, count), c)
  {
    WiredClient(l, c);
    if toBackend { SendBackendKeeps(l.connections[c], l.wires[c], count); } else { SendClientKeeps(l.connections[c], l.wires[c], count); }
    hide BooksOk, OnlyTouches, RelayOk;
    var l' := Transmitted(l, c, toBackend, count);
    TouchedOk(l, c, l'.connections[c], l'.wires[c]);
  }

  lemma BuffersFit(l: Ledger, c: int)
    requires BooksOk(l) && c in l.connections
    ensures c in l.wires && BuffersOk(l.connections[c])
    ensures l.connections[c].backendFd != -1 ==> !l.connections[c].metricsConnection
  {
    WiredClient(l, c);
  }

  lemma BackendLeadsBack(l: Ledger, c: int)
    requires BooksOk(l) && c in l.connections
    ensures l.connections[c].backendFd != -1 ==> l.connections[c].backendFd in l.backendToClient && l.backendToClient[l.connections[c].backendFd] == c
  {
    WiredClient(l, c);
    hide BooksOk, RelayOk;
  }

  lemma Pending(p: Pair)
    requires BuffersOk(p)
    ensures PendingOf(p, true) >= 0 && PendingOf(p, false) >= 0
  {
  }

  lemma RoomLeft(l: Ledger)
    requires BooksOk(l)
    ensures |l.connections| <= MAX_CONNECTIONS
  {
  }

  lemma BackendsHaveClients(l: Ledger)
    requires BooksOk(l)
    ensures forall b :: b in l.backendToClient.Keys ==> l.backendToClient[b] in l.connections.Keys
  {
    hide RelayOk, CountsOk, RelaysOk;
    forall b | b in l.backendToClient ensures l.backendToClient[b] in l.connections.Keys {
      assert BackendLinked(b, l.backendToClient[b], l.connections);
    }
  }

  lemma NobodyHome(l: Ledger)
    requires BooksOk(l) && l.connections.Keys == {}
    ensures l.backendToClient.Keys == {} && l.open == l.health
  {
    hide RelayOk, CountsOk, RelaysOk;
    BackendsHaveClients(l);
    assert forall b :: b !in l.backendToClient.Keys;
    forall f ensures f in l.open <==> f in l.health {
      assert f !in l.connections.Keys && f !in l.backendToClient.Keys;
    }
  }

  lemma SameFds(health: set<int>)
    ensures FdsOk({}, {}, health, health)
  {
  }

  /** Without connections every counter is zero, and only health checks are open. */
  lemma AllGone(l: Ledger)
    requires BooksOk(l) && l.connections.Keys == {}
    ensures l.open == l.health && forall i :: 0 <= i < |l.backends| ==> l.backends[i].connectionCount == 0
    ensures BooksOk(l.(connections := map[], backendToClient := map[], wires := map[]))
  {
    forall i | 0 <= i < |l.backends| ensures l.backends[i].connectionCount == 0 {
      assert Attached(l.connections, i) == {};
    }
    hide RelayOk, Attached;
    NobodyHome(l);
    EmptyBooks(l.backends);
    SameFds(l.health);
  }

  /** Cancelling the health checks closes what is left. */
  lemma NoChecksLeft(l: Ledger)
    requires BooksOk(l) && l.connections.Keys == {} && l.open == l.health
    ensures BooksOk(l.(health := {}, open := l.open - l.health)) && l.open - l.health == {}
  {
    hide RelayOk, LinksOk, CountsOk, RelaysOk, FdsOk;
    NobodyHome(l);
    SameFds({});
    assert l.open - l.health == {};
  }

  // ----- what the books say -----

  /** The two maps are inverse to each other. */
  lemma MapsAreInverse(l: Ledger, c: int, b: int)
    requires BooksOk(l)
    ensures b in l.backendToClient && l.backendToClient[b] == c <==> c in l.connections && l.connections[c].backendFd == b && b != -1
  {
    hide RelayOk, CountsOk, RelaysOk;
    if b in l.backendToClient { assert BackendLinked(b, l.backendToClient[b], l.connections); }
    if c in l.connections { assert ClientLinked(l.connections[c], c, l.backendToClient, |l.backends|); }
  }

  /** What a client has sent is what its present backend has been sent, followed by what still waits; before the
      connection stands nothing has been sent, so that whichever backend comes next sees the stream from its first byte. */
  lemma StreamIsExact(l: Ledger, c: int)
    requires BooksOk(l) && c in l.connections
    ensures c in l.wires && BuffersOk(l.connections[c])
    ensures var p, w := l.connections[c], l.wires[c];
            && w.fromClient == w.toBackend + ToBackendPending(p) && |ToBackendPending(p)| <= MAX_BUFFER_SIZE
            && (p.backendFd == -1 || p.backendConnecting ==> ToBackendPending(p) == w.fromClient)
            && (p.backendWriteClosed ==> w.clientEof && w.toBackend == w.fromClient)
  {
    WiredClient(l, c);
    var p, w := l.connections[c], l.wires[c];
    assert "" + ToBackendPending(p) == ToBackendPending(p) && w.toBackend + "" == w.toBackend;
  }

  // ----- metrics connections -----

  /** The client turns out to ask for the metrics page. */
  lemma MetricsKeeps(p: Pair, w: Wire)
    requires RelayOk(p, w) && p.backendFd == -1
    ensures RelayOk(p.(metricsConnection := true), w)
  {
  }

  function PageServed(p: Pair, page: string): Pair { p.(toClient := page, toClientOffset := 0, clientReadClosed := true) }

  lemma PageKeeps(p: Pair, w: Wire, page: string)
    requires RelayOk(p, w) && p.metricsConnection
    ensures RelayOk(PageServed(p, page), w)
  {
  }

  /** The connection to the backend stands. */
  lemma ConnectedKeeps(p: Pair, w: Wire)
    requires RelayOk(p, w) && p.backendFd != -1
    ensures RelayOk(p.(backendConnecting := false), w)
  {
  }

  // ----- an event on a connection that has its backend -----

  /** One read loop: the books after it, whether the connection still stands, and the answers not used. */
  function ReadStep(l: Ledger, c: int, fromBackend: bool, answers: seq<Receipt>, drain: bool): (r: (Ledger, bool, seq<Receipt>))
    requires MayRead(l, c, fromBackend, answers) && LinkedOk(l, c)
  {
    var r := Pump(PendingOf(l.connections[c], fromBackend), answers, drain);
    var go := r.end == Open || r.end == SawEof;
    (if go then Received(l, c, fromBackend, r.data, r.end == SawEof) else Closed(l, c), go, answers[r.used..])
  }

  /** What is there is read once, and after a hang-up the rest until the end. */
  function ReadBoth(l: Ledger, c: int, fromBackend: bool, once: bool, drain: bool, answers: seq<Receipt>): (r: (Ledger, bool))
    requires MayRead(l, c, fromBackend, answers) && LinkedOk(l, c)
  {
    var (l1, go, rest) := if once then ReadStep(l, c, fromBackend, answers, false) else (l, true, answers);
    if go && drain && MayRead(l1, c, fromBackend, rest) && LinkedOk(l1, c) then
      var (l2, go2, _) := ReadStep(l1, c, fromBackend, rest, true);
      (l2, go2)
    else (l1, go)
  }

  function FlushStep(l: Ledger, c: int, toBackend: bool, answers: seq<Sending>): Ledger
    requires MaySend(l, c, toBackend) && LinkedOk(l, c)
  {
    var r := Push(PendingOf(l.connections[c], !toBackend), answers);
    if r.failed then Closed(l, c) else Transmitted(l, c, toBackend, r.count)
  }

  /** Something waits for one side, and can be sent. */
  predicate Waits(l: Ledger, c: int, toBackend: bool) {
    && MaySend(l, c, toBackend) && LinkedOk(l, c) && PendingOf(l.connections[c], !toBackend) > 0
  }

  /** What waits is sent, first to the backend, then to the client. */
  function FlushAll(l: Ledger, c: int, toBackend: seq<Sending>, toClient: seq<Sending>): Ledger {
    var l1 := if Waits(l, c, true) then FlushStep(l, c, true, toBackend) else l;
    if Waits(l1, c, false) then FlushStep(l1, c, false, toClient) else l1
  }

  function SettleStep(l: Ledger, c: int): Ledger
    requires LinkedOk(l, c) && c in l.wires
  {
    var p := l.connections[c];
    if FateOf(Cleared(p)) == Keep then Touched(l, c, Settled(p), l.wires[c]) else Closed(l, c)
  }

  /** A round after its input: output, then whatever is due. */
  function FinishRound(l: Ledger, c: int, toBackend: seq<Sending>, toClient: seq<Sending>): Ledger {
    var l1 := FlushAll(l, c, toBackend, toClient);
    if LinkedOk(l1, c) && c in l1.wires then SettleStep(l1, c) else l1
  }

  lemma LinkedKnown(l: Ledger, c: int)
    requires BooksOk(l) && c in l.connections
    ensures LinkedOk(l, c) && c in l.wires
  {
    WiredClient(l, c);
  }
}
