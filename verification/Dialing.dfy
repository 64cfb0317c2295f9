/** Attempts to connect a client to a backend (src/lb/LoadBalancer.cpp): their effect and the order they are made in. */
module Dialing {
  import opened Collections
  import opened Relay
  import opened LbBooks
  import opened Routing

  /** The outcome of one attempt; `watched` says whether the event loop accepted the new descriptor. */
  datatype Dial = Refused | Dialled(fd: int, connecting: bool, watched: bool)

  predicate Works(d: Dial) { d.Dialled? && d.watched }

  /** A client that waits for a backend. */
  predicate Waiting(l: Ledger, c: int) {
    c in l.connections && l.connections[c].backendFd == -1 && !l.connections[c].metricsConnection
  }

  predicate Fresh(open: set<int>, d: Dial) { d.Dialled? ==> d.fd >= 0 && d.fd !in open }

  function Unwatched(p: Pair, index: nat, connecting: bool): Pair {
    p.(backendIndex := index, backendConnecting := connecting)
  }

  function Recorded(l: Ledger, index: nat, b: Backend): Ledger
    requires index < |l.backends|
  {
    l.(backends := l.backends[index := b])
  }

  /** The effect of one attempt at backend `index`; `again` marks an attempt made by a failover. */
  function TryOnce(l: Ledger, c: int, index: nat, d: Dial, again: bool): Ledger
    requires c in l.connections && c in l.wires && index < |l.backends|
  {
    var b := l.backends[index];
    if d.Refused? then Recorded(l, index, b.(failedConnections := b.failedConnections + 1))
    else if !d.watched then
      Touched(Recorded(l, index, b.(totalConnections := b.totalConnections + 1)), c,
              Unwatched(l.connections[c], index, d.connecting && !again), l.wires[c])
    else
      var tied := Tied(l, c, d.fd, index, d.connecting);
      if again then Recorded(tied, index, tied.backends[index].(failovers := tied.backends[index].failovers + 1)) else tied
  }

  lemma UnwatchedKeeps(p: Pair, w: Wire, index: nat, connecting: bool)
    requires RelayOk(p, w) && p.backendFd == -1
    ensures RelayOk(Unwatched(p, index, connecting), w)
  {
  }

  lemma UnwatchedLinks(connections: map<int, Pair>, back: map<int, int>, pool: nat, c: int, p: Pair)
    requires LinksOk(connections, back, pool) && c in connections && connections[c].backendFd == -1
    requires p.backendFd == -1 && p.clientFd == connections[c].clientFd
    ensures LinksOk(connections[c := p], back, pool)
  {
    forall b | b in back ensures back[b] != c {
      assert BackendLinked(b, back[b], connections);
    }
    assert ClientLinked(connections[c], c, back, pool);
  }

  lemma UnwatchedCounts(connections: map<int, Pair>, backends: seq<Backend>, c: int, p: Pair)
    requires CountsOk(connections, backends) && c in connections && connections[c].backendFd == -1 && p.backendFd == -1
    ensures CountsOk(connections[c := p], backends)
  {
    forall i | 0 <= i < |backends| ensures Attached(connections[c := p], i) == Attached(connections, i) {
    }
  }

  lemma UnwatchedOk(l: Ledger, c: int, index: nat, connecting: bool)
    requires BooksOk(l) && Waiting(l, c)
    ensures c in l.wires && var l' := Touched(l, c, Unwatched(l.connections[c], index, connecting), l.wires[c]);
            BooksOk(l') && OnlyTouches(l, l', c) && Waiting(l', c) && l'.open == l.open
  {
    WiredClient(l, c);
    var p := Unwatched(l.connections[c], index, connecting);
    UnwatchedKeeps(l.connections[c], l.wires[c], index, connecting);
    hide RelayOk, LinksOk, CountsOk, RelaysOk, FdsOk, Same;
    RelaysUpdated(l.connections, l.wires, c, p, l.wires[c]);
    UnwatchedLinks(l.connections, l.backendToClient, |l.backends|, c, p);
    UnwatchedCounts(l.connections, l.backends, c, p);
    Updated(l.connections, c, p);
    var l' := Touched(l, c, p, l.wires[c]);
    SameUpdated(l.connections, l'.connections, c, p);
    SameUpdated(l.wires, l'.wires, c, l.wires[c]);
  }

  lemma RecordedKeeps(l: Ledger, index: nat, b: Backend)
    requires BooksOk(l) && index < |l.backends| && b.connectionCount == l.backends[index].connectionCount
    ensures BooksOk(Recorded(l, index, b))
    ensures forall c :: OnlyTouches(l, Recorded(l, index, b), c)
  {
    RecordedOk(l, index, b);
    hide BooksOk;
    forall d: int ensures Same(l.connections, l.connections, d) && Same(l.wires, l.wires, d) {
    }
  }

  lemma TouchesChain(l: Ledger, l1: Ledger, l2: Ledger, c: int)
    requires OnlyTouches(l, l1, c) && OnlyTouches(l1, l2, c)
    ensures OnlyTouches(l, l2, c)
  {
    forall d | d != c ensures Same(l.connections, l2.connections, d) && Same(l.wires, l2.wires, d) {
      assert Same(l.connections, l1.connections, d) && Same(l1.connections, l2.connections, d);
      assert Same(l.wires, l1.wires, d) && Same(l1.wires, l2.wires, d);
    }
  }

  lemma TryFails(l: Ledger, c: int, index: nat, d: Dial, again: bool)
    requires BooksOk(l) && Waiting(l, c) && index < |l.backends| && !Works(d)
    ensures c in l.wires
    ensures var l' := TryOnce(l, c, index, d, again); BooksOk(l') && OnlyTouches(l, l', c) && Waiting(l', c) && l'.open == l.open
  {
    WiredClient(l, c);
    hide BooksOk, OnlyTouches, RelayOk, ClientLinked;
    var b := l.backends[index];
    if d.Refused? {
      RecordedKeeps(l, index, b.(failedConnections := b.failedConnections + 1));
    } else {
      var l1 := Recorded(l, index, b.(totalConnections := b.totalConnections + 1));
      RecordedKeeps(l, index, b.(totalConnections := b.totalConnections + 1));
      UnwatchedOk(l1, c, index, d.connecting && !again);
      TouchesChain(l, l1, TryOnce(l, c, index, d, again), c);
    }
  }

  lemma TryWorks(l: Ledger, c: int, index: nat, d: Dial, again: bool)
    requires BooksOk(l) && Waiting(l, c) && index < |l.backends| && Works(d) && Fresh(l.open, d)
    ensures c in l.wires
    ensures var l' := TryOnce(l, c, index, d, again);
            BooksOk(l') && OnlyTouches(l, l', c) && c in l'.connections && l'.connections[c] == Tie(l.connections[c], d.fd, index, d.connecting)
  {
    WiredClient(l, c);
    TiedOk(l, c, d.fd, index, d.connecting);
    hide BooksOk, OnlyTouches, RelayOk, ClientLinked;
    if again {
      var l1 := Tied(l, c, d.fd, index, d.connecting);
      var b := l1.backends[index].(failovers := l1.backends[index].failovers + 1);
      RecordedKeeps(l1, index, b);
      TouchesChain(l, l1, Recorded(l1, index, b), c);
    }
  }

  lemma TryHealth(l: Ledger, c: int, index: nat, d: Dial, again: bool)
    requires c in l.connections && c in l.wires && index < |l.backends|
    ensures HealthOf(TryOnce(l, c, index, d, again).backends) == HealthOf(l.backends)
  {
  }

  /** The effect of a row of attempts at the backends `tried`. */
  function TryAll(l: Ledger, c: int, tried: seq<nat>, dials: seq<Dial>, again: bool): Ledger
    requires |tried| <= |dials|
  {
    if tried == [] then l
    else
      var last := |tried| - 1;
      var before := TryAll(l, c, tried[..last], dials, again);
      if c in before.connections && c in before.wires && tried[last] < |before.backends|
      then TryOnce(before, c, tried[last], dials[last], again) else before
  }

  /** Every attempt but the last failed; the last one worked exactly when the whole row did. */
  predicate RowEnds(tried: seq<nat>, dials: seq<Dial>, ok: bool) {
    && |tried| <= |dials| && (ok ==> tried != [])
    && forall k :: 0 <= k < |tried| ==> (Works(dials[k]) <==> ok && k == |tried| - 1)
  }

  function HealthOf(backends: seq<Backend>): (r: seq<bool>)
    ensures |r| == |backends| && forall i :: 0 <= i < |backends| ==> r[i] == backends[i].healthy
  {
    seq(|backends|, i requires 0 <= i < |backends| => backends[i].healthy)
  }

  // ----- the order of a failover -----

  /** The healthy backends other than `failed`, in cyclic order after it. */
  function Others(healthy: seq<bool>, failed: nat): seq<nat>
    requires failed < |healthy|
  {
    Between(healthy, failed + 1, |healthy|) + Between(healthy, 0, failed)
  }

  /** Those among the first `attempts` indices after `failed`. */
  function Visited(healthy: seq<bool>, failed: nat, attempts: nat): seq<nat>
    requires failed < |healthy| && attempts < |healthy|
  {
    var n := |healthy|;
    if failed + 1 + attempts <= n then Between(healthy, failed + 1, failed + 1 + attempts)
    else Between(healthy, failed + 1, n) + Between(healthy, 0, failed + 1 + attempts - n)
  }

  /** The index a failover looks at in its round `attempt`. */
  function FailoverIndex(failed: nat, attempt: nat, n: nat): nat
    requires n > 0
  {
    ((failed + 1) % n + attempt) % n
  }

  lemma Wrapped(x: nat, n: nat)
    requires x < 2 * n
    ensures x % n == if x < n then x else x - n
  {
    if x >= n {
      assert (x - n) % n == x - n;
      assert x % n == (x - n) % n;
    }
  }

  lemma FailoverIndexIs(failed: nat, attempt: nat, n: nat)
    requires failed < n && attempt < n
    ensures FailoverIndex(failed, attempt, n) == if failed + 1 + attempt < n then failed + 1 + attempt else failed + 1 + attempt - n
    ensures FailoverIndex(failed, attempt, n) == failed <==> attempt == n - 1
  {
    Wrapped(failed + 1, n);
    Wrapped((failed + 1) % n + attempt, n);
  }

  lemma BetweenGrows(healthy: seq<bool>, low: nat, index: nat)
    requires low <= index < |healthy|
    ensures Between(healthy, low, index + 1) == Between(healthy, low, index) + if healthy[index] then [index] else []
  {
    hide Between;
    OneBetween(healthy, index);
    BetweenSplits(healthy, low, index, index + 1);
  }

  lemma VisitNext(healthy: seq<bool>, failed: nat, attempt: nat)
    requires failed < |healthy| && attempt < |healthy| - 1
    ensures FailoverIndex(failed, attempt, |healthy|) < |healthy|
    ensures var index := FailoverIndex(failed, attempt, |healthy|);
            Visited(healthy, failed, attempt + 1) == Visited(healthy, failed, attempt) + if healthy[index] then [index] else []
  {
    hide FailoverIndex, Between;
    FailoverIndexIs(failed, attempt, |healthy|);
    var index := FailoverIndex(failed, attempt, |healthy|);
    if failed + 1 + attempt < |healthy| {
      BetweenGrows(healthy, failed + 1, index);
    } else {
      BetweenGrows(healthy, 0, index);
      if index == 0 { Empty(healthy, 0); }
    }
  }

  /** The next index of a failover has not been visited before. */
  lemma VisitIsNew(healthy: seq<bool>, failed: nat, attempt: nat)
    requires failed < |healthy| && attempt < |healthy| - 1
    ensures FailoverIndex(failed, attempt, |healthy|) !in Visited(healthy, failed, attempt)
  {
    var n := |healthy|;
    FailoverIndexIs(failed, attempt, n);
    hide FailoverIndex, Between;
    if failed + 1 + attempt <= n {
      BetweenHolds(healthy, failed + 1, failed + 1 + attempt);
    } else {
      BetweenHolds(healthy, failed + 1, n);
      BetweenHolds(healthy, 0, failed + 1 + attempt - n);
    }
  }

  /** The first visits are the first of all the others. */
  lemma VisitedFirst(healthy: seq<bool>, failed: nat, attempts: nat)
    requires failed < |healthy| && attempts < |healthy|
    ensures Visited(healthy, failed, attempts) <= Others(healthy, failed)
  {
    var n := |healthy|;
    hide Between;
    if failed + 1 + attempts <= n {
      BetweenSplits(healthy, failed + 1, failed + 1 + attempts, n);
    } else {
      BetweenSplits(healthy, 0, failed + 1 + attempts - n, failed);
    }
  }

  lemma VisitedAll(healthy: seq<bool>, failed: nat)
    requires failed < |healthy|
    ensures Visited(healthy, failed, |healthy| - 1) == Others(healthy, failed)
    ensures Visited(healthy, failed, 0) == []
  {
    hide Between;
    Empty(healthy, failed + 1);
    if failed == 0 { Empty(healthy, 0); }
  }

  /** A failover may try every other healthy backend, each once, and never the failed one. */
  lemma OthersAreFair(healthy: seq<bool>, failed: nat)
    requires failed < |healthy|
    ensures forall i :: i in Others(healthy, failed) <==> 0 <= i < |healthy| && healthy[i] && i != failed
    ensures Distinct(Others(healthy, failed))
  {
    hide Between;
    BetweenIs(healthy, failed + 1, |healthy|);
    BetweenIs(healthy, 0, failed);
    var f, b := Between(healthy, failed + 1, |healthy|), Between(healthy, 0, failed);
    assert forall i :: 0 <= i < |f| ==> f[i] in f;
    assert forall i :: 0 <= i < |b| ==> b[i] in b;
  }

  // ----- the order of a first connection -----

  /** Round-robin mode: the selections `q` drawn so far, of which `attempt` have been acted on. */
  ghost predicate RobinTrack(healthy: seq<bool>, next0: nat, next: nat, attempt: nat, q: seq<nat>, tried: seq<nat>) {
    && |q| == (if attempt == 0 then 1 else attempt) && |q| <= |healthy|
    && q + Picks(healthy, next, |healthy| - |q|) == Picks(healthy, next0, |healthy|)
    && forall i :: i in tried <==> i in q[..attempt]
  }

  lemma RobinFirst(healthy: seq<bool>, next: nat)
    requires healthy != []
    ensures RobinTrack(healthy, next, Pick(healthy, next).1, 0, [Pick(healthy, next).0], [])
  {
    hide Pick;
  }

  lemma RobinActs(healthy: seq<bool>, next0: nat, next: nat, q: seq<nat>)
    requires RobinTrack(healthy, next0, next, 0, q, [])
    ensures RobinTrack(healthy, next0, next, 1, q, [q[0]])
  {
    assert q[..1] == [q[0]];
  }

  lemma RobinDraws(healthy: seq<bool>, next0: nat, next: nat, attempt: nat, q: seq<nat>, tried: seq<nat>)
    requires 0 < attempt < |healthy| && RobinTrack(healthy, next0, next, attempt, q, tried)
    ensures var (index, next') := Pick(healthy, next);
            RobinTrack(healthy, next0, next', attempt + 1, q + [index], if index in tried then tried else tried + [index])
  {
    hide Pick;
    var (index, next') := Pick(healthy, next);
    assert (q + [index])[..attempt + 1] == q + [index] && q[..attempt] == q;
    assert q + ([index] + Picks(healthy, next', |healthy| - |q| - 1)) == q + [index] + Picks(healthy, next', |healthy| - |q| - 1);
  }

  /** One round: the first choice, or the backend next in turn. */
  lemma RobinRound(healthy: seq<bool>, next0: nat, next: nat, next': nat, attempt: nat, q: seq<nat>, tried: seq<nat>, index: nat)
    requires attempt < |healthy| && RobinTrack(healthy, next0, next, attempt, q, tried)
    requires if attempt == 0 then q == [index] && tried == [] && next' == next else (index, next') == Pick(healthy, next)
    ensures RobinTrack(healthy, next0, next', attempt + 1, if attempt == 0 then q else q + [index],
                       if index in tried then tried else tried + [index])
  {
    hide Pick, Picks, RobinTrack;
    if attempt == 0 {
      RobinActs(healthy, next0, next, q);
      assert tried + [index] == [q[0]];
    } else {
      RobinDraws(healthy, next0, next, attempt, q, tried);
    }
  }

  /** After as many rounds as there are backends every healthy one has been tried. */
  lemma RobinDone(healthy: seq<bool>, next0: nat, next: nat, q: seq<nat>, tried: seq<nat>, i: nat)
    requires next0 < |healthy| && RobinTrack(healthy, next0, next, |healthy|, q, tried) && i < |healthy| && healthy[i]
    ensures i in tried
  {
    PicksCover(healthy, next0, |healthy|, i);
    assert q[..|healthy|] == q && q + [] == q;
  }

  /** As many selections as there are backends reach every healthy one. */
  lemma PicksCover(healthy: seq<bool>, next: nat, count: nat, i: nat)
    requires next < |healthy| && i < |healthy| && healthy[i] && count >= |healthy|
    ensures i in Picks(healthy, next, count)
  {
    hide Order, Picks;
    OrderIsFair(healthy, next);
    OrderIsShort(healthy, next);
    var o := Order(healthy, next);
    EachOnce(healthy, next);
    PicksGrow(healthy, next, |o|, count);
  }

  lemma OrderIsShort(healthy: seq<bool>, next: nat)
    requires next <= |healthy|
    ensures |Order(healthy, next)| <= |healthy|
  {
    BetweenIsShort(healthy, next, |healthy|);
    BetweenIsShort(healthy, 0, next);
  }

  lemma {:induction false} BetweenIsShort(healthy: seq<bool>, low: nat, high: nat)
    requires low <= high <= |healthy|
    ensures |Between(healthy, low, high)| <= high - low
    decreases high - low
  {
    if low < high { BetweenIsShort(healthy, low + 1, high); }
  }

  lemma {:induction false} PicksGrow(healthy: seq<bool>, next: nat, few: nat, many: nat)
    requires few <= many
    ensures Picks(healthy, next, few) <= Picks(healthy, next, many)
    decreases few
  {
    hide Pick;
    if few > 0 { PicksGrow(healthy, Pick(healthy, next).1, few - 1, many - 1); }
  }

  function UpTo(n: nat): (r: set<nat>)
    ensures |r| == n && forall i :: i in r <==> 0 <= i < n
  {
    if n == 0 then {} else UpTo(n - 1) + {n - 1}
  }

  function Elements(s: seq<nat>): (r: set<nat>)
    requires Distinct(s)
    ensures |r| == |s| && forall x :: x in r <==> x in s
  {
    if s == [] then {}
    else
      var front, last := s[..|s| - 1], s[|s| - 1];
      assert s == front + [last] && last !in front;
      Elements(front) + {last}
  }

  lemma SameSize(a: set<nat>, b: set<nat>)
    requires a <= b && |a| == |b|
    ensures a == b
  {
    assert b == a + (b - a);
  }

  /** As many different indices as there are indices are all of them. */
  lemma Pigeonhole(s: seq<nat>, n: nat)
    requires Distinct(s) && |s| == n && forall i :: 0 <= i < n ==> s[i] < n
    ensures forall i :: 0 <= i < n ==> i in s
  {
    hide Elements, UpTo;
    SameSize(Elements(s), UpTo(n));
    forall i | 0 <= i < n ensures i in s {
      assert i in UpTo(n);
    }
  }

  // ----- a row of attempts -----

  /** The marks say which backends have been tried. */
  predicate Marks(attempted: seq<bool>, tried: seq<nat>) {
    forall i :: 0 <= i < |attempted| ==> (attempted[i] <==> i in tried)
  }

  lemma MarksNothing(n: nat)
    ensures Marks(seq(n, i => false), [])
  {
  }

  lemma NotMarked(attempted: seq<bool>, tried: seq<nat>, i: nat)
    requires Marks(attempted, tried) && i < |attempted|
    ensures attempted[i] <==> i in tried
  {
  }

  lemma TriedAll(l0: Ledger, l: Ledger, c: int, dials: seq<Dial>, tried: seq<nat>, i: nat)
    requires DialTrack(l0, l, c, dials, tried, false) && |tried| == |l.backends| && i < |l.backends|
    ensures i in tried
  {
    hide BooksOk, OnlyTouches, TryAll;
    assert forall k :: 0 <= k < |tried| ==> tried[k] in tried;
    Pigeonhole(tried, |l.backends|);
  }

  /** Backends tried in vain so far. */
  ghost predicate DialTrack(l0: Ledger, l: Ledger, c: int, dials: seq<Dial>, tried: seq<nat>, again: bool) {
    && |tried| <= |dials| && l == TryAll(l0, c, tried, dials, again)
    && BooksOk(l) && Waiting(l, c) && l.open == l0.open && HealthOf(l.backends) == HealthOf(l0.backends) && OnlyTouches(l0, l, c)
    && (forall k :: 0 <= k < |tried| ==> !Works(dials[k]))
    && Distinct(tried) && forall i :: i in tried ==> i < |l.backends| && l.backends[i].healthy
  }

  lemma TrackNothing(l: Ledger, c: int, dials: seq<Dial>, again: bool)
    requires BooksOk(l)
    ensures OnlyTouches(l, l, c) && TryAll(l, c, [], dials, again) == l && RowEnds([], dials, false) && Distinct([])
    ensures Waiting(l, c) ==> DialTrack(l, l, c, dials, [], again)
  {
    hide BooksOk;
  }

  lemma TrackStep(l0: Ledger, l: Ledger, c: int, dials: seq<Dial>, tried: seq<nat>, again: bool, index: nat)
    requires DialTrack(l0, l, c, dials, tried, again)
    requires |tried| < |dials| && Fresh(l.open, dials[|tried|])
    requires index < |l.backends| && l.backends[index].healthy && index !in tried
    ensures c in l.wires
    ensures !Works(dials[|tried|]) ==>
              DialTrack(l0, TryOnce(l, c, index, dials[|tried|], again), c, dials, tried + [index], again)
    ensures Works(dials[|tried|]) ==>
              TrackEnds(l0, TryOnce(l, c, index, dials[|tried|], again), c, dials, tried + [index], again)
  {
    hide BooksOk, OnlyTouches, TryOnce;
    var d := dials[|tried|];
    assert (tried + [index])[..|tried|] == tried;
    if Works(d) { TryWorks(l, c, index, d, again); } else { TryFails(l, c, index, d, again); }
    TryHealth(l, c, index, d, again);
    TouchesChain(l0, l, TryOnce(l, c, index, d, again), c);
  }

  /** The last backend tried has taken the client. */
  ghost predicate TrackEnds(l0: Ledger, l: Ledger, c: int, dials: seq<Dial>, tried: seq<nat>, again: bool) {
    && RowEnds(tried, dials, true) && l == TryAll(l0, c, tried, dials, again) && BooksOk(l) && OnlyTouches(l0, l, c)
    && c in l.connections && l.connections[c].backendFd != -1 && !l.connections[c].metricsConnection
    && HealthOf(l.backends) == HealthOf(l0.backends)
    && Distinct(tried) && forall i :: i in tried ==> i < |l.backends| && l.backends[i].healthy
  }

  lemma EndFacts(l0: Ledger, l: Ledger, c: int, dials: seq<Dial>, tried: seq<nat>, again: bool)
    requires TrackEnds(l0, l, c, dials, tried, again)
    ensures RowEnds(tried, dials, true) && l == TryAll(l0, c, tried, dials, again) && BooksOk(l) && OnlyTouches(l0, l, c)
    ensures c in l.connections && l.connections[c].backendFd != -1 && !l.connections[c].metricsConnection
    ensures |l.backends| == |l0.backends|
    ensures Distinct(tried) && forall i :: i in tried ==> i < |l0.backends| && HealthOf(l0.backends)[i]
  {
    hide BooksOk, OnlyTouches, TryAll, RowEnds, Distinct;
    assert |HealthOf(l.backends)| == |HealthOf(l0.backends)|;
  }

  lemma TrackFacts(l0: Ledger, l: Ledger, c: int, dials: seq<Dial>, tried: seq<nat>, again: bool)
    requires DialTrack(l0, l, c, dials, tried, again)
    ensures BooksOk(l) && OnlyTouches(l0, l, c) && Waiting(l, c) && l.open == l0.open && HealthOf(l.backends) == HealthOf(l0.backends)
    ensures RowEnds(tried, dials, false) && l == TryAll(l0, c, tried, dials, again) && |l.backends| == |l0.backends|
    ensures Distinct(tried) && forall i :: i in tried ==> i < |l0.backends| && HealthOf(l0.backends)[i]
  {
    hide BooksOk, OnlyTouches, TryAll, Distinct;
    assert |HealthOf(l.backends)| == |HealthOf(l0.backends)|;
  }

  lemma TakenBack(connections: map<int, Pair>, backends: seq<Backend>, open: set<int>, wires: map<int, Wire>,
                  c: int, index: nat, dial: Dial, again: bool)
    requires c in connections && connections[c].backendFd == -1 && c in wires && index < |backends| && dial.Dialled? && dial.fd !in open
    ensures connections[c := Tie(connections[c], dial.fd, index, dial.connecting)]
                       [c := Tie(connections[c], dial.fd, index, dial.connecting).(backendFd := -1, backendConnecting := dial.connecting && !again)]
         == connections[c := Unwatched(connections[c], index, dial.connecting && !again)]
    ensures backends[index := Plus(backends[index])][index := Minus(Plus(backends[index]))]
         == backends[index := backends[index].(totalConnections := backends[index].totalConnections + 1)]
    ensures open + {dial.fd} - {dial.fd} == open && wires[c := wires[c]] == wires
  {
  }
}
