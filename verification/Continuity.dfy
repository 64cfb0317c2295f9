/** What an event may do to the streams of a connection that survives it (src/lb/LoadBalancer.cpp). */
module Continuity {
  import opened Relay
  import opened Sockets
  import opened LbBooks
  import opened Dialing
  import opened LbEvents

  /** All four streams only grow. */
  predicate StreamsGrow(w: Wire, w': Wire) {
    w.fromClient <= w'.fromClient && w.fromBackends <= w'.fromBackends && w.toBackend <= w'.toBackend && w.toClient <= w'.toClient
  }

  /** A side that was shut down toward the backend, or toward the client before any stale end of stream, stays shut
      down, and no byte is sent that way. */
  predicate StaysShut(p: Pair, w: Wire, p': Pair, w': Wire) {
    && (p.backendWriteClosed ==> p'.backendWriteClosed && w'.toBackend == w.toBackend)
    && (p.clientWriteClosed && !p.metricsConnection && !w.staleEof ==>
          p'.clientWriteClosed && !p'.metricsConnection && w'.toClient == w.toClient)
  }

  /** Nothing follows the end of the client's stream. */
  predicate EndsOnce(w: Wire, w': Wire) {
    (w.clientEof ==> w'.clientEof && w'.fromClient == w.fromClient) && (w.staleEof ==> w'.staleEof)
  }

  /** A step that keeps the backend a connection has. */
  predicate Flows(p: Pair, w: Wire, p': Pair, w': Wire) {
    && StreamsGrow(w, w') && EndsOnce(w, w') && StaysShut(p, w, p', w')
    && w'.staleEof == w.staleEof && (p.backendFd != -1 ==> p'.backendFd == p.backendFd)
  }

  /** A step of client `c` that gives up no backend; the client does not come back once it is gone. */
  predicate Carries(l: Ledger, l': Ledger, c: int) {
    && (c in l'.connections ==> c in l.connections)
    && (c in l'.connections ==> c in l.wires && c in l'.wires && Flows(l.connections[c], l.wires[c], l'.connections[c], l'.wires[c]))
  }

  /** Fields of a record that have nothing to do with its backend. */
  predicate SameFlow(p: Pair, p': Pair) {
    p' == p.(backendFd := p'.backendFd, backendIndex := p'.backendIndex, backendConnecting := p'.backendConnecting)
  }

  /** A step that gives up the backend of client `c` while it is connecting, and may find another one. */
  predicate Swaps(l: Ledger, l': Ledger, c: int) {
    && (c in l'.connections ==> c in l.connections)
    && (c in l'.connections ==>
          && c in l.wires && c in l'.wires && l'.wires[c] == Freed(l.wires[c])
          && SameFlow(l.connections[c], l'.connections[c])
          && l.connections[c].backendFd != -1 && l.connections[c].backendConnecting)
  }

  /** What holds of a connection before and after any event: the streams grow, the present backend has been sent
      nothing if it is not the one from before, and shut sides stay silent. */
  predicate Continued(p: Pair, w: Wire, p': Pair, w': Wire) {
    && StreamsGrow(w, w') && EndsOnce(w, w') && StaysShut(p, w, p', w')
    && (p.backendFd != -1 && p'.backendFd != p.backendFd ==> w'.toBackend == "")
  }

  predicate Continues(l: Ledger, l': Ledger, c: int) {
    c in l.connections && c in l'.connections ==>
      c in l.wires && c in l'.wires && Continued(l.connections[c], l.wires[c], l'.connections[c], l'.wires[c])
  }

  // ----- chaining -----

  lemma CarriesNothing(l: Ledger, c: int)
    requires BooksOk(l)
    ensures Carries(l, l, c) && Continues(l, l, c)
  {
    if c in l.connections { WiredClient(l, c); }
    hide BooksOk;
  }

  lemma CarriesChain(l: Ledger, l1: Ledger, l2: Ledger, c: int)
    requires Carries(l, l1, c) && Carries(l1, l2, c)
    ensures Carries(l, l2, c)
  {
  }

  lemma CarriedContinues(l: Ledger, l': Ledger, c: int)
    requires Carries(l, l', c)
    ensures Continues(l, l', c)
  {
  }

  lemma CarriedThenSwapped(l: Ledger, l1: Ledger, l2: Ledger, c: int)
    requires BooksOk(l1) && Carries(l, l1, c) && Swaps(l1, l2, c)
    ensures Continues(l, l2, c)
  {
    if c in l2.connections {
      WiredClient(l1, c);
      NothingSentYet(l1.connections[c], l1.wires[c]);
    }
    hide BooksOk, RelayOk;
  }

  lemma NothingSentYet(p: Pair, w: Wire)
    requires RelayOk(p, w) && p.backendConnecting && p.backendFd != -1
    ensures w.toBackend == "" && !p.backendWriteClosed
  {
  }

  // ----- the steps of an event -----

  lemma ReadFlows(p: Pair, w: Wire, fromBackend: bool, data: string, eof: bool)
    requires !fromBackend && w.clientEof ==> data == ""
    ensures !fromBackend ==> Flows(p, w, ReadFromClient(p, data, eof), WireFromClient(w, data, eof))
    ensures fromBackend ==> Flows(p, w, ReadFromBackend(p, data, eof), WireFromBackend(w, data, eof))
  {
    hide Appended;
    if data == "" { assert w.fromClient + data == w.fromClient; }
  }

  lemma ReadCarries(l: Ledger, c: int, fromBackend: bool, answers: seq<Receipt>, drain: bool)
    requires MayRead(l, c, fromBackend, answers) && LinkedOk(l, c)
    ensures Carries(l, ReadStep(l, c, fromBackend, answers, drain).0, c)
  {
    var r := Pump(PendingOf(l.connections[c], fromBackend), answers, drain);
    PumpIsPlausible(PendingOf(l.connections[c], fromBackend), answers, drain,
                    if fromBackend then l.wires[c].backendEof else l.wires[c].clientEof);
    ReadFlows(l.connections[c], l.wires[c], fromBackend, r.data, r.end == SawEof);
    hide Pump, Flows, Plausible;
  }

  lemma SendFlows(p: Pair, w: Wire, toBackend: bool, count: nat)
    requires RelayOk(p, w) && count <= PendingOf(p, !toBackend)
    ensures toBackend ==>
              Flows(p, w, p.(toBackendOffset := p.toBackendOffset + count),
                    w.(toBackend := w.toBackend + p.toBackend[p.toBackendOffset..p.toBackendOffset + count]))
    ensures !toBackend ==>
              Flows(p, w, p.(toClientOffset := p.toClientOffset + count),
                    w.(toClient := w.toClient + p.toClient[p.toClientOffset..p.toClientOffset + count]))
  {
    assert |ToBackendPending(p)| == PendingOf(p, false) && |ToClientPending(p)| == PendingOf(p, true);
    assert w.toBackend + "" == w.toBackend && w.toClient + "" == w.toClient;
  }

  lemma FlushCarries(l: Ledger, c: int, toBackend: bool, answers: seq<Sending>)
    requires BooksOk(l) && MaySend(l, c, toBackend) && LinkedOk(l, c)
    ensures Carries(l, FlushStep(l, c, toBackend, answers), c)
  {
    var r := Push(PendingOf(l.connections[c], !toBackend), answers);
    WiredClient(l, c);
    SendFlows(l.connections[c], l.wires[c], toBackend, r.count);
    hide Push, Flows, BooksOk, RelayOk;
  }

  lemma SettledFlows(p: Pair, w: Wire)
    ensures Flows(p, w, Settled(p), w)
  {
  }

  lemma SettleCarries(l: Ledger, c: int)
    requires LinkedOk(l, c) && c in l.wires
    ensures Carries(l, SettleStep(l, c), c)
  {
    SettledFlows(l.connections[c], l.wires[c]);
    hide Flows, Settled, FateOf, Cleared;
  }

  lemma StandingCarries(l: Ledger, c: int)
    requires c in l.connections && c in l.wires
    ensures Carries(l, Standing(l, c), c)
  {
  }

  lemma ClosedCarries(l: Ledger, c: int)
    requires LinkedOk(l, c)
    ensures Carries(l, Closed(l, c), c) && Swaps(l, Closed(l, c), c)
  {
  }

  /** Only a client that was never shut down without a stale end can turn out to ask for the metrics page. */
  lemma AskingCarries(l: Ledger, c: int)
    requires BooksOk(l) && c in l.connections && c in l.wires && l.connections[c].backendFd == -1
    ensures Carries(l, Touched(l, c, l.connections[c].(metricsConnection := true), l.wires[c]), c)
  {
    WiredClient(l, c);
    hide BooksOk;
  }

  lemma MetricsCarries(l: Ledger, c: int, request: Receipt, page: string)
    requires LinkedOk(l, c) && c in l.wires && l.connections[c].metricsConnection
    ensures Carries(l, MetricsStep(l, c, request, page), c)
  {
  }

  // ----- attempts -----

  /** Attempts change nothing of a connection but its backend. */
  lemma {:induction false} TryAllKeeps(l: Ledger, c: int, tried: seq<nat>, dials: seq<Dial>, again: bool)
    requires |tried| <= |dials| && c in l.connections && c in l.wires
    ensures var l' := TryAll(l, c, tried, dials, again);
            c in l'.connections && c in l'.wires && l'.wires[c] == l.wires[c] && SameFlow(l.connections[c], l'.connections[c])
  {
    if tried != [] {
      var last := |tried| - 1;
      TryAllKeeps(l, c, tried[..last], dials, again);
      var before := TryAll(l, c, tried[..last], dials, again);
      if tried[last] < |before.backends| { TryOnceKeeps(before, c, tried[last], dials[last], again); }
      hide TryOnce;
    }
  }

  lemma TryOnceKeeps(l: Ledger, c: int, index: nat, d: Dial, again: bool)
    requires c in l.connections && c in l.wires && index < |l.backends|
    ensures var l' := TryOnce(l, c, index, d, again);
            c in l'.connections && c in l'.wires && l'.wires[c] == l.wires[c] && SameFlow(l.connections[c], l'.connections[c])
  {
  }

  lemma FirstTryCarries(l: Ledger, c: int, tried: seq<nat>, dials: seq<Dial>)
    requires |tried| <= |dials| && c in l.connections && c in l.wires && l.connections[c].backendFd == -1
    ensures Carries(l, TryAll(l, c, tried, dials, false), c)
  {
    TryAllKeeps(l, c, tried, dials, false);
    hide TryAll;
  }

  lemma FailoverSwaps(l: Ledger, c: int, dials: seq<Dial>, tried: seq<nat>)
    requires LinkedOk(l, c) && c in l.wires && |tried| <= |dials|
    requires l.connections[c].backendFd != -1 && l.connections[c].backendConnecting
    ensures Swaps(l, FailedOver(l, c, dials, tried), c)
  {
    var l0 := Detached(l, c);
    TryAllKeeps(l0, c, tried, dials, true);
    hide TryAll;
  }

  // ----- over a run -----

  /** Every event of a run continues every connection that survives it. */
  ghost predicate Traced(trace: seq<Ledger>) {
    && (forall k :: 0 <= k < |trace| ==> BooksOk(trace[k]))
    && (forall k :: 0 <= k < |trace| - 1 ==> AllContinue(trace[k], trace[k + 1]))
  }

  ghost predicate AllContinue(l: Ledger, l': Ledger) { forall c :: Continues(l, l', c) }

  lemma TraceBegins(l: Ledger)
    requires BooksOk(l)
    ensures Traced([l])
  {
    hide BooksOk;
  }

  lemma TraceGrows(trace: seq<Ledger>, l: Ledger)
    requires Traced(trace) && trace != [] && BooksOk(l) && AllContinue(trace[|trace| - 1], l)
    ensures Traced(trace + [l])
  {
    hide BooksOk, AllContinue;
  }

  lemma UntouchedContinues(l: Ledger, l': Ledger)
    requires BooksOk(l) && Older(l, l')
    ensures AllContinue(l, l')
  {
    forall c ensures Continues(l, l', c) {
      CarriesNothing(l, c);
    }
    hide BooksOk, Carries;
  }

  lemma OneContinues(l: Ledger, l': Ledger, c: int)
    requires BooksOk(l) && OnlyTouches(l, l', c) && Continues(l, l', c)
    ensures AllContinue(l, l')
  {
    forall d ensures Continues(l, l', d) {
      CarriesNothing(l, d);
      if d != c { assert Same(l.connections, l'.connections, d) && Same(l.wires, l'.wires, d); }
    }
    hide BooksOk, Carries;
  }

  /** The connection `c` of moment `i` is still there at moment `j`. */
  predicate Survives(trace: seq<Ledger>, i: nat, j: nat, c: int) {
    i <= j < |trace| && forall k :: i <= k <= j ==> c in trace[k].connections
  }

  lemma ContinuedChain(p: Pair, w: Wire, p1: Pair, w1: Wire, p2: Pair, w2: Wire)
    requires StreamsGrow(w, w1) && EndsOnce(w, w1) && Continued(p1, w1, p2, w2)
    ensures StreamsGrow(w, w2) && EndsOnce(w, w2)
    ensures StaysShut(p, w, p1, w1) && (w1.staleEof ==> w.staleEof) ==> StaysShut(p, w, p2, w2)
    ensures p.backendWriteClosed && p1.backendWriteClosed && w1.toBackend == w.toBackend ==>
              p2.backendWriteClosed && w2.toBackend == w.toBackend
  {
  }

  /** Over any run, through any number of failovers: the streams of a surviving connection only grow; what the client
      has sent is at every moment what the present backend has been sent followed by what waits; after a side was shut
      down nothing is sent that way, toward the client as long as no end of stream is stale. */
  lemma {:induction false} OverARun(trace: seq<Ledger>, i: nat, j: nat, c: int)
    requires Traced(trace) && Survives(trace, i, j, c)
    ensures c in trace[i].wires && c in trace[j].wires
    ensures var p, w, p', w' := trace[i].connections[c], trace[i].wires[c], trace[j].connections[c], trace[j].wires[c];
            && StreamsGrow(w, w') && EndsOnce(w, w')
            && p'.toBackendOffset <= |p'.toBackend| && w'.fromClient == w'.toBackend + ToBackendPending(p')
            && (p.backendWriteClosed ==> p'.backendWriteClosed && w'.toBackend == w.toBackend)
            && (!w'.staleEof ==> StaysShut(p, w, p', w'))
    decreases j - i
  {
    assert c in trace[i].connections && c in trace[j].connections;
    StreamIsExact(trace[j], c);
    WiredClient(trace[i], c);
    hide BooksOk, ToBackendPending, StaysShut;
    if i < j {
      assert Survives(trace, i, j - 1, c);
      OverARun(trace, i, j - 1, c);
      assert c in trace[j - 1].connections && AllContinue(trace[j - 1], trace[j - 1 + 1]) && Continues(trace[j - 1], trace[j], c);
      ContinuedChain(trace[i].connections[c], trace[i].wires[c], trace[j - 1].connections[c], trace[j - 1].wires[c],
                     trace[j].connections[c], trace[j].wires[c]);
    } else {
      ShutAlready(trace[i].connections[c], trace[i].wires[c]);
    }
  }

  lemma ShutAlready(p: Pair, w: Wire)
    ensures StaysShut(p, w, p, w) && StreamsGrow(w, w) && EndsOnce(w, w)
  {
  }
}
