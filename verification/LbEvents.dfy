/** What one event does to the load balancer's books (src/lb/LoadBalancer.cpp, the body of the event loop). */
module LbEvents {
  import opened Collections
  import opened Relay
  import opened Sockets
  import opened LbBooks
  import opened Dialing

  /** What the event loop was told about a descriptor. */
  datatype Event = Event(readable: bool, writable: bool, failed: bool, hungUp: bool, readHungUp: bool)

  /** What looking at a client's first bytes, without taking them, may yield. */
  datatype Peek = Peeked(text: string) | PeekNothing | PeekFailed

  /** What the kernel answers during one event. */
  datatype Answers = Answers(
    peek: Peek, request: Receipt, page: string, fromClient: seq<Receipt>, fromBackend: seq<Receipt>,
    socketOk: bool, toBackend: seq<Sending>, toClient: seq<Sending>, dials: seq<Dial>)

  /** The answers fit what has happened on the descriptors so far. */
  predicate Possible(l: Ledger, c: int, s: Answers) {
    && c in l.connections && c in l.wires && (s.peek.Peeked? ==> s.peek.text != "")
    && Plausible(s.fromClient, l.wires[c].clientEof) && Plausible(s.fromBackend, l.wires[c].backendEof)
    && |s.dials| >= |l.backends| && forall k :: 0 <= k < |s.dials| ==> Fresh(l.open - {l.connections[c].backendFd}, s.dials[k])
  }

  /** What `accept` may answer; `watched` says whether the event loop took the new descriptor. */
  datatype Incoming = Client(fd: int, ip: string, watched: bool) | AcceptInterrupted | AcceptEnds

  /** Each client comes on a descriptor that is not open at that time. */
  predicate Arrivals(open: set<int>, room: nat, incoming: seq<Incoming>)
    decreases |incoming|
  {
    if incoming == [] || incoming[0].AcceptEnds? then true
    else if incoming[0].AcceptInterrupted? then Arrivals(open, room, incoming[1..])
    else
      var fd := incoming[0].fd;
      && fd >= 0 && fd !in open
      && if room == 0 || !incoming[0].watched then Arrivals(open, room, incoming[1..])
         else Arrivals(open + {fd}, room - 1, incoming[1..])
  }

  /** One thing that happens to the load balancer. */
  datatype Round =
    | Accepting(incoming: seq<Incoming>)
    | Ready(fd: int, event: Event, answers: Answers)
    | CheckOpened(fd: int)
    | CheckClosed(fd: int)
    | Judged(index: nat, healthy: bool)

  /** The books after every client that comes was taken in, as long as there is room. */
  function TakenIn(l: Ledger, incoming: seq<Incoming>): Ledger
    decreases |incoming|
  {
    if incoming == [] || incoming[0].AcceptEnds? then l
    else if incoming[0].Client? && |l.connections| < MAX_CONNECTIONS && incoming[0].watched
    then TakenIn(Accepted(l, incoming[0].fd, incoming[0].ip), incoming[1..])
    else TakenIn(l, incoming[1..])
  }

  const METRICS_PREFIX := "GET /metrics "

  // ----- looking for a backend -----

  /** The row of attempts ended with one that worked. */
  predicate RowWorks(tried: seq<nat>, dials: seq<Dial>) { tried != [] && |tried| <= |dials| && Works(dials[|tried| - 1]) }

  lemma RowIs(tried: seq<nat>, dials: seq<Dial>, ok: bool)
    requires RowEnds(tried, dials, ok)
    ensures RowWorks(tried, dials) == ok
  {
  }

  lemma RowFits(tried: seq<nat>, dials: seq<Dial>, ok: bool)
    requires RowEnds(tried, dials, ok)
    ensures |tried| <= |dials|
  {
  }

  lemma NoRow(dials: seq<Dial>)
    ensures RowEnds([], dials, RowWorks([], dials)) && !RowWorks([], dials)
  {
  }

  /** The backend of client `c` is given up and the backends `tried` are tried instead; without success the client goes too. */
  function FailedOver(l: Ledger, c: int, dials: seq<Dial>, tried: seq<nat>): Ledger
    requires LinkedOk(l, c) && c in l.wires && l.connections[c].backendFd != -1
  {
    if |tried| > |dials| then l
    else
      var l1 := TryAll(Detached(l, c), c, tried, dials, true);
      if RowWorks(tried, dials) || !LinkedOk(l1, c) then l1 else Closed(l1, c)
  }

  /** An error on a descriptor. */
  function SocketStep(l: Ledger, c: int, isBackend: bool, dials: seq<Dial>, tried: seq<nat>): Ledger
    requires LinkedOk(l, c) && c in l.wires
  {
    if isBackend && l.connections[c].backendFd != -1 && l.connections[c].backendConnecting then FailedOver(l, c, dials, tried)
    else Closed(l, c)
  }

  // ----- input from a client -----

  datatype Look = Waits | LooksBroken | AsksForMetrics | AsksForBackend

  /** What a look at a client's first bytes decides. */
  function LookAt(peek: Peek): Look {
    if peek.PeekFailed? then LooksBroken
    else if peek.PeekNothing? then AsksForBackend
    else if |peek.text| < |METRICS_PREFIX| && peek.text == METRICS_PREFIX[..|peek.text|] then Waits
    else if METRICS_PREFIX <= peek.text then AsksForMetrics
    else AsksForBackend
  }

  /** The look without taking: a first part of the metrics prefix is not enough to decide. */
  method LookFirst(peek: Peek) returns (look: Look)
    ensures look == LookAt(peek)
  {
    if peek.Peeked? {
      if |peek.text| < |METRICS_PREFIX| && METRICS_PREFIX[..|peek.text|] == peek.text {
        return Waits;
      }
      if |peek.text| >= |METRICS_PREFIX| && peek.text[..|METRICS_PREFIX|] == METRICS_PREFIX {
        return AsksForMetrics;
      }
    } else if peek.PeekFailed? {
      return LooksBroken;
    }
    look := AsksForBackend;
  }

  /** The page is put out for a request that asks for it. */
  function MetricsStep(l: Ledger, c: int, request: Receipt, page: string): Ledger
    requires LinkedOk(l, c) && c in l.wires
  {
    if request.Data? && METRICS_PREFIX <= request.bytes then Touched(l, c, PageServed(l.connections[c], page), l.wires[c])
    else Closed(l, c)
  }

  function ReadOn(l: Ledger, c: int, answers: seq<Receipt>): (Ledger, bool, seq<Receipt>) {
    if MayRead(l, c, false, answers) && LinkedOk(l, c) then ReadStep(l, c, false, answers, false) else (l, false, answers)
  }

  /** A client without a backend gets one from the row `tried`, and is read from. */
  function FirstBackend(l: Ledger, c: int, s: Answers, tried: seq<nat>): (Ledger, bool, seq<Receipt>) {
    if |tried| > |s.dials| then (l, false, s.fromClient)
    else
      var l1 := TryAll(l, c, tried, s.dials, false);
      if RowWorks(tried, s.dials) then ReadOn(l1, c, s.fromClient)
      else (if LinkedOk(l1, c) then Closed(l1, c) else l1, false, s.fromClient)
  }

  /** Input from a client: the books, whether the event goes on, and the answers not used. */
  function ClientStep(l: Ledger, c: int, s: Answers, tried: seq<nat>): (Ledger, bool, seq<Receipt>)
    requires LinkedOk(l, c) && c in l.wires
  {
    var p := l.connections[c];
    if p.metricsConnection then (MetricsStep(l, c, s.request, s.page), false, s.fromClient)
    else if p.backendFd != -1 then ReadOn(l, c, s.fromClient)
    else if LookAt(s.peek) == Waits then (l, false, s.fromClient)
    else if LookAt(s.peek) == LooksBroken then (Closed(l, c), false, s.fromClient)
    else if LookAt(s.peek) == AsksForMetrics then
      (MetricsStep(Touched(l, c, p.(metricsConnection := true), l.wires[c]), c, s.request, s.page), false, s.fromClient)
    else FirstBackend(l, c, s, tried)
  }

  /** All the input of a client's event. */
  function ClientInput(l: Ledger, c: int, e: Event, s: Answers, tried: seq<nat>): (Ledger, bool)
    requires LinkedOk(l, c) && c in l.wires
  {
    var (l1, go, rest) := if e.readable then ClientStep(l, c, s, tried) else (l, true, s.fromClient);
    if go && (e.readHungUp || e.hungUp) && MayRead(l1, c, false, rest) && LinkedOk(l1, c) then
      var (l2, go2, _) := ReadStep(l1, c, false, rest, true);
      (l2, go2)
    else (l1, go)
  }

  // ----- input from a backend -----

  /** The connection to the backend stands. */
  function Standing(l: Ledger, c: int): Ledger
    requires c in l.connections && c in l.wires
  {
    Touched(l, c, l.connections[c].(backendConnecting := false), l.wires[c])
  }

  /** All the input of a backend's event, and the outcome of a connection attempt under way. */
  function BackendInput(l: Ledger, c: int, e: Event, s: Answers, tried: seq<nat>): (Ledger, bool)
    requires MayRead(l, c, true, s.fromBackend) && LinkedOk(l, c)
  {
    var (l1, go) := ReadBoth(l, c, true, e.readable, e.readHungUp || e.hungUp, s.fromBackend);
    if !go || !e.writable || !LinkedOk(l1, c) || c !in l1.wires || l1.connections[c].backendFd == -1
       || !l1.connections[c].backendConnecting then (l1, go)
    else if s.socketOk then (Standing(l1, c), true)
    else (FailedOver(l1, c, s.dials, tried), false)
  }

  // ----- the whole event -----

  /** One event on a descriptor of client `c` or of its backend; `tried` are the backends it tried. */
  function Served(l: Ledger, c: int, isBackend: bool, e: Event, s: Answers, tried: seq<nat>): Ledger
    requires LinkedOk(l, c) && c in l.wires && (isBackend ==> MayRead(l, c, true, s.fromBackend))
  {
    if e.failed || (e.hungUp && !e.readable) then SocketStep(l, c, isBackend, s.dials, tried)
    else
      var (l1, go) := if isBackend then BackendInput(l, c, e, s, tried) else ClientInput(l, c, e, s, tried);
      if go then FinishRound(l1, c, s.toBackend, s.toClient) else l1
  }

  // ----- how far an event looks for a backend -----

  /** After a failure the other healthy backends were tried in cyclic order, up to one that worked; or all of them, and
      the client is gone. */
  predicate OthersTried(l: Ledger, l': Ledger, c: int, dials: seq<Dial>, tried: seq<nat>)
    requires c in l.connections
  {
    && l.connections[c].backendIndex < |l.backends|
    && var others := Others(HealthOf(l.backends), l.connections[c].backendIndex);
       tried <= others && (RowWorks(tried, dials) || (tried == others && c !in l'.connections))
  }

  /** For a new client healthy backends were tried, each once, up to one that worked; or all of them, or none because
      there was none to begin with, and the client is gone. */
  predicate FirstTried(l: Ledger, l': Ledger, c: int, dials: seq<Dial>, tried: seq<nat>, unroutable: bool) {
    && Distinct(tried) && (forall i :: i in tried ==> i < |l.backends| && HealthOf(l.backends)[i])
    && (RowWorks(tried, dials)
        || (c !in l'.connections
            && if tried == [] then unroutable else forall i :: 0 <= i < |l.backends| && HealthOf(l.backends)[i] ==> i in tried))
  }

  /** The event tells that the backend being connected has failed. */
  predicate FailsOver(l: Ledger, c: int, isBackend: bool, e: Event, s: Answers)
    requires LinkedOk(l, c) && (isBackend ==> MayRead(l, c, true, s.fromBackend))
  {
    && isBackend && l.connections[c].backendConnecting && (e.failed || (e.hungUp && !e.readable) || ConnectFails(l, c, e, s))
  }

  /** The reads go well, and then the socket turns out to have an error. */
  predicate ConnectFails(l: Ledger, c: int, e: Event, s: Answers)
    requires LinkedOk(l, c) && MayRead(l, c, true, s.fromBackend)
  {
    e.writable && !s.socketOk && ReadBoth(l, c, true, e.readable, e.readHungUp || e.hungUp, s.fromBackend).1
  }

  /** Reading does not change what there is to try. */
  lemma SameOthers(l: Ledger, l1: Ledger, l': Ledger, c: int, dials: seq<Dial>, tried: seq<nat>)
    requires Undisturbed(l, l1, c) && OthersTried(l1, l', c, dials, tried)
    ensures OthersTried(l, l', c, dials, tried)
  {
    hide Others;
  }

  /** The event makes a client ask for its first backend. */
  predicate SeeksFirst(l: Ledger, c: int, isBackend: bool, e: Event, s: Answers)
    requires LinkedOk(l, c)
  {
    !isBackend && !e.failed && e.readable && AsksFirst(l.connections[c], s.peek)
  }

  /** A client that asks for its first backend on being read has been given one, if the event goes on. */
  predicate SoughtFirst(l: Ledger, l': Ledger, c: int, readable: bool, s: Answers, tried: seq<nat>, go: bool, unroutable: bool)
    requires c in l.connections
  {
    if readable && AsksFirst(l.connections[c], s.peek)
    then FirstTried(l, l', c, s.dials, tried, unroutable) && (go ==> RowWorks(tried, s.dials))
    else tried == []
  }

  lemma SoughtNothing(l: Ledger, c: int, s: Answers, unroutable: bool)
    requires c in l.connections
    ensures SoughtFirst(l, l, c, false, s, [], true, unroutable)
  {
  }

  /** What happens after an attempt that worked does not matter. */
  lemma SoughtStays(l: Ledger, l1: Ledger, l': Ledger, c: int, readable: bool, s: Answers, tried: seq<nat>, go: bool, unroutable: bool)
    requires c in l.connections && SoughtFirst(l, l1, c, readable, s, tried, true, unroutable)
    ensures SoughtFirst(l, l', c, readable, s, tried, go, unroutable)
  {
  }

  predicate AsksFirst(p: Pair, peek: Peek) { !p.metricsConnection && p.backendFd == -1 && LookAt(peek) == AsksForBackend }

  /** An event gives up only after it has tried every backend it could. */
  predicate Thorough(l: Ledger, l': Ledger, c: int, isBackend: bool, e: Event, s: Answers, tried: seq<nat>, unroutable: bool)
    requires LinkedOk(l, c) && (isBackend ==> MayRead(l, c, true, s.fromBackend))
  {
    if FailsOver(l, c, isBackend, e, s) then OthersTried(l, l', c, s.dials, tried)
    else if SeeksFirst(l, c, isBackend, e, s) then FirstTried(l, l', c, s.dials, tried, unroutable)
    else tried == []
  }

  lemma NextTakenIn(l: Ledger, incoming: seq<Incoming>, k: nat)
    requires k < |incoming|
    ensures TakenIn(l, incoming[k..]) ==
              if incoming[k].AcceptEnds? then l
              else if incoming[k].Client? && |l.connections| < MAX_CONNECTIONS && incoming[k].watched
              then TakenIn(Accepted(l, incoming[k].fd, incoming[k].ip), incoming[k + 1..])
              else TakenIn(l, incoming[k + 1..])
  {
    hide Accepted;
    assert incoming[k..][1..] == incoming[k + 1..];
  }

  lemma TakenInEnds(l: Ledger, incoming: seq<Incoming>)
    ensures incoming == [] ==> TakenIn(l, incoming) == l
  {
  }

  lemma NextArrival(open: set<int>, room: nat, incoming: seq<Incoming>, k: nat)
    requires k < |incoming| && Arrivals(open, room, incoming[k..])
    ensures incoming[k].AcceptInterrupted? ==> Arrivals(open, room, incoming[k + 1..])
    ensures incoming[k].Client? ==>
              var fd := incoming[k].fd;
              && fd >= 0 && fd !in open
              && if room == 0 || !incoming[k].watched then Arrivals(open, room, incoming[k + 1..])
                 else Arrivals(open + {fd}, room - 1, incoming[k + 1..])
  {
    assert incoming[k..][1..] == incoming[k + 1..];
  }

  /** A backend's descriptor leads to its client, which may be read from it. */
  lemma BackendKnown(l: Ledger, fd: int, s: Answers)
    requires BooksOk(l) && fd in l.backendToClient && (l.backendToClient[fd] in l.connections ==> Possible(l, l.backendToClient[fd], s))
    ensures l.backendToClient[fd] in l.connections && l.connections[l.backendToClient[fd]].backendFd == fd && fd != -1
    ensures MayRead(l, l.backendToClient[fd], true, s.fromBackend)
  {
    assert BackendLinked(fd, l.backendToClient[fd], l.connections);
    hide RelayOk;
    BuffersFit(l, l.backendToClient[fd]);
    Pending(l.connections[l.backendToClient[fd]]);
  }
}
