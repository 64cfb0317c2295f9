/** The request lifecycle of one reactor (src/server/Reactor.cpp): connections, generations and jobs in flight. */
module Reactor {
  import opened Collections

  /** A connection: `parsed` and `answered` list its requests in the order they were parsed and in the order
      their responses entered the output queue. */
  datatype Conn = Conn(closeAfterWrite: bool, pendingOutput: bool, parsed: seq<nat>, answered: seq<nat>)

  /** Which events epoll is asked for; hang-ups of the peer are always among them. */
  datatype Interest = ForInput | ForBoth | ForHangUp

  datatype State = State(generation: nat, requestInFlight: bool, redisPending: bool, deadline: int, interest: Interest)

  /** A job handed to the worker pool: which connection waits for it, and for which request. */
  datatype Job = Job(fd: int, generation: nat, close: bool, request: nat)

  /** Everything a reactor keeps; `jobs` are the jobs whose outcome has not arrived, by ticket. */
  datatype Desk = Desk(
    connections: map<int, Conn>, states: map<int, State>, nextGeneration: nat, jobs: map<nat, Job>,
    tickets: nat, requests: nat, active: nat)

  // ----- the invariant -----

  predicate OrderOk(c: Conn, s: State) {
    && (s.redisPending <==> s.requestInFlight)
    && if s.redisPending then c.parsed != [] && c.answered == c.parsed[..|c.parsed| - 1] else c.answered == c.parsed
  }

  predicate ConnsOk(connections: map<int, Conn>, states: map<int, State>, next: nat) {
    && connections.Keys == states.Keys
    && (forall fd :: fd in connections ==> fd in states && OrderOk(connections[fd], states[fd]) && 0 < states[fd].generation <= next)
    && (forall fd, other :: fd in states && other in states && fd != other ==> states[fd].generation != states[other].generation)
  }

  /** The last request parsed on the connection. */
  predicate Awaits(c: Conn, request: nat) { c.parsed != [] && c.parsed[|c.parsed| - 1] == request }

  /** A job's connection, if it still lives, waits for exactly this job. */
  predicate JobOk(job: Job, connections: map<int, Conn>, states: map<int, State>, next: nat) {
    && 0 < job.generation <= next
    && (job.fd in states && states[job.fd].generation == job.generation ==>
          && states[job.fd].redisPending && job.fd in connections && Awaits(connections[job.fd], job.request))
    && (forall fd :: fd in states && states[fd].generation == job.generation ==> fd == job.fd)
  }

  predicate JobsOk(jobs: map<nat, Job>, tickets: nat, connections: map<int, Conn>, states: map<int, State>, next: nat) {
    && (forall t :: t in jobs ==> t < tickets && JobOk(jobs[t], connections, states, next))
    && (forall t, u :: t in jobs && u in jobs && t != u ==> jobs[t].generation != jobs[u].generation)
  }

  predicate DeskOk(d: Desk) {
    && ConnsOk(d.connections, d.states, d.nextGeneration)
    && JobsOk(d.jobs, d.tickets, d.connections, d.states, d.nextGeneration)
    && d.active == |d.connections|
  }

  /** A connection that is not pending has no job in flight; one that is has at most one. */
  lemma OneJobEach(d: Desk, fd: int, t: nat, u: nat)
    requires DeskOk(d) && fd in d.states && t in d.jobs && d.jobs[t].fd == fd && d.jobs[t].generation == d.states[fd].generation
    ensures d.states[fd].redisPending
    ensures u in d.jobs && d.jobs[u].generation == d.states[fd].generation ==> u == t
  {
    assert JobOk(d.jobs[t], d.connections, d.states, d.nextGeneration);
  }

  // ----- accepting -----

  function Arrived(d: Desk, fd: int, deadline: int): Desk {
    d.(connections := d.connections[fd := Conn(false, false, [], [])],
       states := d.states[fd := State(d.nextGeneration + 1, false, false, deadline, ForInput)],
       nextGeneration := d.nextGeneration + 1, active := d.active + 1)
  }

  lemma ArrivedConns(connections: map<int, Conn>, states: map<int, State>, next: nat, fd: int, c: Conn, s: State)
    requires ConnsOk(connections, states, next) && fd !in connections && OrderOk(c, s) && s.generation == next + 1
    ensures ConnsOk(connections[fd := c], states[fd := s], next + 1)
  {
    hide OrderOk;
    assert fd !in connections.Keys;
    Updated(connections, fd, c);
    Updated(states, fd, s);
  }

  lemma ArrivedJob(job: Job, connections: map<int, Conn>, states: map<int, State>, next: nat, fd: int, c: Conn, s: State)
    requires JobOk(job, connections, states, next) && fd !in states && s.generation == next + 1
    ensures JobOk(job, connections[fd := c], states[fd := s], next + 1)
  {
  }

  lemma ArrivedOk(d: Desk, fd: int, deadline: int)
    requires DeskOk(d) && fd !in d.connections
    ensures DeskOk(Arrived(d, fd, deadline))
  {
    hide OrderOk, ConnsOk, JobsOk;
    var c, s := Conn(false, false, [], []), State(d.nextGeneration + 1, false, false, deadline, ForInput);
    SameKeys(d);
    assert fd !in d.connections.Keys && fd !in d.states;
    Updated(d.connections, fd, c);
    NewIsOrdered(d.nextGeneration + 1, deadline);
    ArrivedConns(d.connections, d.states, d.nextGeneration, fd, c, s);
    ArrivedJobs(d.jobs, d.tickets, d.connections, d.states, d.nextGeneration, fd, c, s);
  }

  lemma ArrivedJobs(jobs: map<nat, Job>, tickets: nat, connections: map<int, Conn>, states: map<int, State>, next: nat, fd: int, c: Conn, s: State)
    requires JobsOk(jobs, tickets, connections, states, next) && fd !in states && s.generation == next + 1
    ensures JobsOk(jobs, tickets, connections[fd := c], states[fd := s], next + 1)
  {
    hide JobOk;
    forall t | t in jobs ensures JobOk(jobs[t], connections[fd := c], states[fd := s], next + 1) {
      ArrivedJob(jobs[t], connections, states, next, fd, c, s);
    }
  }

  lemma NewIsOrdered(generation: nat, deadline: int)
    ensures OrderOk(Conn(false, false, [], []), State(generation, false, false, deadline, ForInput))
  {
  }

  // ----- removing -----

  function Removed(d: Desk, fd: int): Desk {
    if fd !in d.connections then d
    else d.(connections := d.connections - {fd}, states := d.states - {fd}, active := if d.active > 0 then d.active - 1 else 0)
  }

  lemma RemovedOk(d: Desk, fd: int)
    requires DeskOk(d)
    ensures DeskOk(Removed(d, fd)) && fd !in Removed(d, fd).connections
  {
    hide OrderOk;
    if fd in d.connections {
      Shrunk(d.connections, fd);
      assert fd in d.states.Keys;
      Shrunk(d.states, fd);
      var d' := Removed(d, fd);
      forall t | t in d'.jobs ensures t < d'.tickets && JobOk(d'.jobs[t], d'.connections, d'.states, d'.nextGeneration) {
        assert JobOk(d.jobs[t], d.connections, d.states, d.nextGeneration);
      }
    }
  }

  // ----- one connection changes -----

  function Changed(d: Desk, fd: int, c: Conn, s: State): Desk {
    d.(connections := d.connections[fd := c], states := d.states[fd := s])
  }

  /** A change that leaves the connection without a job. */
  lemma ChangedIdle(d: Desk, fd: int, c: Conn, s: State)
    requires DeskOk(d) && fd in d.connections && fd in d.states && OrderOk(c, s) && s.generation == d.states[fd].generation
    requires forall t :: t in d.jobs ==> d.jobs[t].generation != s.generation
    ensures DeskOk(Changed(d, fd, c, s))
  {
    hide OrderOk;
    Updated(d.connections, fd, c);
    Updated(d.states, fd, s);
    var d' := Changed(d, fd, c, s);
    forall t | t in d'.jobs ensures t < d'.tickets && JobOk(d'.jobs[t], d'.connections, d'.states, d'.nextGeneration) {
      assert JobOk(d.jobs[t], d.connections, d.states, d.nextGeneration);
    }
  }

  /** A change that does not touch what the connection waits for. */
  lemma ChangedAlike(d: Desk, fd: int, c: Conn, s: State)
    requires DeskOk(d) && fd in d.connections && fd in d.states && OrderOk(c, s) && s.generation == d.states[fd].generation
    requires s.redisPending == d.states[fd].redisPending && c.parsed == d.connections[fd].parsed
    ensures DeskOk(Changed(d, fd, c, s))
  {
    hide OrderOk;
    Updated(d.connections, fd, c);
    Updated(d.states, fd, s);
    var d' := Changed(d, fd, c, s);
    forall t | t in d'.jobs ensures t < d'.tickets && JobOk(d'.jobs[t], d'.connections, d'.states, d'.nextGeneration) {
      assert JobOk(d.jobs[t], d.connections, d.states, d.nextGeneration);
    }
  }

  /** A connection that is not pending has no job. */
  lemma IdleHasNoJob(d: Desk, fd: int)
    requires DeskOk(d) && fd in d.states && !d.states[fd].redisPending
    ensures forall t :: t in d.jobs ==> d.jobs[t].generation != d.states[fd].generation
  {
    hide OrderOk;
    forall t | t in d.jobs ensures d.jobs[t].generation != d.states[fd].generation {
      assert JobOk(d.jobs[t], d.connections, d.states, d.nextGeneration);
    }
  }

  // ----- a request is parsed -----

  /** ... and answered at once. */
  function AnsweredAtOnce(d: Desk, fd: int, close: bool): Desk
    requires fd in d.connections && fd in d.states
  {
    var c := d.connections[fd];
    Changed(d, fd, c.(parsed := c.parsed + [d.requests], answered := c.answered + [d.requests], pendingOutput := true,
                      closeAfterWrite := c.closeAfterWrite || close), d.states[fd]).(requests := d.requests + 1)
  }

  /** ... and handed to the worker pool. */
  function Deferred(d: Desk, fd: int, close: bool): Desk
    requires fd in d.connections && fd in d.states
  {
    var c, s := d.connections[fd], d.states[fd];
    Changed(d, fd, c.(parsed := c.parsed + [d.requests]), s.(requestInFlight := true, redisPending := true))
      .(jobs := d.jobs[d.tickets := Job(fd, s.generation, close, d.requests)], tickets := d.tickets + 1, requests := d.requests + 1)
  }

  lemma AnsweredAtOnceOk(d: Desk, fd: int, close: bool)
    requires DeskOk(d) && fd in d.connections && fd in d.states && !d.states[fd].redisPending
    ensures DeskOk(AnsweredAtOnce(d, fd, close))
  {
    IdleHasNoJob(d, fd);
    var d' := AnsweredAtOnce(d, fd, close);
    assert OrderOk(d.connections[fd], d.states[fd]);
    ChangedIdle(d, fd, d'.connections[fd], d'.states[fd]);
    hide OrderOk, ConnsOk, JobsOk;
  }

  lemma DeferredOk(d: Desk, fd: int, close: bool)
    requires DeskOk(d) && fd in d.connections && fd in d.states && !d.states[fd].redisPending
    ensures DeskOk(Deferred(d, fd, close))
  {
    IdleHasNoJob(d, fd);
    var d' := Deferred(d, fd, close);
    assert OrderOk(d.connections[fd], d.states[fd]);
    ChangedIdle(d, fd, d'.connections[fd], d'.states[fd]);
    hide OrderOk;
    forall t | t in d'.jobs ensures t < d'.tickets && JobOk(d'.jobs[t], d'.connections, d'.states, d'.nextGeneration) {
      if t in d.jobs {
        assert JobOk(d.jobs[t], d.connections, d.states, d.nextGeneration);
      }
    }
  }

  // ----- a job's outcome arrives -----

  /** The job is off the books. */
  function Settled(d: Desk, t: nat): Desk { d.(jobs := d.jobs - {t}) }

  lemma SettledOk(d: Desk, t: nat)
    requires DeskOk(d)
    ensures DeskOk(Settled(d, t))
  {
    hide OrderOk, JobOk;
  }

  /** The response that a job brings for its request enters the output queue of connection `fd`. */
  function AnsweredLate(d: Desk, fd: int, close: bool, request: nat): Desk
    requires fd in d.connections && fd in d.states
  {
    var c, s := d.connections[fd], d.states[fd];
    Changed(d, fd, c.(answered := c.answered + [request], pendingOutput := true, closeAfterWrite := c.closeAfterWrite || close),
            s.(requestInFlight := false, redisPending := false))
  }

  /** A job's response keeps the order of the responses: no request was parsed after its own, and all before it are answered. */
  lemma AnsweredLateOk(d: Desk, fd: int, close: bool, request: nat)
    requires DeskOk(d) && fd in d.connections && fd in d.states && d.states[fd].redisPending
    requires Awaits(d.connections[fd], request)
    requires forall t :: t in d.jobs ==> d.jobs[t].generation != d.states[fd].generation
    ensures DeskOk(AnsweredLate(d, fd, close, request))
    ensures var c := AnsweredLate(d, fd, close, request).connections[fd]; c.answered == c.parsed == d.connections[fd].parsed
  {
    assert OrderOk(d.connections[fd], d.states[fd]);
    var c := d.connections[fd];
    assert c.parsed == c.parsed[..|c.parsed| - 1] + [request];
    var d' := AnsweredLate(d, fd, close, request);
    ChangedIdle(d, fd, d'.connections[fd], d'.states[fd]);
  }

  /** Changes of deadlines and of pending output disturb nothing. */
  lemma TunedOk(d: Desk, fd: int, pendingOutput: bool, deadline: int)
    requires DeskOk(d) && fd in d.connections && fd in d.states
    ensures DeskOk(Changed(d, fd, d.connections[fd].(pendingOutput := pendingOutput), d.states[fd].(deadline := deadline)))
  {
    assert OrderOk(d.connections[fd], d.states[fd]);
    var c, s := d.connections[fd].(pendingOutput := pendingOutput), d.states[fd].(deadline := deadline);
    assert OrderOk(c, s);
    ChangedAlike(d, fd, c, s);
  }

  /** A connection asks epoll for other events, if it does not have them yet; it ends if that fails. */
  function Watching(d: Desk, fd: int, want: Interest, modified: bool): Desk {
    if fd !in d.states || d.states[fd].interest == want then d
    else if !modified then Removed(d, fd)
    else d.(states := d.states[fd := d.states[fd].(interest := want)])
  }

  lemma WatchingOk(d: Desk, fd: int, want: Interest, modified: bool)
    requires DeskOk(d)
    ensures DeskOk(Watching(d, fd, want, modified))
  {
    RemovedOk(d, fd);
    if fd in d.states {
      SameKeys(d);
      assert fd in d.connections.Keys;
      var s := d.states[fd].(interest := want);
      assert OrderOk(d.connections[fd], d.states[fd]);
      ChangedAlike(d, fd, d.connections[fd], s);
      assert d.connections[fd := d.connections[fd]] == d.connections;
    }
  }

  // ----- the reactor -----

  const REQUEST_TIMEOUT_SECONDS := 10
  const KEEP_ALIVE_TIMEOUT_SECONDS := 30

  datatype Accepted = Client(fd: int, usable: bool) | AcceptInterrupted | AcceptEnds

  /** How a handler replies: at once, its response queued or not and its file queued or not, or by a job. */
  datatype Reply = AtOnce(queued: bool, fileFails: bool) | ByJob

  /** What parsing finds next; the end of the list means that more data is needed. */
  datatype Parsed = Rejected | Request(close: bool, reply: Reply)

  datatype Read = Received(found: seq<Parsed>) | ReadEnds | ReadBlocks

  datatype Write = WroteAll | WriteBlocks | WriteFails

  /** Output and interest changes during one event. */
  datatype Outlet = Outlet(write: Write, modified: bool)

  // ----- what the handlers of one connection's events do -----

  /** Parsing what one read brought: the books afterwards, and whether reading goes on. */
  function ParsedAll(d: Desk, fd: int, found: seq<Parsed>, modified: bool, now: int): (r: (Desk, bool))
    decreases |found|
  {
    if found == [] then (d, true)
    else if fd !in d.connections || fd !in d.states then (d, false)
    else if found[0].Rejected? then (Removed(d, fd), false)
    else if found[0].reply.ByJob? then
      var waiting := Tuned(Deferred(d, fd, found[0].close), fd, now + REQUEST_TIMEOUT_SECONDS);
      (Watching(waiting, fd, ForHangUp, modified), false)
    else if !found[0].reply.queued || found[0].reply.fileFails then (Removed(d, fd), false)
    else
      var answered := Tuned(AnsweredAtOnce(d, fd, found[0].close), fd, now + KEEP_ALIVE_TIMEOUT_SECONDS);
      if answered.connections[fd].closeAfterWrite then (answered, true) else ParsedAll(answered, fd, found[1..], modified, now)
  }

  /** Reading until the socket is empty, the connection wants to close, or it is gone or waits for a job. */
  function ReadsAll(d: Desk, fd: int, arrivals: seq<Read>, modified: bool, now: int): (r: (Desk, bool))
    decreases |arrivals|
  {
    if arrivals == [] || arrivals[0].ReadBlocks? then (d, true)
    else if fd !in d.connections || fd !in d.states || arrivals[0].ReadEnds? then (Removed(d, fd), false)
    else
      var (d1, go) := ParsedAll(Tuned(d, fd, now + REQUEST_TIMEOUT_SECONDS), fd, arrivals[0].found, modified, now);
      if !go then (d1, false)
      else if fd in d1.connections && d1.connections[fd].closeAfterWrite then (d1, true)
      else ReadsAll(d1, fd, arrivals[1..], modified, now)
  }

  /** Sending what waits. */
  function WroteOn(d: Desk, fd: int, outlet: Outlet): Desk {
    if fd !in d.connections || fd !in d.states || !d.connections[fd].pendingOutput then d
    else if outlet.write.WriteFails? then Removed(d, fd)
    else if outlet.write.WriteBlocks? then Watching(d, fd, ForBoth, outlet.modified)
    else
      var sent := d.(connections := d.connections[fd := d.connections[fd].(pendingOutput := false)]);
      if d.connections[fd].closeAfterWrite then Removed(sent, fd) else Watching(sent, fd, ForInput, outlet.modified)
  }

  /** Input on a connection. */
  function ClientServed(d: Desk, fd: int, arrivals: seq<Read>, outlet: Outlet, now: int): Desk {
    if fd !in d.connections || fd !in d.states || d.states[fd].redisPending then d
    else
      var (d1, go) := ReadsAll(d, fd, arrivals, outlet.modified, now);
      if go then WroteOn(d1, fd, outlet) else d1
  }

  /** One event on a connection's descriptor. */
  function EventServed(d: Desk, fd: int, e: Event, arrivals: seq<Read>, input: Outlet, output: Outlet, now: int): Desk {
    if e.failed || e.hungUp then Removed(d, fd)
    else
      var d1 := if e.readable then ClientServed(d, fd, arrivals, input, now) else d;
      var d2 := if e.writable then WroteOn(d1, fd, output) else d1;
      if e.readHungUp && fd in d2.connections && !d2.connections[fd].pendingOutput then Removed(d2, fd) else d2
  }

  /** A job's response comes back for the connection `fd` of that generation. */
  function Completed(d: Desk, fd: int, generation: nat, close: bool, request: nat, hasFile: bool, queued: bool, outlet: Outlet, now: int): Desk {
    if !Current(d, fd, generation) || !d.states[fd].redisPending then d
    else if hasFile || !queued then Removed(d, fd)
    else WroteOn(Tuned(AnsweredLate(d, fd, close, request), fd, now + KEEP_ALIVE_TIMEOUT_SECONDS), fd, outlet)
  }

  // ----- no connection goes deaf -----

  /** A connection that waits for no job is watched for all it can do next: input always, output while there is some. */
  predicate Listens(c: Conn, s: State) {
    s.redisPending || s.interest == if c.pendingOutput then ForBoth else ForInput
  }

  predicate AllListen(d: Desk) {
    forall fd :: fd in d.connections && fd in d.states ==> Listens(d.connections[fd], d.states[fd])
  }

  /** Only connection `fd` differs, and it is gone or listens. */
  lemma OneListens(d: Desk, d': Desk, fd: int)
    requires AllListen(d) && forall other :: other != fd ==> Kept(d, d', other)
    requires fd in d'.connections && fd in d'.states ==> Listens(d'.connections[fd], d'.states[fd])
    ensures AllListen(d')
  {
    hide Listens;
    forall other | other in d'.connections && other in d'.states ensures Listens(d'.connections[other], d'.states[other]) {
      if other != fd { assert Kept(d, d', other); }
    }
  }

  /** What parsing leaves of a connection: it is gone, waits for a job, or has only more to send. */
  ghost predicate Busier(d: Desk, d': Desk, fd: int, go: bool) {
    && (forall other :: other != fd ==> Kept(d, d', other))
    && (fd in d'.connections ==>
          && fd in d'.states
          && fd in d.connections && fd in d.states && (d.connections[fd].pendingOutput ==> d'.connections[fd].pendingOutput)
          && if go then !d'.states[fd].redisPending && d'.states[fd].interest == d.states[fd].interest
             else d'.states[fd].redisPending && d'.states[fd].interest == ForHangUp)
  }

  lemma BusierChain(d: Desk, d1: Desk, d2: Desk, fd: int, go: bool)
    requires Busier(d, d1, fd, true) && Busier(d1, d2, fd, go) && fd in d1.connections && fd in d1.states
    ensures Busier(d, d2, fd, go)
  {
    hide Kept;
    KeptChain(d, d1, d2, fd);
  }

  lemma {:induction false} ParsedBusier(d: Desk, fd: int, found: seq<Parsed>, modified: bool, now: int)
    requires fd in d.connections && fd in d.states && !d.states[fd].redisPending
    ensures var (d', go) := ParsedAll(d, fd, found, modified, now); Busier(d, d', fd, go)
    decreases |found|
  {
    if found != [] && found[0].Request? && found[0].reply.AtOnce? && found[0].reply.queued && !found[0].reply.fileFails {
      var answered := Tuned(AnsweredAtOnce(d, fd, found[0].close), fd, now + KEEP_ALIVE_TIMEOUT_SECONDS);
      assert Busier(d, answered, fd, true);
      if !answered.connections[fd].closeAfterWrite {
        ParsedBusier(answered, fd, found[1..], modified, now);
        BusierChain(d, answered, ParsedAll(answered, fd, found[1..], modified, now).0, fd, ParsedAll(answered, fd, found[1..], modified, now).1);
      }
    }
  }

  lemma {:induction false} ReadsBusier(d: Desk, fd: int, arrivals: seq<Read>, modified: bool, now: int)
    requires fd in d.connections && fd in d.states && !d.states[fd].redisPending
    ensures var (d', go) := ReadsAll(d, fd, arrivals, modified, now); Busier(d, d', fd, go)
    decreases |arrivals|
  {
    hide ParsedAll;
    if arrivals != [] && arrivals[0].Received? {
      var d0 := Tuned(d, fd, now + REQUEST_TIMEOUT_SECONDS);
      ParsedBusier(d0, fd, arrivals[0].found, modified, now);
      var (d1, go) := ParsedAll(d0, fd, arrivals[0].found, modified, now);
      BusierChain(d, d0, d1, fd, go);
      if go && fd in d1.connections && !d1.connections[fd].closeAfterWrite {
        ReadsBusier(d1, fd, arrivals[1..], modified, now);
        BusierChain(d, d1, ReadsAll(d1, fd, arrivals[1..], modified, now).0, fd, ReadsAll(d1, fd, arrivals[1..], modified, now).1);
      }
    }
  }

  /** A connection that has come to wait for a job has sent nothing in that event, and epoll is not asked for output. */
  lemma DeferringHoldsBack(d: Desk, fd: int, arrivals: seq<Read>, outlet: Outlet, now: int)
    requires fd in d.connections && fd in d.states && !d.states[fd].redisPending
    ensures var d' := ClientServed(d, fd, arrivals, outlet, now);
            fd in d'.connections && fd in d'.states && d'.states[fd].redisPending ==>
              d'.states[fd].interest == ForHangUp && (d.connections[fd].pendingOutput ==> d'.connections[fd].pendingOutput)
  {
    hide ReadsAll;
    ReadsBusier(d, fd, arrivals, outlet.modified, now);
  }

  /** After sending, a connection that waits for no job is watched for exactly what is left to do. */
  lemma WroteListens(d: Desk, fd: int, outlet: Outlet)
    requires fd in d.connections && fd in d.states && !d.connections[fd].pendingOutput ==> Listens(d.connections[fd], d.states[fd])
    ensures var d' := WroteOn(d, fd, outlet);
            && (forall other :: other != fd ==> Kept(d, d', other))
            && (fd in d'.connections && fd in d'.states ==> Listens(d'.connections[fd], d'.states[fd]))
  {
  }

  /** An event on one connection leaves every connection listening. */
  lemma EventListens(d: Desk, fd: int, e: Event, arrivals: seq<Read>, input: Outlet, output: Outlet, now: int)
    requires AllListen(d)
    ensures AllListen(EventServed(d, fd, e, arrivals, input, output, now))
  {
    hide Kept, Listens;
    KeptRemoved(d, fd);
    OneListens(d, Removed(d, fd), fd);
    if !e.failed && !e.hungUp {
      var d1 := if e.readable then ClientServed(d, fd, arrivals, input, now) else d;
      if e.readable { ClientListens(d, fd, arrivals, input, now); }
      WroteListens(d1, fd, output);
      var d2 := if e.writable then WroteOn(d1, fd, output) else d1;
      OneListens(d1, WroteOn(d1, fd, output), fd);
      KeptRemoved(d2, fd);
      OneListens(d2, Removed(d2, fd), fd);
    }
  }

  lemma ClientListens(d: Desk, fd: int, arrivals: seq<Read>, outlet: Outlet, now: int)
    requires AllListen(d)
    ensures AllListen(ClientServed(d, fd, arrivals, outlet, now))
  {
    hide Kept, ReadsAll, WroteOn;
    if fd in d.connections && fd in d.states && !d.states[fd].redisPending {
      ReadsBusier(d, fd, arrivals, outlet.modified, now);
      var (d1, go) := ReadsAll(d, fd, arrivals, outlet.modified, now);
      assert Listens(d.connections[fd], d.states[fd]);
      if go {
        WroteListens(d1, fd, outlet);
        KeptChain(d, d1, WroteOn(d1, fd, outlet), fd);
        OneListens(d, WroteOn(d1, fd, outlet), fd);
      } else {
        OneListens(d, d1, fd);
      }
    }
  }

  lemma CompletedListens(d: Desk, fd: int, generation: nat, close: bool, request: nat, hasFile: bool, queued: bool, outlet: Outlet, now: int)
    requires AllListen(d)
    ensures AllListen(Completed(d, fd, generation, close, request, hasFile, queued, outlet, now))
  {
    hide Listens, WroteOn;
    KeptRemoved(d, fd);
    OneListens(d, Removed(d, fd), fd);
    if Current(d, fd, generation) && d.states[fd].redisPending {
      var d1 := Tuned(AnsweredLate(d, fd, close, request), fd, now + KEEP_ALIVE_TIMEOUT_SECONDS);
      assert forall other :: other != fd ==> Kept(d, d1, other);
      hide Kept;
      WroteListens(d1, fd, outlet);
      KeptChain(d, d1, WroteOn(d1, fd, outlet), fd);
      OneListens(d, WroteOn(d1, fd, outlet), fd);
    }
  }

  lemma {:induction false} TakenInListens(d: Desk, incoming: seq<Accepted>, now: int)
    requires AllListen(d)
    ensures AllListen(TakenIn(d, incoming, now))
    decreases |incoming|
  {
    if incoming != [] && !incoming[0].AcceptEnds? {
      if incoming[0].Client? && incoming[0].usable {
        TakenInListens(Arrived(d, incoming[0].fd, now + REQUEST_TIMEOUT_SECONDS), incoming[1..], now);
      } else {
        TakenInListens(d, incoming[1..], now);
      }
    }
  }

  datatype Event = Event(readable: bool, writable: bool, failed: bool, hungUp: bool, readHungUp: bool)

  datatype Round =
    | Accepting(incoming: seq<Accepted>, now: int)
    | Ready(fd: int, event: Event, arrivals: seq<Read>, input: Outlet, output: Outlet, now: int)
    | Completes(ticket: nat, hasFile: bool, queued: bool, outlet: Outlet, now: int)
    | Loses(ticket: nat)
    | Ticks(now: int)

  class Reactor {
    var connections: map<int, Conn>
    var states: map<int, State>
    var nextGeneration: nat
    var active: nat

    // what the handler, the worker pool and the parser have done
    var jobs: map<nat, Job>
    var tickets: nat
    var requests: nat

    function Books(): Desk
      reads this
    {
      Desk(connections, states, nextGeneration, jobs, tickets, requests, active)
    }

    ghost predicate Valid()
      reads this
    {
      DeskOk(Books())
    }

    constructor ()
      ensures Valid() && AllListen(Books()) && connections == map[] && jobs == map[] && nextGeneration == 0
    {
      connections, states, nextGeneration, active, jobs, tickets, requests := map[], map[], 0, 0, map[], 0, 0;
    }

    method RemoveConnection(fd: int)
      requires Valid()
      modifies `connections, `states, `active
      ensures Valid() && Books() == Removed(old(Books()), fd) && fd !in connections
    {
      RemovedOk(Books(), fd);
      hide DeskOk;
      if fd !in connections {
        return;
      }
      connections := connections - {fd};
      states := states - {fd};
      if active > 0 {
        active := active - 1;
      }
    }

    /** Each client gets a generation that no connection has had before. */
    method HandleAccept(incoming: seq<Accepted>, now: int)
      requires Valid() && Arrivals(connections.Keys, incoming)
      modifies `connections, `states, `nextGeneration, `active
      ensures Valid() && nextGeneration >= old(nextGeneration) && Books() == TakenIn(old(Books()), incoming, now)
      ensures forall fd :: fd in old(states) ==> fd in states && states[fd] == old(states)[fd]
      ensures forall fd :: fd in states && fd !in old(states) ==> states[fd].generation > old(nextGeneration)
    {
      hide DeskOk;
      var k := 0;
      assert incoming[0..] == incoming;
      while k < |incoming|
        invariant 0 <= k <= |incoming| && Valid() && Arrivals(connections.Keys, incoming[k..])
        invariant nextGeneration >= old(nextGeneration) && TakenIn(Books(), incoming[k..], now) == TakenIn(old(Books()), incoming, now)
        invariant forall fd :: fd in old(states) ==> fd in states && states[fd] == old(states)[fd]
        invariant forall fd :: fd in states && fd !in old(states) ==> states[fd].generation > old(nextGeneration)
      {
        var next := incoming[k];
        assert incoming[k..][1..] == incoming[k + 1..];
        k := k + 1;
        if next.AcceptEnds? {
          return;
        }
        if next.Client? && next.usable {
          SameKeys(Books());
          assert next.fd !in connections.Keys && connections[next.fd := Conn(false, false, [], [])].Keys == connections.Keys + {next.fd};
          TakeIn(next.fd, now);
        }
      }
    }

    method TakeIn(fd: int, now: int)
      requires Valid() && fd !in connections
      modifies `connections, `states, `nextGeneration, `active
      ensures Valid() && Books() == Arrived(old(Books()), fd, now + REQUEST_TIMEOUT_SECONDS)
    {
      ArrivedOk(Books(), fd, now + REQUEST_TIMEOUT_SECONDS);
      hide DeskOk;
      nextGeneration := nextGeneration + 1;
      connections := connections[fd := Conn(false, false, [], [])];
      active := active + 1;
      states := states[fd := State(nextGeneration, false, false, now + REQUEST_TIMEOUT_SECONDS, ForInput)];
      assert Books() == Arrived(old(Books()), fd, now + REQUEST_TIMEOUT_SECONDS);
    }

    /** Asks epoll for other events; a connection for which that fails is removed. */
    method UpdateEvents(fd: int, want: Interest, modified: bool)
      requires Valid()
      modifies `connections, `states, `active
      ensures Valid() && Books() == Watching(old(Books()), fd, want, modified)
    {
      WatchingOk(Books(), fd, want, modified);
      hide DeskOk;
      if fd !in states || states[fd].interest == want {
        return;
      }
      if !modified {
        RemoveConnection(fd);
        return;
      }
      states := states[fd := states[fd].(interest := want)];
    }

    method RefreshDeadline(fd: int, deadline: int)
      requires Valid() && fd in connections
      modifies `states
      ensures Valid() && fd in old(states)
      ensures states == old(states)[fd := old(states)[fd].(deadline := deadline)]
    {
      SameKeys(Books());
      assert fd in connections.Keys;
      TunedOk(Books(), fd, connections[fd].pendingOutput, deadline);
      hide DeskOk;
      assert connections[fd := connections[fd].(pendingOutput := connections[fd].pendingOutput)] == connections;
      states := states[fd := states[fd].(deadline := deadline)];
    }

    /** Sends what waits; a connection that is done and wants to close is removed. */
    method HandleWrite(fd: int, outlet: Outlet)
      requires Valid()
      modifies `connections, `states, `active
      ensures Valid() && Books() == WroteOn(old(Books()), fd, outlet)
      ensures fd !in connections || Spoke(old(Books()), Books(), fd)
      ensures forall other :: other != fd ==> Kept(old(Books()), Books(), other)
    {
      SameKeys(Books());
      ghost var d := Books();
      hide DeskOk, Kept, Removed, Watching;
      assert fd in connections.Keys <==> fd in states.Keys;
      KeptRemoved(d, fd);
      if fd !in connections || !connections[fd].pendingOutput {
        return;
      }
      if outlet.write.WriteFails? {
        RemoveConnection(fd);
        return;
      }
      KeptWatching(d, fd, ForBoth, outlet.modified);
      if outlet.write.WriteBlocks? {
        UpdateEvents(fd, ForBoth, outlet.modified);
        return;
      }
      Drained(fd);
      ghost var d1 := Books();
      KeptRemoved(d1, fd);
      KeptWatching(d1, fd, ForInput, outlet.modified);
      if connections[fd].closeAfterWrite {
        RemoveConnection(fd);
      } else {
        UpdateEvents(fd, ForInput, outlet.modified);
      }
      KeptChain(d, d1, Books(), fd);
    }

    method Drained(fd: int)
      requires Valid() && fd in connections && fd in states
      modifies `connections
      ensures Valid() && fd in connections && connections == old(connections)[fd := old(connections)[fd].(pendingOutput := false)]
      ensures Spoke(old(Books()), Books(), fd)
      ensures forall other :: other != fd ==> Kept(old(Books()), Books(), other)
    {
      TunedOk(Books(), fd, false, states[fd].deadline);
      KeptChanged(Books(), fd, connections[fd].(pendingOutput := false), states[fd]);
      hide DeskOk, Kept;
      assert states[fd := states[fd].(deadline := states[fd].deadline)] == states[fd := states[fd]] == states;
      connections := connections[fd := connections[fd].(pendingOutput := false)];
    }

    // ----- requests -----

    /** A parsed request is answered at once; a response or file that cannot be queued ends the connection. */
    method AnswerAtOnce(fd: int, close: bool, reply: Reply, now: int) returns (go: bool)
      requires Valid() && reply.AtOnce? && fd in connections && fd in states && !states[fd].redisPending
      modifies `connections, `states, `active, `requests
      ensures Valid() && go == (reply.queued && !reply.fileFails)
      ensures !go ==> Books() == Removed(old(Books()), fd) && fd !in connections
      ensures go ==> Books() == Tuned(AnsweredAtOnce(old(Books()), fd, close), fd, now + KEEP_ALIVE_TIMEOUT_SECONDS)
    {
      go := reply.queued && !reply.fileFails;
      if !go {
        RemoveConnection(fd);
        return;
      }
      AnsweredAtOnceOk(Books(), fd, close);
      hide DeskOk;
      var c := connections[fd];
      connections := connections[fd := c.(parsed := c.parsed + [requests], answered := c.answered + [requests],
                                          pendingOutput := true, closeAfterWrite := c.closeAfterWrite || close)];
      requests := requests + 1;
      assert states[fd := states[fd]] == states;
      RefreshDeadline(fd, now + KEEP_ALIVE_TIMEOUT_SECONDS);
    }

    /** A parsed request is handed to the worker pool, and the connection waits. */
    method Defer(fd: int, close: bool, modified: bool, now: int)
      requires Valid() && fd in connections && fd in states && !states[fd].redisPending
      modifies `connections, `states, `active, `requests, `jobs, `tickets
      ensures Valid()
      ensures Books() == Watching(Tuned(Deferred(old(Books()), fd, close), fd, now + REQUEST_TIMEOUT_SECONDS), fd, ForHangUp, modified)
    {
      hide DeskOk, Deferred, Watching;
      HandOver(fd, close);
      RefreshDeadline(fd, now + REQUEST_TIMEOUT_SECONDS);
      UpdateEvents(fd, ForHangUp, modified);
    }

    method HandOver(fd: int, close: bool)
      requires Valid() && fd in connections && fd in states && !states[fd].redisPending
      modifies `connections, `states, `requests, `jobs, `tickets
      ensures Valid() && Books() == Deferred(old(Books()), fd, close) && fd in connections
    {
      DeferredOk(Books(), fd, close);
      hide DeskOk;
      var c, s := connections[fd], states[fd];
      jobs := jobs[tickets := Job(fd, s.generation, close, requests)];
      tickets := tickets + 1;
      connections := connections[fd := c.(parsed := c.parsed + [requests])];
      requests := requests + 1;
      states := states[fd := s.(requestInFlight := true, redisPending := true)];
      assert Books() == Deferred(old(Books()), fd, close);
    }

    /** Parses what one read brought; stops when more data is needed, when a reply must be waited for, or when the connection ends. */
    method ParseAll(fd: int, found: seq<Parsed>, modified: bool, now: int) returns (go: bool)
      requires Valid() && fd in connections && fd in states && !states[fd].redisPending
      modifies this
      ensures Valid() && Grown(old(Books()), Books(), fd)
      ensures go ==> fd in connections && fd in states && !states[fd].redisPending
      ensures (Books(), go) == ParsedAll(old(Books()), fd, found, modified, now)
    {
      FreshTicket(Books());
      hide DeskOk, AnsweredAtOnce, Deferred, Grown;
      var k := 0;
      GrownNot(Books(), fd);
      assert found[0..] == found;
      while k < |found|
        invariant 0 <= k <= |found| && Valid() && Grown(old(Books()), Books(), fd)
        invariant ParsedAll(Books(), fd, found[k..], modified, now) == ParsedAll(old(Books()), fd, found, modified, now)
        invariant fd in connections && fd in states && !states[fd].redisPending
        invariant tickets == old(tickets)
      {
        var next := found[k];
        ghost var d := Books();
        assert found[k..][1..] == found[k + 1..];
        k := k + 1;
        if next.Rejected? {
          RemoveConnection(fd);
          GrownRemoved(old(Books()), d, fd);
          return false;
        }
        if next.reply.ByJob? {
          FreshTicket(d);
          Defer(fd, next.close, modified, now);
          GrownDeferred(old(Books()), d, fd, next.close, now + REQUEST_TIMEOUT_SECONDS);
          GrownWatching(old(Books()), Tuned(Deferred(d, fd, next.close), fd, now + REQUEST_TIMEOUT_SECONDS), fd, ForHangUp, modified);
          return false;
        }
        go := AnswerAtOnce(fd, next.close, next.reply, now);
        if !go {
          GrownRemoved(old(Books()), d, fd);
          return;
        }
        GrownAnswered(old(Books()), d, fd, next.close, now + KEEP_ALIVE_TIMEOUT_SECONDS);
        if connections[fd].closeAfterWrite {
          return;
        }
      }
      go := true;
    }

    /** Input on a connection: reads and parses until the socket is empty, and answers; a connection that waits for
        a job is not read at all. */
    method HandleClient(fd: int, arrivals: seq<Read>, outlet: Outlet, now: int)
      requires Valid()
      modifies this
      ensures Valid()
      ensures Books() == ClientServed(old(Books()), fd, arrivals, outlet, now)
      ensures fd in old(connections) ==> Grown(old(Books()), Books(), fd)
    {
      SameKeys(Books());
      assert fd in connections.Keys <==> fd in states.Keys;
      hide DeskOk, Grown, Kept, ReadsAll;
      if fd !in connections {
        return;
      }
      GrownNot(Books(), fd);
      if states[fd].redisPending {
        return;
      }
      var go := ReadAll(fd, arrivals, outlet.modified, now);
      if !go {
        return;
      }
      if connections[fd].pendingOutput {
        ghost var d := Books();
        HandleWrite(fd, outlet);
        GrownSpoken(old(Books()), d, Books(), fd);
      }
    }

    /** The read loop; false when the connection is gone or waits for a job. */
    method ReadAll(fd: int, arrivals: seq<Read>, modified: bool, now: int) returns (go: bool)
      requires Valid() && fd in connections && fd in states && !states[fd].redisPending
      modifies this
      ensures Valid() && Grown(old(Books()), Books(), fd) && (go ==> fd in connections)
      ensures (Books(), go) == ReadsAll(old(Books()), fd, arrivals, modified, now)
    {
      hide DeskOk, Grown, Kept, ParsedAll;
      GrownNot(Books(), fd);
      var k := 0;
      assert arrivals[0..] == arrivals;
      while k < |arrivals|
        invariant 0 <= k <= |arrivals| && Valid() && Grown(old(Books()), Books(), fd)
        invariant ReadsAll(Books(), fd, arrivals[k..], modified, now) == ReadsAll(old(Books()), fd, arrivals, modified, now)
        invariant fd in connections && fd in states && !states[fd].redisPending
      {
        var next := arrivals[k];
        ghost var d := Books();
        assert arrivals[k..][1..] == arrivals[k + 1..];
        k := k + 1;
        if next.ReadEnds? {
          RemoveConnection(fd);
          GrownRemoved(old(Books()), d, fd);
          return false;
        }
        if next.ReadBlocks? {
          return true;
        }
        RefreshDeadline(fd, now + REQUEST_TIMEOUT_SECONDS);
        GrownTuned(old(Books()), d, fd, now + REQUEST_TIMEOUT_SECONDS);
        ghost var d1 := Books();
        go := ParseAll(fd, next.found, modified, now);
        GrownChain(old(Books()), d1, Books(), fd);
        if !go {
          return;
        }
        if connections[fd].closeAfterWrite {
          return;
        }
      }
      go := true;
    }

    // ----- completions -----

    /** The response of a job comes back for the connection `fd` of that generation, if it still is the one there. */
    method CompleteAsyncResponse(fd: int, generation: nat, close: bool, request: nat, hasFile: bool, queued: bool, outlet: Outlet, now: int)
      requires Valid() && forall t :: t in jobs ==> jobs[t].generation != generation
      requires Current(Books(), fd, generation) ==> Awaits(connections[fd], request)
      modifies `connections, `states, `active
      ensures Valid() && Books() == Completed(old(Books()), fd, generation, close, request, hasFile, queued, outlet, now)
      ensures forall other :: other != fd ==> Kept(old(Books()), Books(), other)
      ensures Current(old(Books()), fd, generation) && old(states)[fd].redisPending && fd in connections ==>
                && !hasFile && queued && Current(Books(), fd, generation) && !states[fd].redisPending
                && connections[fd].answered == old(connections)[fd].answered + [request]
                && connections[fd].answered == connections[fd].parsed == old(connections)[fd].parsed
    {
      SameKeys(Books());
      KeptRemoved(Books(), fd);
      assert fd in connections.Keys <==> fd in states.Keys;
      ghost var d0 := Books();
      hide DeskOk, Kept, WroteOn, Tuned;
      if fd !in connections || fd !in states || states[fd].generation != generation || !states[fd].redisPending {
        return;
      }
      if hasFile || !queued {
        RemoveConnection(fd);
        return;
      }
      ResumeWith(fd, close, request, now);
      ghost var d := Books();
      HandleWrite(fd, outlet);
      KeptChain(d0, d, Books(), fd);
    }

    /** The response enters the output queue. */
    method ResumeWith(fd: int, close: bool, request: nat, now: int)
      requires Valid() && fd in connections && fd in states && states[fd].redisPending && Awaits(connections[fd], request)
      requires forall t :: t in jobs ==> jobs[t].generation != states[fd].generation
      modifies `connections, `states
      ensures Valid() && Books() == Tuned(AnsweredLate(old(Books()), fd, close, request), fd, now + KEEP_ALIVE_TIMEOUT_SECONDS)
      ensures connections[fd].answered == old(connections)[fd].answered + [request]
      ensures connections[fd].answered == connections[fd].parsed == old(connections)[fd].parsed
      ensures forall other :: other != fd ==> Kept(old(Books()), Books(), other)
    {
      AnsweredLateOk(Books(), fd, close, request);
      var c, s := connections[fd], states[fd];
      var c' := c.(answered := c.answered + [request], pendingOutput := true, closeAfterWrite := c.closeAfterWrite || close);
      KeptChanged(Books(), fd, c', s.(requestInFlight := false, redisPending := false, deadline := now + KEEP_ALIVE_TIMEOUT_SECONDS));
      hide DeskOk, Kept;
      states := states[fd := s.(requestInFlight := false, redisPending := false)];
      connections := connections[fd := c'];
      RefreshDeadline(fd, now + KEEP_ALIVE_TIMEOUT_SECONDS);
      assert Books() == Tuned(AnsweredLate(old(Books()), fd, close, request), fd, now + KEEP_ALIVE_TIMEOUT_SECONDS);
    }

    /** The outcome of a job: without a live connection of its generation nothing changes but that the job is over;
        otherwise its own request is answered next, or the connection is gone. */
    method HandleCompletion(t: nat, hasFile: bool, queued: bool, outlet: Outlet, now: int)
      requires Valid() && t in jobs
      modifies `connections, `states, `active, `jobs
      ensures Valid() && jobs == old(jobs) - {t}
      ensures var job := old(jobs)[t];
              Books() == Completed(Settled(old(Books()), t), job.fd, job.generation, job.close, job.request, hasFile, queued, outlet, now)
      ensures var job := old(jobs)[t];
              && (!Current(old(Books()), job.fd, job.generation) ==> Books() == Settled(old(Books()), t))
              && (Current(old(Books()), job.fd, job.generation) && job.fd in connections ==>
                    && job.fd in old(connections)
                    && connections[job.fd].answered == old(connections)[job.fd].answered + [job.request]
                    && connections[job.fd].answered == connections[job.fd].parsed)
              && forall other :: other != job.fd ==> Kept(old(Books()), Books(), other)
    {
      var job := jobs[t];
      JobKnown(Books(), t);
      SettledOk(Books(), t);
      hide DeskOk, Kept, OrderOk, Completed;
      ghost var d0 := Books();
      jobs := jobs - {t};
      CompleteAsyncResponse(job.fd, job.generation, job.close, job.request, hasFile, queued, outlet, now);
      CompletedInOrder(Books(), job.fd);
      KeptSettled(d0, t, Books(), job.fd);
    }

    /** A job that throws, or yields nothing, never answers. */
    method LoseJob(t: nat)
      requires Valid() && t in jobs
      modifies `jobs
      ensures Valid() && Books() == Settled(old(Books()), t)
    {
      SettledOk(Books(), t);
      hide DeskOk;
      jobs := jobs - {t};
    }

    // ----- the event loop -----

    /** Every connection whose deadline has come is removed, and no other. */
    method RemoveExpiredConnections(now: int)
      requires Valid()
      modifies `connections, `states, `active
      ensures Valid() && active == |connections|
      ensures connections == old(connections) - Expired(old(states), now) && states == old(states) - Expired(old(states), now)
    {
      SameKeys(Books());
      hide DeskOk;
      var expired := Expired(states, now);
      assert expired <= connections.Keys;
      hide Expired;
      var todo := expired;
      assert connections - {} == connections && states - {} == states;
      while todo != {}
        invariant Valid() && todo <= expired && todo <= connections.Keys
        invariant connections == old(connections) - (expired - todo) && states == old(states) - (expired - todo)
        decreases |todo|
      {
        SomeMember(todo);
        var fd :| fd in todo;
        assert expired - (todo - {fd}) == (expired - todo) + {fd};
        RemoveOne(fd);
        MinusTwice(old(connections), expired - todo, fd);
        MinusTwice(old(states), expired - todo, fd);
        todo := todo - {fd};
      }
      assert expired - todo == expired;
    }

    method RemoveOne(fd: int)
      requires Valid() && fd in connections
      modifies `connections, `states, `active
      ensures Valid() && connections == old(connections) - {fd} && states == old(states) - {fd}
    {
      RemoveConnection(fd);
    }

    /** One event on a connection's descriptor. */
    method HandleEvent(fd: int, e: Event, arrivals: seq<Read>, input: Outlet, output: Outlet, now: int)
      requires Valid()
      modifies this
      ensures Valid() && nextGeneration == old(nextGeneration)
      ensures Books() == EventServed(old(Books()), fd, e, arrivals, input, output, now)
      ensures forall t :: t in old(jobs) ==> t in jobs && jobs[t] == old(jobs)[t]
    {
      hide DeskOk, Kept, ReadsAll;
      SameKeys(Books());
      if e.failed || e.hungUp {
        RemoveConnection(fd);
        return;
      }
      if e.readable {
        HandleClient(fd, arrivals, input, now);
      }
      if fd in connections && e.writable {
        HandleWrite(fd, output);
      }
      if fd in connections && e.readHungUp && !connections[fd].pendingOutput {
        RemoveConnection(fd);
      }
    }

    /** Whatever happens to it, the reactor keeps its books: responses in the order of their requests, generations
        never reused, at most one job for each connection, and no connection left unwatched. */
    method Run(rounds: seq<Round>)
      requires Valid() && AllListen(Books())
      modifies this
      ensures Valid() && active == |connections| && AllListen(Books())
      ensures forall fd :: fd in connections ==> fd in states && AnsweredInOrder(connections[fd], states[fd].redisPending)
      ensures forall t, u :: t in jobs && u in jobs && t != u ==> jobs[t].generation != jobs[u].generation
    {
      hide DeskOk, AllListen;
      for k := 0 to |rounds|
        invariant Valid() && AllListen(Books())
      {
        HandleRound(rounds[k]);
      }
      SameKeys(Books());
      BooksSay(Books());
    }

    method HandleRound(round: Round)
      requires Valid()
      modifies this
      ensures Valid() && nextGeneration >= old(nextGeneration) && Books() == Served(old(Books()), round)
      ensures AllListen(old(Books())) ==> AllListen(Books())
    {
      if AllListen(Books()) { RoundListens(Books(), round); }
      hide DeskOk, Grown, Kept, Arrivals, AllListen, EventServed, Completed, TakenIn;
      match round
      case Accepting(incoming, now) => if Arrivals(connections.Keys, incoming) { HandleAccept(incoming, now); }
      case Ready(fd, e, arrivals, input, output, now) => HandleEvent(fd, e, arrivals, input, output, now);
      case Completes(t, hasFile, queued, outlet, now) => if t in jobs { HandleCompletion(t, hasFile, queued, outlet, now); }
      case Loses(t) => if t in jobs { LoseJob(t); }
      case Ticks(now) => RemoveExpiredConnections(now);
    }
  }

  /** The books after one round. */
  function Served(d: Desk, round: Round): Desk {
    match round
    case Accepting(incoming, now) => if Arrivals(d.connections.Keys, incoming) then TakenIn(d, incoming, now) else d
    case Ready(fd, e, arrivals, input, output, now) => EventServed(d, fd, e, arrivals, input, output, now)
    case Completes(t, hasFile, queued, outlet, now) =>
      if t !in d.jobs then d
      else
        var job := d.jobs[t];
        Completed(Settled(d, t), job.fd, job.generation, job.close, job.request, hasFile, queued, outlet, now)
    case Loses(t) => if t in d.jobs then Settled(d, t) else d
    case Ticks(now) =>
      var expired := Expired(d.states, now);
      d.(connections := d.connections - expired, states := d.states - expired, active := |d.connections - expired|)
  }

  /** No round leaves a connection deaf. */
  lemma RoundListens(d: Desk, round: Round)
    requires AllListen(d)
    ensures AllListen(Served(d, round))
  {
    hide Arrivals, EventServed, Completed, TakenIn, Listens;
    match round
    case Accepting(incoming, now) => TakenInListens(d, incoming, now);
    case Ready(fd, e, arrivals, input, output, now) => EventListens(d, fd, e, arrivals, input, output, now);
    case Completes(t, hasFile, queued, outlet, now) =>
      if t in d.jobs {
        var job := d.jobs[t];
        CompletedListens(Settled(d, t), job.fd, job.generation, job.close, job.request, hasFile, queued, outlet, now);
      }
    case Loses(t) =>
    case Ticks(now) =>
  }

  /** What handling the input of connection `fd` may change: its own history, and at most the job it now waits for. */
  ghost predicate Grown(d: Desk, d': Desk, fd: int) {
    && fd in d.states && fd in d.connections && d'.nextGeneration == d.nextGeneration && d.tickets <= d'.tickets
    && (forall other :: other != fd ==> Kept(d, d', other))
    && (fd in d'.connections ==>
          && fd in d'.states && d'.states[fd].generation == d.states[fd].generation
          && d.connections[fd].parsed <= d'.connections[fd].parsed && d.connections[fd].answered <= d'.connections[fd].answered)
    && (forall t :: t in d.jobs ==> t in d'.jobs && d'.jobs[t] == d.jobs[t])
    && (forall t :: t in d'.jobs && t !in d.jobs ==> d'.jobs[t].fd == fd && d'.jobs[t].generation == d.states[fd].generation)
  }

  predicate Kept(d: Desk, d': Desk, fd: int) {
    && (fd in d.connections <==> fd in d'.connections) && (fd in d.connections ==> d'.connections[fd] == d.connections[fd])
    && (fd in d.states <==> fd in d'.states) && (fd in d.states ==> d'.states[fd] == d.states[fd])
  }

  lemma KeptRemoved(d: Desk, fd: int)
    ensures forall other :: other != fd ==> Kept(d, Removed(d, fd), other)
    ensures forall other :: Kept(d, d, other)
  {
  }

  /** Other events asked for: no other connection is touched, and this one's history stays. */
  lemma KeptWatching(d: Desk, fd: int, want: Interest, modified: bool)
    ensures forall other :: other != fd ==> Kept(d, Watching(d, fd, want, modified), other)
    ensures fd in d.connections && fd in d.states && fd in Watching(d, fd, want, modified).connections ==>
              Spoke(d, Watching(d, fd, want, modified), fd)
  {
  }

  lemma KeptChanged(d: Desk, fd: int, c: Conn, s: State)
    ensures forall other :: other != fd ==> Kept(d, Changed(d, fd, c, s), other)
  {
  }

  lemma KeptSettled(d: Desk, t: nat, d': Desk, fd: int)
    requires forall other :: other != fd ==> Kept(Settled(d, t), d', other)
    ensures forall other :: other != fd ==> Kept(d, d', other)
  {
    forall other | other != fd ensures Kept(d, d', other) {
      assert Kept(Settled(d, t), d', other);
    }
  }

  lemma KeptChain(d: Desk, d1: Desk, d2: Desk, fd: int)
    requires forall other :: other != fd ==> Kept(d, d1, other)
    requires forall other :: other != fd ==> Kept(d1, d2, other)
    ensures forall other :: other != fd ==> Kept(d, d2, other)
  {
    forall other | other != fd ensures Kept(d, d2, other) {
      assert Kept(d, d1, other) && Kept(d1, d2, other);
    }
  }

  lemma GrownNot(d: Desk, fd: int)
    requires fd in d.connections && fd in d.states
    ensures Grown(d, d, fd)
  {
  }

  lemma GrownRemoved(d0: Desk, d: Desk, fd: int)
    requires Grown(d0, d, fd)
    ensures Grown(d0, Removed(d, fd), fd)
  {
    var d' := Removed(d, fd);
    forall other | other != fd ensures Kept(d0, d', other) {
      assert Kept(d0, d, other);
    }
  }

  lemma GrownWatching(d0: Desk, d: Desk, fd: int, want: Interest, modified: bool)
    requires Grown(d0, d, fd)
    ensures Grown(d0, Watching(d, fd, want, modified), fd)
  {
    GrownRemoved(d0, d, fd);
    var d' := Watching(d, fd, want, modified);
    forall other | other != fd ensures Kept(d0, d', other) {
      assert Kept(d0, d, other) && Kept(d0, Removed(d, fd), other);
    }
  }

  lemma GrownAnswered(d0: Desk, d: Desk, fd: int, close: bool, deadline: int)
    requires Grown(d0, d, fd) && fd in d.connections && fd in d.states
    ensures Grown(d0, Tuned(AnsweredAtOnce(d, fd, close), fd, deadline), fd)
  {
    var d' := Tuned(AnsweredAtOnce(d, fd, close), fd, deadline);
    forall other | other != fd ensures Kept(d0, d', other) {
      assert Kept(d0, d, other);
    }
  }

  lemma GrownTuned(d0: Desk, d: Desk, fd: int, deadline: int)
    requires Grown(d0, d, fd) && fd in d.connections && fd in d.states
    ensures Grown(d0, Tuned(d, fd, deadline), fd)
  {
    var d' := Tuned(d, fd, deadline);
    forall other | other != fd ensures Kept(d0, d', other) {
      assert Kept(d0, d, other);
    }
  }

  lemma GrownChain(d0: Desk, d: Desk, d': Desk, fd: int)
    requires Grown(d0, d, fd) && Grown(d, d', fd)
    ensures Grown(d0, d', fd)
  {
    forall other | other != fd ensures Kept(d0, d', other) {
      assert Kept(d0, d, other) && Kept(d, d', other);
    }
    hide Kept;
    forall t | t in d'.jobs && t !in d0.jobs ensures d'.jobs[t].fd == fd && d'.jobs[t].generation == d0.states[fd].generation {
      if t in d.jobs {
        assert d'.jobs[t] == d.jobs[t];
      }
    }
  }

  lemma GrownDeferred(d0: Desk, d: Desk, fd: int, close: bool, deadline: int)
    requires Grown(d0, d, fd) && fd in d.connections && fd in d.states && d.tickets !in d.jobs && d.tickets !in d0.jobs
    ensures Grown(d0, Tuned(Deferred(d, fd, close), fd, deadline), fd)
  {
    var d' := Tuned(Deferred(d, fd, close), fd, deadline);
    forall other | other != fd ensures Kept(d0, d', other) {
      assert Kept(d0, d, other);
    }
  }

  lemma GrownSpoken(d0: Desk, d: Desk, d': Desk, fd: int)
    requires Grown(d0, d, fd) && (forall other :: other != fd ==> Kept(d, d', other)) && d'.jobs == d.jobs
    requires d'.nextGeneration == d.nextGeneration && d'.tickets == d.tickets && (fd !in d'.connections || Spoke(d, d', fd))
    ensures Grown(d0, d', fd)
  {
    forall other | other != fd ensures Kept(d0, d', other) {
      assert Kept(d0, d, other) && Kept(d, d', other);
    }
  }

  lemma FreshTicket(d: Desk)
    requires DeskOk(d)
    ensures d.tickets !in d.jobs && forall t :: t in d.jobs ==> t < d.tickets
  {
    hide ConnsOk;
  }

  /** Connection `fd` is the one of that generation. */
  predicate Current(d: Desk, fd: int, generation: nat) {
    fd in d.connections && fd in d.states && d.states[fd].generation == generation
  }

  /** The responses queued so far belong to the first requests, in order; only the last request may still wait for its own. */
  predicate AnsweredInOrder(c: Conn, pending: bool) {
    c.answered <= c.parsed && |c.parsed| - |c.answered| == if pending then 1 else 0
  }

  lemma BooksSay(d: Desk)
    requires DeskOk(d)
    ensures forall fd :: fd in d.connections ==> fd in d.states && AnsweredInOrder(d.connections[fd], d.states[fd].redisPending)
    ensures forall t, u :: t in d.jobs && u in d.jobs && t != u ==> d.jobs[t].generation != d.jobs[u].generation
  {
    hide JobOk;
    forall fd | fd in d.connections ensures fd in d.states && AnsweredInOrder(d.connections[fd], d.states[fd].redisPending) {
      assert OrderOk(d.connections[fd], d.states[fd]);
    }
  }

  /** A connection that does not wait has answered all it was asked. */
  lemma CompletedInOrder(d: Desk, fd: int)
    requires DeskOk(d)
    ensures fd in d.connections ==> fd in d.states && (!d.states[fd].redisPending ==> d.connections[fd].answered == d.connections[fd].parsed)
  {
    if fd in d.connections { assert OrderOk(d.connections[fd], d.states[fd]); }
  }

  /** No other job has the generation of job `t`; its connection, if it lives, waits for it. */
  lemma JobKnown(d: Desk, t: nat)
    requires DeskOk(d) && t in d.jobs
    ensures forall u :: u in d.jobs && u != t ==> d.jobs[u].generation != d.jobs[t].generation
    ensures var job := d.jobs[t]; Current(d, job.fd, job.generation) ==>
              d.states[job.fd].redisPending && Awaits(d.connections[job.fd], job.request)
  {
    assert JobOk(d.jobs[t], d.connections, d.states, d.nextGeneration);
  }

  function Expired(states: map<int, State>, now: int): set<int> { set fd | fd in states && now >= states[fd].deadline }

  function Tuned(d: Desk, fd: int, deadline: int): Desk
    requires fd in d.states
  {
    d.(states := d.states[fd := d.states[fd].(deadline := deadline)])
  }

  /** Output has not changed what connection `fd` has been asked and has answered. */
  predicate Spoke(d: Desk, d': Desk, fd: int) {
    && fd in d.connections && fd in d'.connections && fd in d.states && fd in d'.states
    && d'.connections[fd].parsed == d.connections[fd].parsed && d'.connections[fd].answered == d.connections[fd].answered
    && d'.states[fd].redisPending == d.states[fd].redisPending && d'.states[fd].generation == d.states[fd].generation
  }

  lemma SameKeys(d: Desk)
    requires DeskOk(d)
    ensures d.connections.Keys == d.states.Keys && d.active == |d.connections|
  {
  }

  /** The books after every client that comes, and can be used, was taken in. */
  function TakenIn(d: Desk, incoming: seq<Accepted>, now: int): Desk
    decreases |incoming|
  {
    if incoming == [] || incoming[0].AcceptEnds? then d
    else if incoming[0].Client? && incoming[0].usable
    then TakenIn(Arrived(d, incoming[0].fd, now + REQUEST_TIMEOUT_SECONDS), incoming[1..], now)
    else TakenIn(d, incoming[1..], now)
  }

  /** New connections come on descriptors that no connection has. */
  predicate Arrivals(taken: set<int>, incoming: seq<Accepted>)
    decreases |incoming|
  {
    if incoming == [] || incoming[0].AcceptEnds? then true
    else if incoming[0].AcceptInterrupted? || !incoming[0].usable then Arrivals(taken, incoming[1..])
    else incoming[0].fd !in taken && Arrivals(taken + {incoming[0].fd}, incoming[1..])
  }
}
