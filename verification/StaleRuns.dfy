/** Two runs of the load balancer in which the end of a failed backend's stream is taken for the end of its
    successor's (src/lb/LoadBalancer.cpp). */
module StaleRuns {
  import opened Relay
  import opened Sockets
  import opened LbBooks
  import opened Dialing
  import opened LbEvents

  const CLIENT := 5
  const FIRST := 7
  const SECOND := 8

  const IDLE := Backend(true, 0, 0, 0, 0)

  /** No connection yet, and two healthy backends. */
  const EMPTY := Ledger(map[], map[], [IDLE, IDLE], {}, {}, map[])

  const NO_ANSWERS := Answers(PeekNothing, ReadWouldBlock, "", [], [], true, [], [], [Refused, Refused])

  datatype Play = Play(isBackend: bool, event: Event, answers: Answers, tried: seq<nat>)

  /** The books after events on the one connection, as long as they are possible. */
  function Played(l: Ledger, plays: seq<Play>): Ledger
    decreases |plays|
  {
    if plays == [] then l
    else
      var play := plays[0];
      if Possible(l, CLIENT, play.answers) && LinkedOk(l, CLIENT) && (play.isBackend ==> MayRead(l, CLIENT, true, play.answers.fromBackend))
      then Played(Served(l, CLIENT, play.isBackend, play.event, play.answers, play.tried), plays[1..])
      else l
  }

  // ----- the events -----

  /** The client sends its request, and perhaps ends; the first backend is dialled. */
  function Asks(ends: bool): Play {
    Play(false, Event(true, false, false, false, ends),
         NO_ANSWERS.(fromClient := if ends then [Data("PUT"), Eof] else [Data("PUT")], dials := [Dialled(FIRST, true, true), Refused]), [0])
  }

  /** The connection to the first backend is reported readable and writable at once: the stream has ended and the
      socket has an error. The second backend is dialled. */
  const FAILS := Play(true, Event(true, true, false, false, false),
                      NO_ANSWERS.(fromBackend := [Eof], socketOk := false, dials := [Dialled(SECOND, true, true), Refused]), [1])

  /** The connection to the second backend stands, and takes the request. */
  const TAKES := Play(true, Event(false, true, false, false, false), NO_ANSWERS.(toBackend := [Sent(3)]), [])

  // ----- the books on the way -----

  function One(p: Pair, w: Wire, first: Backend, second: Backend): Ledger {
    Ledger(map[CLIENT := p], if p.backendFd == -1 then map[] else map[p.backendFd := CLIENT], [first, second], {},
           if p.backendFd == -1 then {CLIENT} else {CLIENT, p.backendFd}, map[CLIENT := w])
  }

  const NEW := NewPair(CLIENT, "10.0.0.1")

  function Asked(ends: bool): Pair {
    NEW.(backendFd := FIRST, backendConnecting := true, clientReadClosed := ends, toBackend := "PUT")
  }

  lemma OneTouched(p: Pair, w: Wire, first: Backend, second: Backend, p': Pair, w': Wire)
    requires p'.backendFd == p.backendFd
    ensures Touched(One(p, w, first, second), CLIENT, p', w') == One(p', w', first, second)
  {
    assert map[CLIENT := p][CLIENT := p'] == map[CLIENT := p'] && map[CLIENT := w][CLIENT := w'] == map[CLIENT := w'];
  }

  const BUSY := Backend(true, 1, 1, 0, 0)

  lemma DialFirst(ends: bool)
    ensures TryAll(One(NEW, NEW_WIRE, IDLE, IDLE), CLIENT, [0], Asks(ends).answers.dials, false)
         == One(NEW.(backendFd := FIRST, backendConnecting := true), NEW_WIRE, BUSY, IDLE)
  {
    var l, dials := One(NEW, NEW_WIRE, IDLE, IDLE), Asks(ends).answers.dials;
    assert [0][..0] == [] && TryAll(l, CLIENT, [], dials, false) == l;
    assert TryOnce(l, CLIENT, 0, dials[0], false) == One(NEW.(backendFd := FIRST, backendConnecting := true), NEW_WIRE, BUSY, IDLE);
  }

  lemma ReadRequest(ends: bool)
    ensures var l, answers := One(NEW.(backendFd := FIRST, backendConnecting := true), NEW_WIRE, BUSY, IDLE), Asks(ends).answers.fromClient;
            MayRead(l, CLIENT, false, answers) && LinkedOk(l, CLIENT)
            && ReadStep(l, CLIENT, false, answers, false) == (One(Asked(false), NEW_WIRE.(fromClient := "PUT"), BUSY, IDLE), true, answers[1..])
  {
    var l, answers := One(NEW.(backendFd := FIRST, backendConnecting := true), NEW_WIRE, BUSY, IDLE), Asks(ends).answers.fromClient;
    assert Pump(0, answers, false) == Pumped("PUT", Open, 1);
    assert NEW_WIRE.fromClient + "PUT" == "PUT";
    OneTouched(NEW.(backendFd := FIRST, backendConnecting := true), NEW_WIRE, BUSY, IDLE, Asked(false), NEW_WIRE.(fromClient := "PUT"));
  }

  lemma ReadEnd()
    ensures var l := One(Asked(false), NEW_WIRE.(fromClient := "PUT"), BUSY, IDLE);
            MayRead(l, CLIENT, false, [Eof]) && LinkedOk(l, CLIENT)
            && ReadStep(l, CLIENT, false, [Eof], true) == (One(Asked(true), NEW_WIRE.(fromClient := "PUT", clientEof := true), BUSY, IDLE), true, [])
  {
    assert Pump(3, [Eof], true) == Pumped("", SawEof, 1);
    assert "PUT" + "" == "PUT" && [Eof][1..] == [];
    OneTouched(Asked(false), NEW_WIRE.(fromClient := "PUT"), BUSY, IDLE, Asked(true), NEW_WIRE.(fromClient := "PUT", clientEof := true));
  }

  lemma AskingLeads(ends: bool)
    ensures var l, play := One(NEW, NEW_WIRE, IDLE, IDLE), Asks(ends);
            LinkedOk(l, CLIENT) && CLIENT in l.wires
            && Served(l, CLIENT, false, play.event, play.answers, play.tried)
               == One(Asked(ends), NEW_WIRE.(fromClient := "PUT", clientEof := ends), BUSY, IDLE)
  {
    hide TryAll, ReadStep, Plausible, FinishRound;
    DialFirst(ends);
    ReadRequest(ends);
    ReadEnd();
    Rests(Asked(ends), NEW_WIRE.(fromClient := "PUT", clientEof := ends), BUSY, IDLE);
    var l, play := One(NEW, NEW_WIRE, IDLE, IDLE), Asks(ends);
    assert play.answers.fromClient[1..] == if ends then [Eof] else [];
    assert RowWorks(play.tried, play.answers.dials);
    assert ClientStep(l, CLIENT, play.answers, play.tried)
        == (One(Asked(false), NEW_WIRE.(fromClient := "PUT"), BUSY, IDLE), true, play.answers.fromClient[1..]);
  }

  /** A round that ends with a request that cannot be sent yet. */
  lemma Rests(p: Pair, w: Wire, first: Backend, second: Backend)
    requires p.clientFd == CLIENT && p.backendFd != -1 && p.backendConnecting && p.toBackend == "PUT" && p.toBackendOffset == 0 && p.backendIndex < 2
    requires p.toClient == "" && p.toClientOffset == 0 && !p.metricsConnection && (p.backendReadClosed ==> p.clientWriteClosed)
    ensures FinishRound(One(p, w, first, second), CLIENT, [], []) == One(p, w, first, second)
  {
    assert Settled(p) == p;
  }

  // ----- the other events -----

  function Asking(ends: bool): Wire { NEW_WIRE.(fromClient := "PUT", clientEof := ends) }

  function Ended(ends: bool): Pair { Asked(ends).(backendReadClosed := true) }

  lemma EndRead(ends: bool)
    ensures var l := One(Asked(ends), Asking(ends), BUSY, IDLE);
            LinkedOk(l, CLIENT) && CLIENT in l.wires && MayRead(l, CLIENT, true, [Eof])
            && ReadBoth(l, CLIENT, true, true, false, [Eof]) == (One(Ended(ends), Asking(ends).(backendEof := true), BUSY, IDLE), true)
  {
    var l, w := One(Asked(ends), Asking(ends), BUSY, IDLE), Asking(ends).(backendEof := true);
    assert Pump(0, [Eof], false) == Pumped("", SawEof, 1);
    OneTouched(Asked(ends), Asking(ends), BUSY, IDLE, Ended(ends), w);
    assert w.fromBackends + "" == w.fromBackends;
    assert ReadStep(l, CLIENT, true, [Eof], false).0 == One(Ended(ends), w, BUSY, IDLE);
  }

  const FAILED := Backend(true, 0, 1, 1, 0)
  const CHOSEN := Backend(true, 1, 1, 0, 1)

  function Moved(ends: bool): Pair { Ended(ends).(backendFd := SECOND, backendIndex := 1) }

  lemma FailLeads(ends: bool)
    ensures var l := One(Asked(ends), Asking(ends), BUSY, IDLE);
            LinkedOk(l, CLIENT) && CLIENT in l.wires && MayRead(l, CLIENT, true, FAILS.answers.fromBackend)
            && Served(l, CLIENT, true, FAILS.event, FAILS.answers, [1])
               == One(Moved(ends), Asking(ends).(staleEof := true), FAILED, CHOSEN)
  {
    hide ReadBoth;
    EndRead(ends);
    var l, dials := One(Ended(ends), Asking(ends).(backendEof := true), BUSY, IDLE), FAILS.answers.dials;
    var p, w := Free(Ended(ends)), Asking(ends).(staleEof := true);
    DetachOne(Ended(ends), Asking(ends).(backendEof := true), BUSY, IDLE);
    DialSecond(p, w);
    assert RowWorks([1], dials);
    assert FailedOver(l, CLIENT, dials, [1]) == One(Moved(ends), w, FAILED, CHOSEN);
  }

  lemma DetachOne(p: Pair, w: Wire, first: Backend, second: Backend)
    requires p.backendFd == FIRST && p.backendIndex == 0
    ensures var l := One(p, w, first, second);
            CLIENT in l.connections && CLIENT in l.wires && l.connections[CLIENT].backendIndex < 2
            && Detached(l, CLIENT) == One(Free(p), Freed(w), GivenUp(first), second)
  {
    assert map[CLIENT := p][CLIENT := Free(p)] == map[CLIENT := Free(p)] && map[CLIENT := w][CLIENT := Freed(w)] == map[CLIENT := Freed(w)];
    assert map[FIRST := CLIENT] - {FIRST} == map[] && {CLIENT, FIRST} - {FIRST} == {CLIENT};
  }

  lemma DialSecond(p: Pair, w: Wire)
    requires p.backendFd == -1
    ensures TryAll(One(p, w, FAILED, IDLE), CLIENT, [1], FAILS.answers.dials, true)
         == One(p.(backendFd := SECOND, backendIndex := 1, backendConnecting := true), w, FAILED, CHOSEN)
  {
    var l, dials := One(p, w, FAILED, IDLE), FAILS.answers.dials;
    assert [1][..0] == [] && TryAll(l, CLIENT, [], dials, true) == l;
    var p' := p.(backendFd := SECOND, backendIndex := 1, backendConnecting := true);
    assert map[CLIENT := p][CLIENT := p'] == map[CLIENT := p'];
    assert TryOnce(l, CLIENT, 1, dials[0], true) == One(p', w, FAILED, CHOSEN);
  }

  function Delivered(ends: bool): Wire { Asking(ends).(staleEof := true, toBackend := "PUT") }

  /** The request has been sent on, and nothing waits in either direction. */
  function Relieved(ends: bool): Pair {
    Moved(ends).(backendConnecting := false, toBackend := "", toBackendOffset := 0, clientWriteClosed := true)
  }

  lemma TakeLeads(ends: bool)
    ensures var l := One(Moved(ends), Asking(ends).(staleEof := true), FAILED, CHOSEN);
            LinkedOk(l, CLIENT) && CLIENT in l.wires && MayRead(l, CLIENT, true, TAKES.answers.fromBackend)
            && var l' := Served(l, CLIENT, true, TAKES.event, TAKES.answers, []);
               if ends then CLIENT !in l'.connections else l' == One(Relieved(ends), Delivered(ends), FAILED, CHOSEN)
    ensures FateOf(Cleared(Moved(ends).(backendConnecting := false, toBackendOffset := 3))) == if ends then Graceful else Keep
  {
    var p, w := Moved(ends), Asking(ends).(staleEof := true);
    var l := One(p, w, FAILED, CHOSEN);
    var p1 := p.(backendConnecting := false);
    OneTouched(p, w, FAILED, CHOSEN, p1, w);
    var l1 := One(p1, w, FAILED, CHOSEN);
    assert BackendInput(l, CLIENT, TAKES.event, TAKES.answers, []) == (l1, true);
    assert Push(3, [Sent(3)]) == Pushed(3, false) by { assert Push(0, [Sent(3)][1..]) == Pushed(0, false); }
    var p2 := p1.(toBackendOffset := 3);
    assert "" + "PUT"[0..3] == "PUT";
    OneTouched(p1, w, FAILED, CHOSEN, p2, Delivered(ends));
    var l2 := One(p2, Delivered(ends), FAILED, CHOSEN);
    assert FlushAll(l1, CLIENT, [Sent(3)], []) == l2;
    if !ends {
      OneTouched(p2, Delivered(ends), FAILED, CHOSEN, Relieved(ends), Delivered(ends));
      assert Settled(p2) == Relieved(ends);
    }
  }

  lemma Arrives()
    ensures Accepted(EMPTY, CLIENT, "10.0.0.1") == One(NEW, NEW_WIRE, IDLE, IDLE)
  {
  }

  lemma EmptyOk()
    ensures BooksOk(EMPTY)
  {
    EmptyBooks([IDLE, IDLE]);
  }

  lemma Begins(ends: bool)
    ensures Possible(One(NEW, NEW_WIRE, IDLE, IDLE), CLIENT, Asks(ends).answers)
    ensures Possible(One(Asked(ends), Asking(ends), BUSY, IDLE), CLIENT, FAILS.answers)
    ensures Possible(One(Moved(ends), Asking(ends).(staleEof := true), FAILED, CHOSEN), CLIENT, TAKES.answers)
  {
  }

  /** The second backend is only being connected to, and its stream counts as ended. Once it has taken the request, the
      client's side is shut down although it has neither sent anything nor ended; and when the client has ended as well,
      the connection is closed as finished at that moment and never answered. */
  lemma StaleEndOfFile(ends: bool)
    ensures BooksOk(EMPTY)
    ensures var l := Played(Accepted(EMPTY, CLIENT, "10.0.0.1"), [Asks(ends), FAILS]);
            CLIENT in l.connections && CLIENT in l.wires
            && var p, w := l.connections[CLIENT], l.wires[CLIENT];
               p.backendFd == SECOND && p.backendConnecting && p.backendReadClosed && !w.backendEof && w.fromBackends == "" && w.toBackend == ""
    ensures var l := Played(Accepted(EMPTY, CLIENT, "10.0.0.1"), [Asks(ends), FAILS, TAKES]);
            if ends then CLIENT !in l.connections
            else
              CLIENT in l.connections && CLIENT in l.wires
              && var p, w := l.connections[CLIENT], l.wires[CLIENT];
                 p.backendFd == SECOND && p.clientWriteClosed && !w.backendEof && w.fromBackends == "" && w.toBackend == "PUT"
  {
    hide BooksOk, Served, Possible, LinkedOk, MayRead, Played;
    EmptyOk();
    Arrives();
    Begins(ends);
    var l0, l1 := One(NEW, NEW_WIRE, IDLE, IDLE), One(Asked(ends), Asking(ends), BUSY, IDLE);
    var l2 := One(Moved(ends), Asking(ends).(staleEof := true), FAILED, CHOSEN);
    AskingLeads(ends);
    FailLeads(ends);
    TakeLeads(ends);
    PlayOne(l0, Asks(ends), [FAILS]);
    PlayOne(l1, FAILS, []);
    PlayOne(l0, Asks(ends), [FAILS, TAKES]);
    PlayOne(l1, FAILS, [TAKES]);
    PlayOne(l2, TAKES, []);
    assert [Asks(ends)] + [FAILS] == [Asks(ends), FAILS] && [FAILS] + [] == [FAILS];
    assert [Asks(ends)] + [FAILS, TAKES] == [Asks(ends), FAILS, TAKES];
    assert [FAILS] + [TAKES] == [FAILS, TAKES] && [TAKES] + [] == [TAKES];
  }

  lemma PlayOne(l: Ledger, play: Play, others: seq<Play>)
    requires Possible(l, CLIENT, play.answers) && LinkedOk(l, CLIENT) && (play.isBackend ==> MayRead(l, CLIENT, true, play.answers.fromBackend))
    ensures CLIENT in l.wires
    ensures Played(l, [play] + others) == Played(Served(l, CLIENT, play.isBackend, play.event, play.answers, play.tried), others)
    ensures Played(Served(l, CLIENT, play.isBackend, play.event, play.answers, play.tried), [])
         == Served(l, CLIENT, play.isBackend, play.event, play.answers, play.tried)
  {
    hide Served;
    assert ([play] + others)[1..] == others;
  }
}
