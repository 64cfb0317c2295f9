/** The bytes of one proxied connection (src/lb/LoadBalancer.cpp): what is read, buffered, sent and shut down. */
module Relay {
  import opened Sockets

  const MAX_BUFFER_SIZE: nat := 8 * 1024 * 1024

  /** The load balancer's record of one client. */
  datatype Pair = Pair(
    clientFd: int, backendFd: int, backendIndex: nat, backendConnecting: bool,
    clientReadClosed: bool, backendReadClosed: bool, clientWriteClosed: bool, backendWriteClosed: bool,
    metricsConnection: bool, clientIp: string,
    toBackend: string, toBackendOffset: nat, toClient: string, toClientOffset: nat)

  /** What has really passed over the sockets: `toBackend` counts for the present backend only. */
  datatype Wire = Wire(
    fromClient: string, toBackend: string, fromBackends: string, toClient: string,
    clientEof: bool, backendEof: bool, staleEof: bool)

  const NEW_WIRE := Wire("", "", "", "", false, false, false)

  function NewPair(clientFd: int, clientIp: string): Pair {
    Pair(clientFd, -1, 0, false, false, false, false, false, false, clientIp, "", 0, "", 0)
  }

  // ----- the two loops over a socket -----

  datatype PumpEnd = Open | SawEof | Overflow | Broken

  /** What a read loop appends to a buffer, how it ends, and how many answers of `recv` it used. */
  datatype Pumped = Pumped(data: string, end: PumpEnd, used: nat)

  function Pump(pending: nat, answers: seq<Receipt>, drain: bool): (r: Pumped)
    ensures r.used <= |answers|
    ensures pending <= MAX_BUFFER_SIZE ==> pending + |r.data| <= MAX_BUFFER_SIZE
    decreases |answers|
  {
    if answers == [] then Pumped("", Open, 0) else
    match answers[0]
    case Data(bytes) =>
      if pending + |bytes| > MAX_BUFFER_SIZE then Pumped("", Overflow, 1)
      else if !drain then Pumped(bytes, Open, 1)
      else
        var more := Pump(pending + |bytes|, answers[1..], true);
        Pumped(bytes + more.data, more.end, 1 + more.used)
    case Eof => Pumped("", SawEof, 1)
    case ReadInterrupted =>
      if !drain then Pumped("", Open, 1)
      else
        var more := Pump(pending, answers[1..], true);
        Pumped(more.data, more.end, 1 + more.used)
    case ReadWouldBlock => Pumped("", Open, 1)
    case ReadFailed => Pumped("", Broken, 1)
  }

  /** How many pending bytes a send loop gets rid of, and whether the socket failed. */
  datatype Pushed = Pushed(count: nat, failed: bool)

  function Push(pending: nat, answers: seq<Sending>): (r: Pushed)
    ensures r.count <= pending
    decreases |answers|
  {
    if pending == 0 || answers == [] then Pushed(0, false) else
    match answers[0]
    case Sent(n) =>
      if n == 0 then Pushed(0, true)
      else
        var taken := if n < pending then n else pending;
        var more := Push(pending - taken, answers[1..]);
        Pushed(taken + more.count, more.failed)
    case SendInterrupted => Push(pending, answers[1..])
    case SendWouldBlock => Pushed(0, false)
    case SendFailed => Pushed(0, true)
  }

  /** A kernel with room lets a send loop empty the buffer. */
  lemma {:induction false} PushDelivers(pending: nat, answers: seq<Sending>)
    requires answers != [] && answers[0].Sent? && answers[0].count >= pending
    ensures Push(pending, answers) == Pushed(pending, false)
  {
    if pending > 0 {
      assert Push(0, answers[1..]) == Pushed(0, false);
    }
  }

  /** A text that is never longer than the buffer limit, however the answers come. */
  function DataIn(answers: seq<Receipt>): string {
    if answers == [] then "" else (if answers[0].Data? then answers[0].bytes else "") + DataIn(answers[1..])
  }

  /** A loop that ends well has taken the data of the answers it used, in order and without loss. */
  lemma {:induction false} PumpTakesAll(pending: nat, answers: seq<Receipt>, drain: bool)
    ensures var r := Pump(pending, answers, drain);
            (r.end == Open || r.end == SawEof ==> r.data == DataIn(answers[..r.used])) && r.data <= DataIn(answers)
    decreases |answers|
  {
    if answers != [] {
      var r := Pump(pending, answers, drain);
      assert answers[..r.used] == if r.used == 0 then [] else [answers[0]] + answers[1..][..r.used - 1];
      if drain && answers[0].Data? && pending + |answers[0].bytes| <= MAX_BUFFER_SIZE {
        PumpTakesAll(pending + |answers[0].bytes|, answers[1..], true);
      } else if drain && answers[0].ReadInterrupted? {
        PumpTakesAll(pending, answers[1..], true);
      } else if r.used == 1 {
        assert DataIn(answers[1..][..0]) == "";
      }
    } else {
      assert answers[..0] == [];
    }
  }

  /** What `recv` may answer: data is never empty, and nothing follows the end of the stream. */
  predicate Plausible(answers: seq<Receipt>, ended: bool) {
    && (forall k :: 0 <= k < |answers| && answers[k].Data? ==> !ended && answers[k].bytes != "")
    && (forall j, k :: 0 <= j < k < |answers| && answers[j].Eof? ==> !answers[k].Data?)
  }

  /** A read loop leaves a plausible rest, and reads nothing from a stream that had ended. */
  lemma {:induction false} PumpIsPlausible(pending: nat, answers: seq<Receipt>, drain: bool, ended: bool)
    requires Plausible(answers, ended)
    ensures var r := Pump(pending, answers, drain); Plausible(answers[r.used..], ended || r.end == SawEof) && (ended ==> r.data == "")
    decreases |answers|
  {
    if answers != [] {
      var r := Pump(pending, answers, drain);
      assert Plausible(answers[1..], ended || answers[0].Eof?);
      if drain && answers[0].Data? && pending + |answers[0].bytes| <= MAX_BUFFER_SIZE {
        PumpIsPlausible(pending + |answers[0].bytes|, answers[1..], true, ended);
        assert answers[1..][r.used - 1..] == answers[r.used..];
      } else if drain && answers[0].ReadInterrupted? {
        PumpIsPlausible(pending, answers[1..], true, ended);
        assert answers[1..][r.used - 1..] == answers[r.used..];
      }
    }
  }

  // ----- the invariant of one connection -----

  function ToBackendPending(p: Pair): string
    requires p.toBackendOffset <= |p.toBackend|
  {
    p.toBackend[p.toBackendOffset..]
  }

  function ToClientPending(p: Pair): string
    requires p.toClientOffset <= |p.toClient|
  {
    p.toClient[p.toClientOffset..]
  }

  predicate BuffersOk(p: Pair) {
    && p.toBackendOffset <= |p.toBackend| && p.toClientOffset <= |p.toClient|
    && |ToBackendPending(p)| <= MAX_BUFFER_SIZE
    && (!p.metricsConnection ==> |ToClientPending(p)| <= MAX_BUFFER_SIZE)
  }

  /** Nothing received is lost, doubled or reordered; nothing is sent to a backend before it is connected;
      a side is shut down only when the other side has ended and everything of it has been sent. */
  predicate RelayOk(p: Pair, w: Wire) {
    && BuffersOk(p)
    && w.fromClient == w.toBackend + ToBackendPending(p)
    && (!p.metricsConnection ==> w.fromBackends == w.toClient + ToClientPending(p))
    && (p.backendFd == -1 || p.backendConnecting ==> w.toBackend == "")
    && (!p.metricsConnection ==> p.clientReadClosed == w.clientEof && p.backendReadClosed == (w.backendEof || w.staleEof))
    && (p.metricsConnection ==> p.backendFd == -1)
    && (p.backendFd == -1 ==> !w.backendEof)
    && (p.backendWriteClosed ==> w.clientEof && ToBackendPending(p) == "" && p.backendFd != -1 && !p.backendConnecting)
    && (p.clientWriteClosed && !p.metricsConnection ==> p.backendReadClosed && (!w.staleEof ==> ToClientPending(p) == ""))
  }

  lemma FreshOk(clientFd: int, clientIp: string)
    ensures RelayOk(NewPair(clientFd, clientIp), NEW_WIRE)
  {
  }

  // ----- reading -----

  /** A buffer after a read loop appended `data`: a fully sent buffer is reused from its start. */
  function Appended(buffer: string, offset: nat, data: string): (string, nat) {
    if data == "" then (buffer, offset) else if offset == |buffer| then (data, 0) else (buffer + data, offset)
  }

  function ReadFromClient(p: Pair, data: string, eof: bool): Pair {
    var (buffer, offset) := Appended(p.toBackend, p.toBackendOffset, data);
    p.(toBackend := buffer, toBackendOffset := offset, clientReadClosed := p.clientReadClosed || eof)
  }

  function ReadFromBackend(p: Pair, data: string, eof: bool): Pair {
    var (buffer, offset) := Appended(p.toClient, p.toClientOffset, data);
    p.(toClient := buffer, toClientOffset := offset, backendReadClosed := p.backendReadClosed || eof)
  }

  function WireFromClient(w: Wire, data: string, eof: bool): Wire {
    w.(fromClient := w.fromClient + data, clientEof := w.clientEof || eof)
  }

  function WireFromBackend(w: Wire, data: string, eof: bool): Wire {
    w.(fromBackends := w.fromBackends + data, backendEof := w.backendEof || eof)
  }

  lemma AppendedPending(buffer: string, offset: nat, data: string)
    requires offset <= |buffer|
    ensures var (b, o) := Appended(buffer, offset, data); o <= |b| && b[o..] == buffer[offset..] + data
  {
    if data == "" {
      assert buffer[offset..] + data == buffer[offset..];
    } else if offset == |buffer| {
      assert buffer[offset..] + data == data;
    } else {
      assert (buffer + data)[offset..] == buffer[offset..] + data;
    }
  }

  lemma AppendedTwice(buffer: string, offset: nat, first: string, second: string)
    requires offset <= |buffer|
    ensures var (b, o) := Appended(buffer, offset, first); Appended(b, o, second) == Appended(buffer, offset, first + second)
  {
    if first == "" {
      assert first + second == second;
    } else if second == "" {
      assert first + second == first;
    } else if offset < |buffer| {
      assert buffer + first + second == buffer + (first + second);
    }
  }

  /** The rest of a read loop after `data` has been appended from `used` answers. */
  function Then(data: string, used: nat, rest: Pumped): Pumped { Pumped(data + rest.data, rest.end, used + rest.used) }

  /** The read loop: appends what arrives to the buffer, once or until nothing more is there. */
  method Receive(buffer: string, offset: nat, answers: seq<Receipt>, drain: bool)
    returns (buffer': string, offset': nat, end: PumpEnd, used: nat)
    requires offset <= |buffer| && Plausible(answers, false)
    ensures var r := Pump(|buffer| - offset, answers, drain);
            (buffer', offset') == Appended(buffer, offset, r.data) && end == r.end && used == r.used
  {
    hide Appended, Plausible;
    buffer', offset', end, used := buffer, offset, Open, 0;
    ghost var data, all := "", Pump(|buffer| - offset, answers, drain);
    AppendsNothing(buffer, offset);
    assert answers[0..] == answers && "" + all.data == all.data;
    while used < |answers|
      invariant used <= |answers| && offset' <= |buffer'| && (buffer', offset') == Appended(buffer, offset, data)
      invariant all == Then(data, used, Pump(|buffer'| - offset', answers[used..], drain))
    {
      var answer := answers[used];
      assert answers[used..][1..] == answers[used + 1..] && data + "" == data;
      used := used + 1;
      if answer.Data? {
        if |buffer'| - offset' + |answer.bytes| > MAX_BUFFER_SIZE {
          end := Overflow;
          return;
        }
        OneChunk(buffer, offset, data, answers, used - 1);
        var pending := |buffer'| - offset';
        Joins(data, answer.bytes, Pump(pending + |answer.bytes|, answers[used..], true).data);
        if offset' == |buffer'| { buffer', offset' := "", 0; }
        buffer' := buffer' + answer.bytes;
        data := data + answer.bytes;
        if !drain {
          return;
        }
      } else if answer.Eof? {
        end := SawEof;
        return;
      } else if answer.ReadFailed? {
        end := Broken;
        return;
      } else if answer.ReadWouldBlock? || !drain {
        return;
      }
    }
    assert data + "" == data;
  }

  lemma Joins(a: string, b: string, c: string)
    ensures a + (b + c) == (a + b) + c
  {
  }

  lemma AppendsNothing(buffer: string, offset: nat)
    ensures Appended(buffer, offset, "") == (buffer, offset)
  {
  }

  lemma OneChunk(buffer: string, offset: nat, data: string, answers: seq<Receipt>, k: nat)
    requires offset <= |buffer| && Plausible(answers, false) && k < |answers| && answers[k].Data?
    ensures var (b, o) := Appended(buffer, offset, data);
            o <= |b| && (if o == |b| then ("" + answers[k].bytes, 0) else (b + answers[k].bytes, o))
                     == Appended(buffer, offset, data + answers[k].bytes)
  {
    AppendedTwice(buffer, offset, data, answers[k].bytes);
    AppendedPending(buffer, offset, data);
    assert "" + answers[k].bytes == answers[k].bytes;
  }

  /** The send loop: how much of the pending bytes the socket takes. */
  method Transmit(pending: nat, answers: seq<Sending>) returns (count: nat, failed: bool)
    ensures Pushed(count, failed) == Push(pending, answers)
  {
    count, failed := 0, false;
    var used := 0;
    assert answers[0..] == answers;
    while count < pending && used < |answers|
      invariant used <= |answers| && count <= pending
      invariant Push(pending, answers) == var r := Push(pending - count, answers[used..]); Pushed(count + r.count, r.failed)
    {
      var answer := answers[used];
      assert answers[used..][1..] == answers[used + 1..];
      used := used + 1;
      if answer.Sent? && answer.count > 0 {
        count := count + if answer.count < pending - count then answer.count else pending - count;
      } else if answer.SendWouldBlock? {
        return;
      } else if !answer.SendInterrupted? {
        failed := true;
        return;
      }
    }
  }

  lemma ReadClientKeeps(p: Pair, w: Wire, data: string, eof: bool)
    requires RelayOk(p, w) && !p.metricsConnection && (w.clientEof ==> data == "")
    requires |ToBackendPending(p)| + |data| <= MAX_BUFFER_SIZE
    ensures RelayOk(ReadFromClient(p, data, eof), WireFromClient(w, data, eof))
  {
    AppendedPending(p.toBackend, p.toBackendOffset, data);
    hide Appended;
    assert w.toBackend + (ToBackendPending(p) + data) == w.toBackend + ToBackendPending(p) + data;
  }

  lemma ReadBackendKeeps(p: Pair, w: Wire, data: string, eof: bool)
    requires RelayOk(p, w) && p.backendFd != -1 && (w.backendEof ==> data == "")
    requires |ToClientPending(p)| + |data| <= MAX_BUFFER_SIZE
    ensures RelayOk(ReadFromBackend(p, data, eof), WireFromBackend(w, data, eof))
  {
    AppendedPending(p.toClient, p.toClientOffset, data);
    hide Appended;
    assert w.toClient + (ToClientPending(p) + data) == w.toClient + ToClientPending(p) + data;
  }

  // ----- sending -----

  lemma SendBackendKeeps(p: Pair, w: Wire, count: nat)
    requires RelayOk(p, w) && p.backendFd != -1 && !p.backendConnecting && p.toBackendOffset + count <= |p.toBackend|
    ensures RelayOk(p.(toBackendOffset := p.toBackendOffset + count),
                    w.(toBackend := w.toBackend + p.toBackend[p.toBackendOffset..p.toBackendOffset + count]))
  {
    var cut := p.toBackendOffset + count;
    assert ToBackendPending(p) == p.toBackend[p.toBackendOffset..cut] + p.toBackend[cut..];
    assert w.toBackend + (p.toBackend[p.toBackendOffset..cut] + p.toBackend[cut..])
        == w.toBackend + p.toBackend[p.toBackendOffset..cut] + p.toBackend[cut..];
  }

  lemma SendClientKeeps(p: Pair, w: Wire, count: nat)
    requires RelayOk(p, w) && p.toClientOffset + count <= |p.toClient|
    ensures RelayOk(p.(toClientOffset := p.toClientOffset + count),
                    w.(toClient := w.toClient + p.toClient[p.toClientOffset..p.toClientOffset + count]))
  {
    var cut := p.toClientOffset + count;
    assert ToClientPending(p) == p.toClient[p.toClientOffset..cut] + p.toClient[cut..];
    assert w.toClient + (p.toClient[p.toClientOffset..cut] + p.toClient[cut..])
        == w.toClient + p.toClient[p.toClientOffset..cut] + p.toClient[cut..];
  }

  // ----- changing backends -----

  /** A failed backend is given up while it is still connecting, so that no byte has been sent to it. */
  lemma DetachKeeps(p: Pair, w: Wire)
    requires RelayOk(p, w) && p.backendConnecting && p.backendFd != -1
    ensures RelayOk(p.(backendFd := -1, backendConnecting := false), w.(backendEof := false, staleEof := w.staleEof || w.backendEof))
    ensures ToBackendPending(p) == w.fromClient
  {
    assert "" + ToBackendPending(p) == ToBackendPending(p);
  }

  lemma AttachKeeps(p: Pair, w: Wire, fd: int, index: nat, connecting: bool)
    requires RelayOk(p, w) && p.backendFd == -1 && !p.metricsConnection && fd != -1
    ensures RelayOk(p.(backendFd := fd, backendIndex := index, backendConnecting := connecting), w)
    ensures ToBackendPending(p) == w.fromClient
  {
    assert "" + ToBackendPending(p) == ToBackendPending(p);
  }

  // ----- the end of a round -----

  datatype Fate = Keep | ClientGone | MetricsDone | Graceful

  /** Fully sent buffers are emptied. */
  function Cleared(p: Pair): Pair {
    var sentAll, gotAll := p.toBackendOffset == |p.toBackend|, p.toClientOffset == |p.toClient|;
    p.(toBackend := if sentAll then "" else p.toBackend, toBackendOffset := if sentAll then 0 else p.toBackendOffset,
       toClient := if gotAll then "" else p.toClient, toClientOffset := if gotAll then 0 else p.toClientOffset)
  }

  predicate ShutsBackend(p: Pair) {
    p.clientReadClosed && !p.backendWriteClosed && p.toBackend == "" && p.backendFd != -1 && !p.backendConnecting
  }

  predicate ShutsClient(p: Pair) { p.backendReadClosed && !p.clientWriteClosed && p.toClient == "" }

  function FateOf(p: Pair): Fate {
    if p.clientReadClosed && p.backendFd == -1 && p.toBackend == "" && !p.metricsConnection then ClientGone
    else if p.metricsConnection && p.toClient == "" then MetricsDone
    else if p.clientReadClosed && p.backendReadClosed && p.toBackend == "" && p.toClient == "" then Graceful
    else Keep
  }

  function Shut(p: Pair): Pair {
    p.(backendWriteClosed := p.backendWriteClosed || ShutsBackend(p), clientWriteClosed := p.clientWriteClosed || ShutsClient(p))
  }

  /** What a round does once all its input and output is done. */
  function Settled(p: Pair): Pair {
    var p1 := Cleared(p);
    if FateOf(p1) == ClientGone then p1 else Shut(p1)
  }

  method ClearPair(pair: Pair) returns (p: Pair)
    ensures p == Cleared(pair)
  {
    p := pair;
    if p.toBackendOffset == |p.toBackend| { p := p.(toBackend := "", toBackendOffset := 0); }
    if p.toClientOffset == |p.toClient| { p := p.(toClient := "", toClientOffset := 0); }
  }

  method ShutPair(pair: Pair) returns (p: Pair)
    ensures p == Shut(pair)
  {
    p := pair;
    if p.clientReadClosed && !p.backendWriteClosed && p.toBackend == "" && p.backendFd != -1 && !p.backendConnecting {
      p := p.(backendWriteClosed := true);
    }
    if p.backendReadClosed && !p.clientWriteClosed && p.toClient == "" {
      p := p.(clientWriteClosed := true);
    }
  }

  method SettlePair(pair: Pair) returns (p: Pair, fate: Fate)
    ensures p == Settled(pair) && fate == FateOf(Cleared(pair))
  {
    hide Cleared, ShutsBackend, ShutsClient;
    p := ClearPair(pair);
    fate := Keep;
    if p.clientReadClosed && p.backendFd == -1 && p.toBackend == "" && !p.metricsConnection {
      fate := ClientGone;
      return;
    }
    p := ShutPair(p);
    if p.metricsConnection && p.toClient == "" {
      fate := MetricsDone;
    } else if p.clientReadClosed && p.backendReadClosed && p.toBackend == "" && p.toClient == "" {
      fate := Graceful;
    }
  }

  lemma ClearedPending(p: Pair)
    requires BuffersOk(p)
    ensures BuffersOk(Cleared(p)) && ToBackendPending(Cleared(p)) == ToBackendPending(p) && ToClientPending(Cleared(p)) == ToClientPending(p)
    ensures Cleared(p).toBackend == "" <==> ToBackendPending(p) == ""
    ensures Cleared(p).toClient == "" <==> ToClientPending(p) == ""
  {
    assert ""[0..] == "";
  }

  lemma ClearedKeeps(p: Pair, w: Wire)
    requires RelayOk(p, w)
    ensures RelayOk(Cleared(p), w) && BuffersOk(Cleared(p))
    ensures Cleared(p).toBackend == "" <==> ToBackendPending(Cleared(p)) == ""
    ensures Cleared(p).toClient == "" <==> ToClientPending(Cleared(p)) == ""
    ensures Cleared(p).backendWriteClosed == p.backendWriteClosed && Cleared(p).clientWriteClosed == p.clientWriteClosed
    ensures Cleared(p).metricsConnection == p.metricsConnection
  {
    ClearedPending(p);
  }

  lemma Delivered(p: Pair, w: Wire)
    requires RelayOk(p, w)
    ensures w.toBackend == w.fromClient <==> ToBackendPending(p) == ""
    ensures !p.metricsConnection ==> (w.toClient == w.fromBackends <==> ToClientPending(p) == "")
  {
    assert |w.fromClient| == |w.toBackend| + |ToBackendPending(p)|;
    assert w.toBackend + "" == w.toBackend && w.toClient + "" == w.toClient;
  }

  lemma ShutKeeps(p: Pair, w: Wire)
    requires RelayOk(p, w) && BuffersOk(p) && (p.toBackend == "" <==> ToBackendPending(p) == "") && (p.toClient == "" <==> ToClientPending(p) == "")
    ensures RelayOk(Shut(p), w)
    ensures Shut(p).backendWriteClosed && !p.backendWriteClosed ==> w.clientEof && w.toBackend == w.fromClient
    ensures Shut(p).clientWriteClosed && !p.clientWriteClosed && !p.metricsConnection ==> (w.backendEof || w.staleEof) && w.toClient == w.fromBackends
  {
    Delivered(p, w);
  }

  /** Settling keeps the invariant; a write side is shut down only after everything has been delivered that way. */
  lemma SettleKeeps(p: Pair, w: Wire)
    requires RelayOk(p, w)
    ensures RelayOk(Settled(p), w)
    ensures Settled(p).backendWriteClosed && !p.backendWriteClosed ==> w.clientEof && w.toBackend == w.fromClient
    ensures Settled(p).clientWriteClosed && !p.clientWriteClosed && !p.metricsConnection ==>
              (w.backendEof || w.staleEof) && w.toClient == w.fromBackends
  {
    hide Cleared, RelayOk, Shut, FateOf, ToBackendPending, ToClientPending, BuffersOk;
    ClearedKeeps(p, w);
    ShutKeeps(Cleared(p), w);
  }

  /** The graceful close happens exactly when both sides have ended and every byte has been delivered both ways,
      or, once a failed backend had ended too, without waiting for the present one. */
  lemma GracefulExactly(p: Pair, w: Wire)
    requires RelayOk(p, w) && !p.metricsConnection
    ensures FateOf(Cleared(p)) == Graceful <==>
              w.clientEof && (w.backendEof || w.staleEof) && w.toBackend == w.fromClient && w.toClient == w.fromBackends
              && p.backendFd != -1
  {
    ClearedKeeps(p, w);
    ClearedPending(p);
    Delivered(p, w);
    assert Cleared(p).metricsConnection == p.metricsConnection && Cleared(p).backendFd == p.backendFd;
    hide Cleared, BuffersOk, ToBackendPending, ToClientPending;
  }

  /** A half-close happens in a round exactly when it is due: toward the backend once the client has ended and all of
      its bytes have been sent over a standing connection, toward the client once a backend has ended, the present one
      or one that failed earlier, and all bytes of backends have been sent. */
  lemma HalfCloseExactly(p: Pair, w: Wire)
    requires RelayOk(p, w)
    ensures Settled(p).backendWriteClosed && !p.backendWriteClosed <==>
              !p.backendWriteClosed && p.backendFd != -1 && !p.backendConnecting && w.clientEof && w.toBackend == w.fromClient
    ensures !p.metricsConnection && FateOf(Cleared(p)) != ClientGone ==>
              (Settled(p).clientWriteClosed && !p.clientWriteClosed <==>
                 !p.clientWriteClosed && (w.backendEof || w.staleEof) && w.toClient == w.fromBackends)
    ensures Settled(p).backendWriteClosed <== p.backendWriteClosed
    ensures Settled(p).clientWriteClosed <== p.clientWriteClosed
  {
    ClearedKeeps(p, w);
    ClearedPending(p);
    Delivered(p, w);
    SameAfterClearing(p);
    hide Cleared, BuffersOk, ToBackendPending, ToClientPending;
  }

  lemma SameAfterClearing(p: Pair)
    ensures Cleared(p).(toBackend := p.toBackend, toBackendOffset := p.toBackendOffset,
                        toClient := p.toClient, toClientOffset := p.toClientOffset) == p
  {
  }
}
