/** One client connection from end to end (handleClient, handleWrite and completeAsyncResponse of src/server/Reactor.cpp on
    the bytes of src/net/Connection.cpp): what the client sends, what is parsed, and what goes back over the wire. */
module Conversation {
  import opened Text
  import opened Sockets
  import opened HeaderTokens
  import opened HttpParser
  import opened HttpFragments
  import opened HttpBounds
  import opened HttpGrammar
  import opened HttpAcceptance
  import C = Connection

  const MAX_FILE_SIZE: nat := 16 * 1024 * 1024

  /** A file to be sent after a response: what it holds, and whether it can be opened. */
  datatype File = File(content: string, readable: bool)

  /** How a request is answered: at once, or by a job whose response comes later. */
  datatype Reply = AtOnce(response: string, file: Option<File>) | ByJob(response: string, hasFile: bool)

  /** The handler: its reply to the n-th request of the connection. */
  type Handler = (nat, HttpRequest) -> Reply

  predicate SendsFile(reply: Reply) { reply.AtOnce? && reply.file.Some? && 0 < |reply.file.value.content| <= MAX_FILE_SIZE }

  /** Every byte of a reply. */
  function TextOf(reply: Reply): string { reply.response + if SendsFile(reply) then reply.file.value.content else "" }

  /** The replies to a list of requests, one after the other. */
  function Texts(handler: Handler, requests: seq<HttpRequest>): string {
    if requests == [] then ""
    else
      var last := |requests| - 1;
      Texts(handler, requests[..last]) + TextOf(handler(last, requests[last]))
  }

  lemma {:induction false} TextsGrow(handler: Handler, some: seq<HttpRequest>, all: seq<HttpRequest>)
    requires some <= all
    ensures Texts(handler, some) <= Texts(handler, all)
    decreases |all|
  {
    if some != all {
      TextsGrow(handler, some, all[..|all| - 1]);
    }
  }

  lemma OneMoreText(handler: Handler, requests: seq<HttpRequest>, request: HttpRequest)
    ensures Texts(handler, requests + [request]) == Texts(handler, requests) + TextOf(handler(|requests|, request))
  {
    assert (requests + [request])[..|requests|] == requests;
  }

  // ----- what has been parsed is what was sent -----

  function After(asked: seq<HttpRequest>, v: Served): Served { Served(asked + v.requests, v.last) }

  /** The requests parsed so far, and what parsing the unread bytes will yield, are together what one look at the whole
      stream yields, whatever the client goes on to send. */
  ghost predicate Tracks(received: string, asked: seq<HttpRequest>, m: Memory, unread: string) {
    forall more :: StreamFits(INITIAL, received + more) ==> TracksOn(received, asked, m, unread, more)
  }

  ghost predicate TracksOn(received: string, asked: seq<HttpRequest>, m: Memory, unread: string, more: string) {
    && Tame(m) && StreamFits(m, unread + more)
    && SameService(Serve(INITIAL, received + more), After(asked, Serve(m, unread + more)))
  }

  /** The requests parsed so far are the first of those that the stream holds. */
  ghost predicate Heard(received: string, asked: seq<HttpRequest>) {
    forall more :: StreamFits(INITIAL, received + more) ==> asked <= Serve(INITIAL, received + more).requests
  }

  lemma TracksFromStart()
    ensures Tracks("", [], INITIAL, "")
  {
    hide Serve, StreamFits;
    forall more | StreamFits(INITIAL, "" + more) ensures TracksOn("", [], INITIAL, "", more) {
      assert "" + more == more;
      assert [] + Serve(INITIAL, more).requests == Serve(INITIAL, more).requests;
    }
  }

  lemma TracksMore(received: string, asked: seq<HttpRequest>, m: Memory, unread: string, data: string)
    requires Tracks(received, asked, m, unread)
    ensures Tracks(received + data, asked, m, unread + data)
  {
    hide Serve, StreamFits, TracksOn;
    forall more | StreamFits(INITIAL, received + data + more) ensures TracksOn(received + data, asked, m, unread + data, more) {
      assert received + data + more == received + (data + more) && unread + data + more == unread + (data + more);
      SameTrack(received, asked, m, unread, data, more);
    }
  }

  lemma SameTrack(received: string, asked: seq<HttpRequest>, m: Memory, unread: string, data: string, more: string)
    requires TracksOn(received, asked, m, unread, data + more)
    ensures TracksOn(received + data, asked, m, unread + data, more)
  {
    hide Serve, StreamFits;
    assert received + data + more == received + (data + more) && unread + data + more == unread + (data + more);
  }

  /** A request is parsed. */
  lemma TracksRequest(received: string, asked: seq<HttpRequest>, m: Memory, unread: string)
    requires Tracks(received, asked, m, unread) && Run(m, unread).verdict == Complete
    ensures Tracks(received, asked + [Run(m, unread).memory.request], INITIAL, Run(m, unread).rest)
  {
    hide Serve, StreamFits, TracksOn, Run;
    var o := Run(m, unread);
    forall more | StreamFits(INITIAL, received + more) ensures TracksOn(received, asked + [o.memory.request], INITIAL, o.rest, more) {
      RequestTracksOn(received, asked, m, unread, more);
    }
  }

  lemma RequestTracksOn(received: string, asked: seq<HttpRequest>, m: Memory, unread: string, more: string)
    requires TracksOn(received, asked, m, unread, more) && Run(m, unread).verdict == Complete
    ensures TracksOn(received, asked + [Run(m, unread).memory.request], INITIAL, Run(m, unread).rest, more)
  {
    hide Run, LinesFit, Serve;
    var o := Run(m, unread);
    FitMeansNoStraddle(m, unread, more);
    StopStands(m, unread, more);
    Regroup(m, unread, more);
    var v := Serve(INITIAL, o.rest + more);
    assert asked + ([o.memory.request] + v.requests) == asked + [o.memory.request] + v.requests;
  }

  /** Parsing runs out of bytes. */
  lemma TracksWait(received: string, asked: seq<HttpRequest>, m: Memory, unread: string)
    requires Tracks(received, asked, m, unread) && Run(m, unread).verdict == NeedMoreData
    ensures Tracks(received, asked, Run(m, unread).memory, Run(m, unread).rest)
  {
    hide Serve, StreamFits, TracksOn, Run;
    var o := Run(m, unread);
    forall more | StreamFits(INITIAL, received + more) ensures TracksOn(received, asked, o.memory, o.rest, more) {
      WaitTracksOn(received, asked, m, unread, more);
    }
  }

  lemma WaitTracksOn(received: string, asked: seq<HttpRequest>, m: Memory, unread: string, more: string)
    requires TracksOn(received, asked, m, unread, more) && Run(m, unread).verdict == NeedMoreData
    ensures TracksOn(received, asked, Run(m, unread).memory, Run(m, unread).rest, more)
  {
    ServeMore(m, unread, more);
    ServesNothing(m, unread);
    hide Serve, StreamFits, Run;
    var w := Serve(Run(m, unread).memory, Run(m, unread).rest + more);
    assert [] + w.requests == w.requests;
  }

  lemma ServesNothing(m: Memory, unread: string)
    requires Run(m, unread).verdict == NeedMoreData
    ensures Serve(m, unread) == Served([], Run(m, unread))
  {
    hide Run;
  }

  lemma TracksHeard(received: string, asked: seq<HttpRequest>, m: Memory, unread: string)
    requires Tracks(received, asked, m, unread)
    ensures Heard(received, asked)
  {
    hide Serve, StreamFits, TracksOn;
    forall more | StreamFits(INITIAL, received + more) ensures asked <= Serve(INITIAL, received + more).requests {
      HeardOn(received, asked, m, unread, more);
    }
  }

  lemma HeardOn(received: string, asked: seq<HttpRequest>, m: Memory, unread: string, more: string)
    requires TracksOn(received, asked, m, unread, more)
    ensures asked <= Serve(INITIAL, received + more).requests
  {
    hide Serve, StreamFits;
  }

  /** A parser that waits still waits when it is asked again without new bytes. */
  lemma StillWaits(m: Memory, unread: string)
    requires Ready(m) && Run(m, unread).verdict == NeedMoreData
    ensures Run(Run(m, unread).memory, Run(m, unread).rest).verdict == NeedMoreData
  {
    assert Tame(m);
    WaitingResumes(m, unread, "");
    hide Run;
    assert unread + "" == unread && Run(m, unread).rest + "" == Run(m, unread).rest;
  }

  // ----- what the client hears -----

  /** A client that sends well-formed requests with short lines, back to back and cut up anyhow: nothing but those requests
      is ever parsed, and nothing but the replies to them, in order, ever goes back. */
  lemma ClientHears(messages: seq<Message>, handler: Handler, received: string, asked: seq<HttpRequest>, wire: string)
    requires forall i :: 0 <= i < |messages| ==> WellFormed(messages[i]) && Short(messages[i])
    requires received <= EncodeAll(messages) && Heard(received, asked) && wire <= Texts(handler, asked)
    ensures asked <= Meanings(messages) && wire <= Texts(handler, Meanings(messages))
  {
    hide WellFormed, Short, Serve, StreamFits;
    var more := EncodeAll(messages)[|received|..];
    assert received + more == EncodeAll(messages) == EncodeAll(messages) + "";
    ShortStreamFits(messages);
    PipelineRoundTrip(messages, "");
    NothingServed();
    assert Meanings(messages) + [] == Meanings(messages);
    TextsGrow(handler, asked, Meanings(messages));
  }

  /** And once all is received and parsed, exactly those requests have been. */
  lemma ClientHearsAll(messages: seq<Message>, asked: seq<HttpRequest>, m: Memory, unread: string)
    requires forall i :: 0 <= i < |messages| ==> WellFormed(messages[i]) && Short(messages[i])
    requires Tracks(EncodeAll(messages), asked, m, unread) && Run(m, unread).verdict == NeedMoreData
    ensures asked == Meanings(messages)
  {
    hide WellFormed, Short, Serve, StreamFits, Run, TracksOn;
    var all := EncodeAll(messages);
    assert all + "" == all;
    ShortStreamFits(messages);
    PipelineRoundTrip(messages, "");
    NothingServed();
    assert Meanings(messages) + [] == Meanings(messages);
    assert TracksOn(all, asked, m, unread, "");
    AllAsked(all, asked, m, unread);
  }

  lemma AllAsked(received: string, asked: seq<HttpRequest>, m: Memory, unread: string)
    requires TracksOn(received, asked, m, unread, "") && Run(m, unread).verdict == NeedMoreData
    ensures Serve(INITIAL, received).requests == asked
  {
    hide Serve, StreamFits, Run;
    assert received + "" == received && unread + "" == unread;
    ServesNothing(m, unread);
    assert asked + [] == asked;
  }

  // ----- what the reactor does with the bytes, on values -----

  /** A conversation: `closing` once the client asked for the last response, `queued` bytes in the output queue. */
  datatype Talk = Talk(
    open: bool, pending: bool, asked: seq<HttpRequest>, memory: Memory, unread: string, closing: bool, queued: nat, accepted: string)

  ghost predicate SaysClose(request: HttpRequest) { HasToken(request.headers, "Connection", "close") }

  /** A text enters the output queue, or the conversation ends. */
  function Queued(t: Talk, text: string, ready: bool): Talk {
    if t.open && ready && t.queued + |text| <= C.MAX_OUTPUT_QUEUE_SIZE
    then t.(queued := t.queued + |text|, accepted := t.accepted + text)
    else t.(open := false)
  }

  /** The file of a reply follows its response. */
  function Replied(t: Talk, reply: Reply): Talk {
    var t1 := Queued(t, reply.response, true);
    if SendsFile(reply) then Queued(t1, reply.file.value.content, reply.file.value.readable) else t1
  }

  /** A request has been parsed. */
  ghost function Answered(handler: Handler, t: Talk, request: HttpRequest, kept: bool): (r: Talk)
    ensures r.unread == t.unread && (r.open && !r.pending ==> r.memory == INITIAL || !t.open || t.pending)
  {
    var reply := handler(|t.asked|, request);
    var t1 := t.(asked := t.asked + [request]);
    if reply.ByJob? then t1.(memory := INITIAL, pending := true, open := t.open && kept)
    else
      var t2 := Replied(t1.(closing := t.closing || SaysClose(request)), reply);
      if t2.open then t2.(memory := INITIAL) else t2
  }

  /** Parsing and answering what is there, until more data is needed, a job has to be waited for, the client is done,
      or the conversation ends. */
  ghost function ParsedOn(handler: Handler, t: Talk, kept: bool): (r: (Talk, bool))
    ensures t.open && !t.pending && r.1 ==> r.0.open && !r.0.pending
    decreases |t.unread|, if t.memory == INITIAL then 0 else 1
  {
    var o := Run(t.memory, t.unread);
    var t1 := t.(memory := o.memory, unread := o.rest);
    if o.verdict == NeedMoreData then (t1, true)
    else if o.verdict != Complete then (t1.(open := false), false)
    else
      var t2 := Answered(handler, t1, o.memory.request, kept);
      if !t2.open || t2.pending then (t2, false)
      else if t2.closing then (t2, true)
      else
        assert t.memory == INITIAL ==> |o.rest| < |t.unread| by { if t.memory == INITIAL { CompleteConsumes(t.unread); } }
        ParsedOn(handler, t2, kept)
  }

  /** Reading until the socket is empty, the client is done, or the conversation waits or ends; `got` collects the bytes. */
  ghost function ReadOn(handler: Handler, t: Talk, got: string, arrivals: seq<seq<Receipt>>, kept: bool): (r: (Talk, bool, string))
    ensures t.open && !t.pending && r.1 ==> r.0.open && !r.0.pending
    decreases |arrivals|
  {
    if arrivals == [] || !Comes(|t.unread|, C.Final(arrivals[0])) then (t, true, got)
    else
      match C.ResultOf(|t.unread|, C.Final(arrivals[0]))
      case NothingToReadNow => (t, true, got)
      case DataReceived =>
        var data := C.Final(arrivals[0]).bytes;
        var (t1, go) := ParsedOn(handler, t.(unread := t.unread + data), kept);
        if !go || t1.closing then (t1, go, got + data) else ReadOn(handler, t1, got + data, arrivals[1..], kept)
      case _ => (t.(open := false), false, got)
  }

  /** `recv` never gives more than it is offered. */
  predicate Comes(size: nat, answer: Receipt) {
    answer.Data? && size < C.MAX_RECEIVE_BUFFER ==> C.Offered(size, answer.bytes)
  }

  /** A job has its response. */
  ghost function JobAnswered(handler: Handler, t: Talk): Talk
  {
    if !t.open || !t.pending || t.asked == [] then t
    else
      var last := |t.asked| - 1;
      var reply := handler(last, t.asked[last]);
      var t1 := t.(pending := false, closing := t.closing || SaysClose(t.asked[last]));
      if reply.ByJob? && reply.hasFile then t1.(open := false) else Queued(t1, reply.response, true)
  }
  /** What is known of a conversation: its requests are the first of those the client's stream holds, its output is the
      replies to them, and a parser that waits has everything it needs. */
  ghost predicate TalkOk(handler: Handler, t: Talk, received: string) {
    && Heard(received, t.asked)
    && t.accepted <= Texts(handler, t.asked)
    && (t.open ==>
          && Ready(t.memory) && Tracks(received, t.asked, t.memory, t.unread)
          && (t.pending ==> t.asked != [] && t.memory == INITIAL && handler(|t.asked| - 1, t.asked[|t.asked| - 1]).ByJob?)
          && t.accepted == Texts(handler, if t.pending then t.asked[..|t.asked| - 1] else t.asked))
  }

  const NEW_TALK := Talk(true, false, [], INITIAL, "", false, 0, "")

  lemma StartOk(handler: Handler)
    ensures TalkOk(handler, NEW_TALK, "")
  {
    hide Heard, Tracks, Ready;
    C.ReadyInitially();
    TracksFromStart();
    TracksHeard("", [], INITIAL, "");
  }

  /** A conversation that ends has said nothing wrong. */
  lemma EndedOk(handler: Handler, t: Talk, received: string, memory: Memory, unread: string, closing: bool, queued: nat)
    requires TalkOk(handler, t, received)
    ensures TalkOk(handler, t.(open := false, memory := memory, unread := unread, closing := closing, queued := queued), received)
  {
    hide Heard, Texts, Tracks, Ready;
  }

  /** Parsing without a request. */
  lemma WaitingOk(handler: Handler, t: Talk, received: string)
    requires TalkOk(handler, t, received) && t.open && !t.pending && Run(t.memory, t.unread).verdict == NeedMoreData
    ensures TalkOk(handler, t.(memory := Run(t.memory, t.unread).memory, unread := Run(t.memory, t.unread).rest), received)
  {
    hide Run, Heard, Texts, Tracks, Ready;
    TracksWait(received, t.asked, t.memory, t.unread);
    WaitingIsBounded(t.memory, t.unread);
  }

  /** Parsing a request, and answering it. */
  lemma AnsweredOk(handler: Handler, t: Talk, received: string, request: HttpRequest, kept: bool)
    requires t.open && !t.pending && Tracks(received, t.asked + [request], INITIAL, t.unread) && t.accepted == Texts(handler, t.asked)
    ensures TalkOk(handler, Answered(handler, t, request, kept), received)
  {
    hide Heard, Texts, Tracks, Ready, HasToken, TextOf, SendsFile;
    OneMoreText(handler, t.asked, request);
    TracksHeard(received, t.asked + [request], INITIAL, t.unread);
    C.ReadyInitially();
    var reply := handler(|t.asked|, request);
    assert (t.asked + [request])[..|t.asked|] == t.asked;
    RepliedIs(t.(asked := t.asked + [request], closing := t.closing || SaysClose(request)), reply);
  }

  /** A reply enters the queue whole, or the conversation ends with a part of it. */
  lemma RepliedIs(t: Talk, reply: Reply)
    requires t.open
    ensures var t' := Replied(t, reply);
            && t' == t.(open := t'.open, queued := t'.queued, accepted := t'.accepted)
            && t.accepted <= t'.accepted <= t.accepted + TextOf(reply)
            && (t'.open ==> t'.accepted == t.accepted + TextOf(reply) && t'.queued == t.queued + |TextOf(reply)|)
  {
    var text := t.accepted + reply.response;
    if SendsFile(reply) {
      assert text + reply.file.value.content == t.accepted + TextOf(reply);
    } else {
      assert TextOf(reply) == reply.response;
    }
  }

  /** One parse, however it ends. */
  lemma ParseOk(handler: Handler, t: Talk, received: string)
    requires TalkOk(handler, t, received) && t.open && !t.pending
    ensures var o := Run(t.memory, t.unread);
            && t.accepted == Texts(handler, t.asked)
            && (o.verdict == NeedMoreData ==> TalkOk(handler, t.(memory := o.memory, unread := o.rest), received))
            && (o.verdict == Complete ==> Tracks(received, t.asked + [o.memory.request], INITIAL, o.rest))
            && TalkOk(handler, t.(open := false, memory := o.memory, unread := o.rest), received)
  {
    hide Run, Heard, Texts, Tracks, Ready;
    var o := Run(t.memory, t.unread);
    EndedOk(handler, t, received, o.memory, o.rest, t.closing, t.queued);
    if o.verdict == NeedMoreData {
      WaitingOk(handler, t, received);
    } else if o.verdict == Complete {
      TracksRequest(received, t.asked, t.memory, t.unread);
    }
  }

  lemma JobAnsweredOk(handler: Handler, t: Talk, received: string)
    requires TalkOk(handler, t, received)
    ensures TalkOk(handler, JobAnswered(handler, t), received)
  {
    hide Heard, Texts, Tracks, Ready, HasToken;
    if t.open && t.pending {
      var last := |t.asked| - 1;
      assert t.asked[..last] + [t.asked[last]] == t.asked;
      OneMoreText(handler, t.asked[..last], t.asked[last]);
      assert TextOf(handler(last, t.asked[last])) == handler(last, t.asked[last]).response + "";
    }
  }

  lemma ReceivedOk(handler: Handler, t: Talk, received: string, data: string)
    requires TalkOk(handler, t, received) && t.open
    ensures TalkOk(handler, t.(unread := t.unread + data), received + data)
  {
    hide Texts, Ready, Heard, Tracks;
    TracksMore(received, t.asked, t.memory, t.unread, data);
    TracksHeard(received + data, t.asked, t.memory, t.unread + data);
  }

  /** How much is queued is no part of what is known. */
  lemma QueueSizeFree(handler: Handler, t: Talk, received: string, queued: nat)
    requires TalkOk(handler, t, received)
    ensures TalkOk(handler, t.(queued := queued), received)
  {
    hide Heard, Texts, Tracks, Ready;
  }

  lemma Said(handler: Handler, t: Talk, received: string)
    requires TalkOk(handler, t, received)
    ensures Heard(received, t.asked) && t.accepted <= Texts(handler, t.asked)
    ensures t.open && !t.pending ==> t.accepted == Texts(handler, t.asked)
    ensures t.open && t.pending ==> t.asked != []
  {
    hide Heard, Texts, Tracks, Ready;
  }

  // ----- no request is left lying -----

  /** Everything that was received whole has been parsed. */
  predicate Waits(t: Talk) { Run(t.memory, t.unread).verdict == NeedMoreData }

  /** A conversation that has nothing else to wait for waits for the client only. */
  predicate Prompt(t: Talk) { t.open && !t.pending && !t.closing ==> Waits(t) }

  lemma {:induction false} ParsedIsPrompt(handler: Handler, t: Talk, kept: bool)
    requires t.open && !t.pending && Ready(t.memory)
    ensures var t' := ParsedOn(handler, t, kept).0; Prompt(t') && (t'.open && !t'.pending ==> Ready(t'.memory))
    decreases |t.unread|, if t.memory == INITIAL then 0 else 1
  {
    hide Run, Ready, Answered;
    var o := Run(t.memory, t.unread);
    if o.verdict == NeedMoreData {
      StillWaits(t.memory, t.unread);
      WaitingIsBounded(t.memory, t.unread);
    } else if o.verdict == Complete {
      C.ReadyInitially();
      var t2 := Answered(handler, t.(memory := o.memory, unread := o.rest), o.memory.request, kept);
      if t2.open && !t2.pending && !t2.closing {
        if t.memory == INITIAL { CompleteConsumes(t.unread); }
        ParsedIsPrompt(handler, t2, kept);
      }
    }
  }

  /** As soon as a byte arrives, everything that is there is parsed. */
  lemma {:induction false} ReadIsPrompt(handler: Handler, t: Talk, got: string, arrivals: seq<seq<Receipt>>, kept: bool)
    requires t.open && !t.pending && Ready(t.memory)
    ensures var t' := ReadOn(handler, t, got, arrivals, kept).0; Prompt(t') || t' == t
    decreases |arrivals|
  {
    hide Waits, ParsedOn, Ready, C.Final;
    if arrivals != [] && Comes(|t.unread|, C.Final(arrivals[0])) && C.ResultOf(|t.unread|, C.Final(arrivals[0])).DataReceived? {
      var data := C.Final(arrivals[0]).bytes;
      ParsedIsPrompt(handler, t.(unread := t.unread + data), kept);
      var (t1, go) := ParsedOn(handler, t.(unread := t.unread + data), kept);
      if go && !t1.closing {
        ReadIsPrompt(handler, t1, got + data, arrivals[1..], kept);
      }
    }
  }

  /** The response of a job changes neither the bytes received nor what of them is parsed. */
  lemma JobParsesNothing(handler: Handler, t: Talk)
    ensures var t' := JobAnswered(handler, t);
            t'.asked == t.asked && (Waits(t') <==> Waits(t)) && (t.open && t.pending && t.asked != [] ==> !t'.pending)
  {
    hide HasToken, Run;
  }

  /** Of a client that sends well-formed requests with short lines, everything received has been parsed exactly if the
      requests parsed are all there are, or the one behind them has not come whole. */
  lemma WaitsExactly(messages: seq<Message>, handler: Handler, t: Talk, received: string)
    requires forall i :: 0 <= i < |messages| ==> WellFormed(messages[i]) && Short(messages[i])
    requires received <= EncodeAll(messages) && TalkOk(handler, t, received) && t.open
    ensures |t.asked| <= |messages|
    ensures Waits(t) <==> |t.asked| == |messages| || |received| < |EncodeAll(messages[..|t.asked| + 1])|
  {
    hide WellFormed, Short, Heard, Texts, Ready, Run, Serve, StreamFits, TracksOn, EncodeAll;
    var more := EncodeAll(messages)[|received|..];
    assert received + more == EncodeAll(messages) == EncodeAll(messages) + "" && received + "" == received;
    ShortStreamFits(messages);
    StreamFitsBefore(INITIAL, received, more);
    PipelineRoundTrip(messages, "");
    NothingServed();
    assert TracksOn(received, t.asked, t.memory, t.unread, "") && TracksOn(received, t.asked, t.memory, t.unread, more);
    ServesTheWholeExactly(messages, received, |messages|);
    OneMoreExactly(received, t.asked, t.memory, t.unread, more);
    if |t.asked| < |messages| {
      ServesTheWholeExactly(messages, received, |t.asked| + 1);
    }
  }

  /** The stream holds one request more than those parsed exactly if parsing does not wait. */
  lemma OneMoreExactly(received: string, asked: seq<HttpRequest>, m: Memory, unread: string, more: string)
    requires TracksOn(received, asked, m, unread, "") && TracksOn(received, asked, m, unread, more)
    requires Serve(INITIAL, received + more).last.verdict == NeedMoreData
    ensures |asked| <= |Serve(INITIAL, received).requests|
    ensures Run(m, unread).verdict == NeedMoreData <==> |Serve(INITIAL, received).requests| <= |asked|
  {
    hide Run, LinesFit;
    assert received + "" == received && unread + "" == unread;
    var o := Run(m, unread);
    if o.verdict != NeedMoreData && o.verdict != Complete {
      RefusedForGood(m, unread, more);
    }
  }

  lemma RefusedForGood(m: Memory, unread: string, more: string)
    requires Tame(m) && StreamFits(m, unread + more) && Run(m, unread).verdict != NeedMoreData && Run(m, unread).verdict != Complete
    ensures Serve(m, unread + more).last.verdict == Run(m, unread).verdict
  {
    hide Run, LinesFit;
    FitMeansNoStraddle(m, unread, more);
    StopStands(m, unread, more);
  }

  /** After a job has answered, no request of such a client is left lying exactly if none lay whole behind the one that waited. */
  lemma NothingLeftLyingExactly(messages: seq<Message>, handler: Handler, t: Talk, received: string)
    requires forall i :: 0 <= i < |messages| ==> WellFormed(messages[i]) && Short(messages[i])
    requires received <= EncodeAll(messages) && TalkOk(handler, t, received) && t.open && t.pending
    ensures |t.asked| <= |messages|
    ensures var t' := JobAnswered(handler, t);
            t'.open && !t'.closing ==>
              (Prompt(t') <==> |t.asked| == |messages| || |received| < |EncodeAll(messages[..|t.asked| + 1])|)
  {
    WaitsExactly(messages, handler, t, received);
    Said(handler, t, received);
    JobParsesNothing(handler, t);
    hide WellFormed, Short, TalkOk, EncodeAll, JobAnswered, Waits;
  }

  /** Once everything is received and nothing is left to do, the client has been told exactly the replies to its requests. */
  lemma SettledHearsAll(messages: seq<Message>, handler: Handler, t: Talk, received: string)
    requires forall i :: 0 <= i < |messages| ==> WellFormed(messages[i]) && Short(messages[i])
    requires received == EncodeAll(messages) && TalkOk(handler, t, received)
    requires t.open && !t.pending && Waits(t)
    ensures t.asked == Meanings(messages) && t.accepted == Texts(handler, Meanings(messages))
  {
    hide WellFormed, Short, Heard, Tracks, Texts, Ready, Run;
    ClientHearsAll(messages, t.asked, t.memory, t.unread);
  }

  /** A client that sends two requests in one piece, the first of which goes to a job, hears the first reply; the second
      request lies whole in the buffer, and nothing looks at it until the client sends more. */
  lemma StallsBehindAJob(a: Message, b: Message, handler: Handler)
    requires WellFormed(a) && WellFormed(b) && |Encode(a) + Encode(b)| <= 4096 && !SaysClose(Meaning(a))
    requires var reply := handler(0, Meaning(a)); reply.ByJob? && !reply.hasFile && |reply.response| <= C.MAX_OUTPUT_QUEUE_SIZE
    ensures var both := Encode(a) + Encode(b);
            var (t, go, got) := ReadOn(handler, NEW_TALK, "", [[Data(both)]], true);
            var t' := JobAnswered(handler, t);
            && got == both && t.pending && t'.open && !t'.pending && !t'.closing
            && t'.asked == [Meaning(a)] && t'.accepted == handler(0, Meaning(a)).response
            && t'.unread == Encode(b) && Run(t'.memory, t'.unread).verdict == Complete && !Prompt(t')
  {
    hide WellFormed, Encode, Meaning, Run, HasToken;
    var both := Encode(a) + Encode(b);
    MessageAccepted(a, Encode(b));
    MessageAccepted(b, "");
    assert Encode(b) + "" == Encode(b);
    var answers := [Data(both)];
    assert C.Final(answers) == Data(both);
    CompleteConsumes(both);
    assert "" + both == both;
    var t0 := NEW_TALK.(unread := both);
    assert ParsedOn(handler, t0, true).0 == NEW_TALK.(asked := [] + [Meaning(a)], unread := Encode(b), pending := true);
    assert ReadOn(handler, NEW_TALK, "", [answers], true) == (ParsedOn(handler, t0, true).0, false, both);
  }

  // ----- replies that wait for a job -----

  /** The handler answers these requests, the first of which is the n-th of the connection, at once and in full, and none
      of them asks to close. */
  ghost predicate AllAtOnce(handler: Handler, n: nat, messages: seq<Message>) {
    forall i :: 0 <= i < |messages| ==> RepliesInFull(handler(n + i, Meaning(messages[i]))) && !SaysClose(Meaning(messages[i]))
  }

  predicate RepliesInFull(reply: Reply) { reply.AtOnce? && (SendsFile(reply) ==> reply.file.value.readable) }

  lemma FullReply(t: Talk, reply: Reply)
    requires t.open && RepliesInFull(reply) && t.queued + |TextOf(reply)| <= C.MAX_OUTPUT_QUEUE_SIZE
    ensures Replied(t, reply).open && reply.AtOnce?
  {
  }

  /** The conversation after it has answered the requests `asked` in full. */
  function AllAnswered(handler: Handler, t: Talk, asked: seq<HttpRequest>, unread: string): Talk {
    t.(asked := asked, unread := unread, accepted := Texts(handler, asked), queued := |Texts(handler, asked)|)
  }

  /** One request, answered at once. */
  lemma AnsweredNext(handler: Handler, t: Talk, first: Message, rest: string, kept: bool)
    requires WellFormed(first) && t.open && !t.pending && !t.closing && t.memory == INITIAL && t.unread == Encode(first) + rest
    requires t.accepted == Texts(handler, t.asked) && t.queued == |t.accepted|
    requires RepliesInFull(handler(|t.asked|, Meaning(first))) && !SaysClose(Meaning(first))
    requires |Texts(handler, t.asked + [Meaning(first)])| <= C.MAX_OUTPUT_QUEUE_SIZE
    ensures ParsedOn(handler, t, kept) == ParsedOn(handler, AllAnswered(handler, t, t.asked + [Meaning(first)], rest), kept)
  {
    hide WellFormed, Encode, Meaning, Run, HasToken, TextOf, RepliesInFull, Replied, Texts;
    MessageAccepted(first, rest);
    CompleteConsumes(t.unread);
    OneMoreText(handler, t.asked, Meaning(first));
    var reply := handler(|t.asked|, Meaning(first));
    var one, memory := t.asked + [Meaning(first)], Run(INITIAL, t.unread).memory;
    FullReply(t.(asked := one, memory := memory, unread := rest), reply);
    RepliedIs(t.(asked := one, memory := memory, unread := rest), reply);
    assert Answered(handler, t.(memory := memory, unread := rest), Meaning(first), kept) == AllAnswered(handler, t, one, rest);
  }

  /** Requests answered at once, one after the other: their replies are queued and nothing else happens. */
  lemma {:induction false} AnsweredInARow(handler: Handler, t: Talk, messages: seq<Message>, tail: string, kept: bool)
    requires forall i :: 0 <= i < |messages| ==> WellFormed(messages[i])
    requires t.open && !t.pending && !t.closing && t.memory == INITIAL && t.unread == EncodeAll(messages) + tail
    requires t.accepted == Texts(handler, t.asked) && t.queued == |t.accepted| && AllAtOnce(handler, |t.asked|, messages)
    requires |Texts(handler, t.asked + Meanings(messages))| <= C.MAX_OUTPUT_QUEUE_SIZE
    ensures ParsedOn(handler, t, kept) == ParsedOn(handler, AllAnswered(handler, t, t.asked + Meanings(messages), tail), kept)
    decreases |messages|
  {
    hide WellFormed, Encode, Meaning, SaysClose, RepliesInFull, ParsedOn, Texts;
    if messages == [] {
      assert t.asked + Meanings(messages) == t.asked && EncodeAll(messages) + tail == tail;
    } else {
      var first, others := messages[0], messages[1..];
      var rest, one := EncodeAll(others) + tail, t.asked + [Meaning(first)];
      assert t.unread == Encode(first) + rest;
      assert t.asked + Meanings(messages) == one + Meanings(others);
      TextsGrow(handler, one, one + Meanings(others));
      assert |t.asked| + 0 == |t.asked|;
      AnsweredNext(handler, t, first, rest, kept);
      forall i | 0 <= i < |others| ensures RepliesInFull(handler(|one| + i, Meaning(others[i]))) && !SaysClose(Meaning(others[i])) {
        assert others[i] == messages[i + 1] && |one| + i == |t.asked| + (i + 1);
      }
      AnsweredInARow(handler, AllAnswered(handler, t, one, rest), others, tail, kept);
    }
  }

  /** Requests answered at once, and behind them one that goes to a job, in one piece: the replies are queued, and the event
      ends without an attempt to send. */
  lemma HeldBehindAJob(messages: seq<Message>, last: Message, handler: Handler)
    requires (forall i :: 0 <= i < |messages| ==> WellFormed(messages[i])) && WellFormed(last)
    requires |EncodeAll(messages) + Encode(last)| <= 4096 && |Texts(handler, Meanings(messages))| <= C.MAX_OUTPUT_QUEUE_SIZE
    requires AllAtOnce(handler, 0, messages) && handler(|messages|, Meaning(last)).ByJob?
    ensures var all := EncodeAll(messages) + Encode(last);
            var (t, go, got) := ReadOn(handler, NEW_TALK, "", [[Data(all)]], true);
            && !go && got == all && t.open && t.pending && t.asked == Meanings(messages) + [Meaning(last)]
            && t.accepted == Texts(handler, Meanings(messages))
  {
    hide WellFormed, Encode, EncodeAll, Meaning, Run, HasToken, Texts, TextOf, AllAtOnce;
    var all := EncodeAll(messages) + Encode(last);
    var answers := [Data(all)];
    assert C.Final(answers) == Data(all) && "" + all == all && [] + Meanings(messages) == Meanings(messages);
    assert Encode(last) + "" == Encode(last);
    MessageAccepted(last, "");
    CompleteConsumes(Encode(last));
    assert all != "";
    var t0, asked := NEW_TALK.(unread := all), Meanings(messages);
    NoTexts(handler);
    AnsweredInARow(handler, t0, messages, Encode(last), true);
    var t1 := AllAnswered(handler, t0, asked, Encode(last));
    assert ParsedOn(handler, t1, true) == (t1.(asked := asked + [Meaning(last)], unread := "", pending := true), false);
    assert ReadOn(handler, NEW_TALK, "", [answers], true) == (ParsedOn(handler, t0, true).0, false, all);
  }

  lemma NoTexts(handler: Handler)
    ensures Texts(handler, []) == ""
  {
  }

  lemma RoundIsPrompt(handler: Handler, t: Talk, received: string, round: Round)
    requires TalkOk(handler, t, received) && Prompt(t)
    ensures round.Readable? && t.open && !t.pending ==> Prompt(ReadOn(handler, t, "", round.arrivals, round.kept).0)
    ensures round.JobDone? && (t.open && t.pending ==> Waits(t)) ==> Prompt(JobAnswered(handler, t))
  {
    hide Waits, Ready, Heard, Tracks, Texts, ReadOn, HasToken;
    if round.Readable? && t.open && !t.pending {
      ReadIsPrompt(handler, t, "", round.arrivals, round.kept);
    }
    if t.open && t.pending {
      JobParsesNothing(handler, t);
    }
  }

  // ----- the connection -----

  datatype Round =
    | Readable(arrivals: seq<seq<Receipt>>, kept: bool, sends: seq<Sending>)
    | Writable(kept: bool, sends: seq<Sending>)
    | JobDone(kept: bool, sends: seq<Sending>)
    | Ends

  class Conversation {
    const connection: C.Connection
    const handler: Handler

    /** The connection is still among the reactor's; its last request waits for a job. */
    var open: bool
    var pending: bool
    /** The requests parsed so far. */
    var asked: seq<HttpRequest>
    /** Every byte that came from the client. */
    ghost var received: string

    ghost function Books(): Talk
      requires connection.Valid()
      reads this, connection, connection.parser
    {
      Talk(open, pending, asked, connection.parser.Recall(), connection.Unread(), connection.closeAfterWrite,
           connection.outputQueueSize, connection.accepted)
    }

    ghost predicate Valid()
      reads this, connection, connection.parser
    {
      connection.Valid() && TalkOk(handler, Books(), received) && (open ==> connection.parser.cursor == 0)
    }

    constructor (handler: Handler)
      ensures Valid() && fresh(connection) && fresh(connection.parser) && this.handler == handler
      ensures Books() == NEW_TALK
      ensures received == "" && connection.wire == "" && connection.truncated == 0
    {
      hide TalkOk, C.Connection.OutputValid;
      connection := new C.Connection();
      this.handler, open, pending, asked, received := handler, true, false, [], "";
      new;
      StartOk(handler);
    }

    /** The inner loop over the requests that are there. */
    method ParseAll(kept: bool) returns (go: bool)
      requires Valid() && open && !pending
      modifies this`open, this`pending, this`asked, connection, connection.parser
      ensures Valid() && (Books(), go) == ParsedOn(handler, old(Books()), kept)
      ensures connection.wire == old(connection.wire) && connection.truncated == old(connection.truncated)
    {
      hide Run, Serve, TalkOk, Answered, C.PendingOf, C.SizeOf, C.Connection.OutputValid;
      ghost var t0 := Books();
      while true
        invariant Valid() && open && !pending && connection.wire == old(connection.wire) && connection.truncated == old(connection.truncated)
        invariant ParsedOn(handler, Books(), kept) == ParsedOn(handler, t0, kept)
        decreases |connection.Unread()|, if connection.parser.Recall() == INITIAL then 0 else 1
      {
        ghost var t := Books();
        C.ServeOnce(t.memory, t.unread);
        ParseOk(handler, t, received);
        var result := connection.ParseRequest();
        if result == NeedMoreData {
          var _ := connection.ConsumeParsedBytes();
          return true;
        }
        if result != Complete {
          open := false;
          return false;
        }
        go := Answer(connection.parser.request, kept);
        if !go || connection.closeAfterWrite {
          return;
        }
      }
    }

    /** A parsed request: its reply enters the output queue, or the connection waits for a job, or ends. */
    method Answer(request: HttpRequest, kept: bool) returns (go: bool)
      requires connection.Valid() && open && !pending && connection.accepted == Texts(handler, asked)
      requires Tracks(received, asked + [request], INITIAL, connection.Unread())
      modifies this`open, this`pending, this`asked, connection, connection.parser
      ensures Valid() && Books() == Answered(handler, old(Books()), request, kept) && go == (open && !pending)
      ensures connection.wire == old(connection.wire) && connection.truncated == old(connection.truncated)
    {
      hide Tracks, Heard, Ready, Texts, TextOf, HasToken, TalkOk, C.PendingOf, C.SizeOf, C.Connection.OutputValid;
      AnsweredOk(handler, Books(), received, request, kept);
      asked := asked + [request];
      var reply := handler(|asked| - 1, request);
      if reply.ByJob? {
        StartOver();
        pending, open := true, kept;
        go := false;
      } else {
        NoteClose(request);
        go := Queue(reply);
        if go {
          StartOver();
        } else {
          open := false;
        }
      }
      assert Books() == Answered(handler, old(Books()), request, kept);
    }

    /** A client that asks for it is served no further than this request. */
    method NoteClose(request: HttpRequest)
      requires connection.Valid()
      modifies connection`closeAfterWrite
      ensures connection.Valid() && connection.closeAfterWrite == (old(connection.closeAfterWrite) || SaysClose(request))
    {
      var close := HasHeaderToken(request, "Connection", "close");
      if close {
        connection.closeAfterWrite := true;
      }
    }

    /** The bytes of the request are dropped and the parser is reset. */
    method StartOver()
      requires connection.Valid()
      modifies connection`receiveBuffer, connection.parser
      ensures connection.Valid() && connection.parser.Recall() == INITIAL && connection.parser.cursor == 0
      ensures connection.Unread() == old(connection.Unread())
    {
      var _ := connection.ConsumeParsedBytes();
      connection.parser.Reset();
    }

    /** A reply enters the output queue: all of it, or the connection cannot go on. */
    method Queue(reply: Reply) returns (ok: bool)
      requires connection.Valid() && open && reply.AtOnce?
      modifies connection`outputQueue, connection`outputQueueSize, connection`accepted
      ensures connection.Valid()
      ensures Replied(old(Books()), reply) == Books().(open := ok)
    {
      hide TextOf, C.PendingOf, C.SizeOf;
      ok := connection.QueueResponse(reply.response);
      if ok && SendsFile(reply) {
        ok := connection.QueueFile(reply.file.value.content, reply.file.value.readable);
      }
    }

    /** Input; a connection that waits for a job is not read at all. */
    method HandleClient(arrivals: seq<seq<Receipt>>, kept: bool, sends: seq<Sending>)
      requires Valid()
      modifies this, connection, connection.parser
      ensures Valid() && old(connection.wire) <= connection.wire
      ensures !old(open) || old(pending) ==> Books() == old(Books()) && received == old(received) && connection.wire == old(connection.wire)
      ensures old(open) && !old(pending) ==>
                var (t, go, data) := ReadOn(handler, old(Books()), "", arrivals, kept);
                && received == old(received) + data
                && if go then Flushed(t, Books()) && (open || MayEnd(kept, sends, connection.outputQueue, connection.closeAfterWrite))
                   else Books() == t && connection.wire == old(connection.wire)
    {
      hide TalkOk, ReadOn, C.PendingOf, C.SizeOf, C.Connection.OutputValid;
      if !open || pending {
        return;
      }
      var go, data := ReadAll(arrivals, kept);
      if go {
        HandleWrite(kept, sends);
      }
    }

    /** The read loop; false when the connection is gone or waits for a job. */
    method ReadAll(arrivals: seq<seq<Receipt>>, kept: bool) returns (go: bool, ghost data: string)
      requires Valid() && open && !pending
      modifies this`open, this`pending, this`asked, this`received, connection, connection.parser
      ensures Valid() && (Books(), go, data) == ReadOn(handler, old(Books()), "", arrivals, kept) && received == old(received) + data
      ensures connection.wire == old(connection.wire) && connection.truncated == old(connection.truncated)
    {
      hide TalkOk, ParsedOn, C.Final, C.PendingOf, C.SizeOf, C.Connection.OutputValid;
      ghost var t0 := Books();
      data := "";
      assert arrivals[0..] == arrivals;
      for k := 0 to |arrivals|
        invariant Valid() && open && !pending && connection.wire == old(connection.wire) && connection.truncated == old(connection.truncated)
        invariant received == old(received) + data
        invariant ReadOn(handler, t0, "", arrivals, kept) == ReadOn(handler, Books(), data, arrivals[k..], kept)
      {
        ghost var t := Books();
        assert arrivals[k..][1..] == arrivals[k + 1..] && arrivals[k..][0] == arrivals[k];
        if !Comes(|connection.receiveBuffer|, C.Final(arrivals[k])) {
          return true, data;
        }
        var result := TakeIn(arrivals[k]);
        if result == C.NothingToReadNow {
          return true, data;
        }
        if result != C.DataReceived {
          EndedOk(handler, t, received, t.memory, t.unread, t.closing, t.queued);
          open := false;
          return false, data;
        }
        data := data + C.Final(arrivals[k]).bytes;
        go := ParseAll(kept);
        if !go || connection.closeAfterWrite {
          return;
        }
      }
      go := true;
    }

    /** One read. */
    method TakeIn(answers: seq<Receipt>) returns (result: C.ReadResult)
      requires Valid() && open && Comes(|connection.receiveBuffer|, C.Final(answers))
      modifies this`received, connection`receiveBuffer
      ensures Valid() && result == C.ResultOf(|old(Books()).unread|, C.Final(answers))
      ensures result != C.DataReceived ==> received == old(received) && Books() == old(Books())
      ensures result == C.DataReceived ==>
                var data := C.Final(answers).bytes;
                received == old(received) + data && Books() == old(Books()).(unread := old(Books()).unread + data)
    {
      hide TalkOk, C.Final, C.PendingOf, C.SizeOf, C.Connection.OutputValid;
      ghost var t := Books();
      result := connection.Read(answers);
      if result == C.DataReceived {
        ghost var data := C.Final(answers).bytes;
        ReceivedOk(handler, t, received, data);
        received := received + data;
      }
    }

    /** Output: sends what waits; a connection that fails, or is done and wants to close, ends. */
    method HandleWrite(kept: bool, sends: seq<Sending>)
      requires Valid()
      modifies this`open, connection`outputQueue, connection`outputQueueSize, connection`wire, connection`truncated
      ensures Valid() && old(connection.wire) <= connection.wire && Flushed(old(Books()), Books())
      ensures !old(open) || old(connection.outputQueue) == [] ==> Books() == old(Books()) && connection.wire == old(connection.wire)
      ensures old(open) && old(connection.outputQueue) != [] && open ==> kept && (connection.outputQueue == [] ==> !connection.closeAfterWrite)
      ensures old(open) && !open ==> MayEnd(kept, sends, connection.outputQueue, connection.closeAfterWrite)
      ensures Sent(0) !in sends ==> connection.truncated == old(connection.truncated)
      ensures C.TakesAll(sends) && |sends| >= |old(connection.outputQueue)| && old(open) ==> connection.outputQueue == []
    {
      hide TalkOk, C.PendingOf, C.SizeOf;
      if !open || connection.outputQueue == [] {
        return;
      }
      ghost var t := Books();
      EndedOk(handler, t, received, t.memory, t.unread, t.closing, t.queued);
      var result, used := connection.Write(sends);
      if result == C.WriteError || !kept || (result == C.AllWritten && connection.closeAfterWrite) {
        open := false;
      }
      QueueSizeFree(handler, t.(open := open), received, connection.outputQueueSize);
    }

    /** The job of the last request is done: its response enters the queue behind all others. What the client has sent
        behind the request stays unparsed. */
    method CompleteAsyncResponse(kept: bool, sends: seq<Sending>)
      requires Valid()
      modifies this`open, this`pending, connection
      ensures Valid() && old(connection.wire) <= connection.wire
      ensures var t := JobAnswered(handler, old(Books()));
              Flushed(t, Books()) && (t.open && !open ==> MayEnd(kept, sends, connection.outputQueue, connection.closeAfterWrite))
      ensures !old(open) || !old(pending) ==> Books() == old(Books()) && connection.wire == old(connection.wire)
    {
      hide TalkOk, HasToken, C.PendingOf, C.SizeOf, C.Connection.OutputValid;
      if !open || !pending {
        return;
      }
      Said(handler, Books(), received);
      SendJobResponse();
      HandleWrite(kept, sends);
    }

    method SendJobResponse()
      requires Valid() && open && pending && asked != []
      modifies this`open, this`pending, connection`closeAfterWrite, connection`outputQueue, connection`outputQueueSize, connection`accepted
      ensures Valid() && Books() == JobAnswered(handler, old(Books()))
      ensures connection.wire == old(connection.wire) && connection.truncated == old(connection.truncated)
    {
      JobAnsweredOk(handler, Books(), received);
      hide TalkOk, HasToken, C.PendingOf, C.SizeOf, C.Connection.OutputValid;
      var reply := handler(|asked| - 1, asked[|asked| - 1]);
      pending := false;
      NoteClose(asked[|asked| - 1]);
      if reply.ByJob? && reply.hasFile {
        open := false;
      } else {
        QueueText(reply.response);
      }
      assert Books() == JobAnswered(handler, old(Books()));
    }

    method QueueText(response: string)
      requires connection.Valid() && open
      modifies this`open, connection`outputQueue, connection`outputQueueSize, connection`accepted
      ensures connection.Valid() && Books() == Queued(old(Books()), response, true)
    {
      hide C.PendingOf, C.SizeOf;
      open := connection.QueueResponse(response);
    }

    /** Whatever happens: the requests parsed are the first of those that the client's stream holds, and what goes back
        is a prefix of the replies to them, in order. */
    method Converse(rounds: seq<Round>)
      requires Valid()
      modifies this, connection, connection.parser
      ensures Valid() && Heard(received, asked)
      ensures old(connection.wire) <= connection.wire
      ensures connection.truncated == 0 ==> connection.wire <= Texts(handler, asked)
      ensures open && !pending && connection.outputQueue == [] && connection.truncated == 0 ==> connection.wire == Texts(handler, asked)
    {
      for k := 0 to |rounds|
        invariant Valid() && old(connection.wire) <= connection.wire
      {
        HandleRound(rounds[k]);
      }
      Said(handler, Books(), received);
    }

    method HandleRound(round: Round)
      requires Valid()
      modifies this, connection, connection.parser
      ensures Valid() && old(connection.wire) <= connection.wire
      ensures round.Ends? || (round.Readable? && (!old(open) || old(pending))) ==>
                Books() == old(Books()).(open := open) && connection.wire == old(connection.wire)
      ensures old(Prompt(Books())) && (round.JobDone? && old(open) && old(pending) ==> old(Waits(Books()))) ==> Prompt(Books())
    {
      if Prompt(Books()) { RoundIsPrompt(handler, Books(), received, round); }
      hide TalkOk, ReadOn, JobAnswered, Waits, C.PendingOf, C.SizeOf, C.Connection.OutputValid;
      match round
      case Readable(arrivals, kept, sends) => HandleClient(arrivals, kept, sends);
      case Writable(kept, sends) => HandleWrite(kept, sends);
      case JobDone(kept, sends) => CompleteAsyncResponse(kept, sends);
      case Ends =>
        ghost var t := Books();
        EndedOk(handler, t, received, t.memory, t.unread, t.closing, t.queued);
        open := false;
    }
  }

  /** Nothing is sent to a client whose last request goes to a job, not even the replies to those before it, whatever room
      the socket has, however often it is read, and also if the connection then ends. */
  method SendsNothingUntilTheJob(messages: seq<Message>, last: Message, handler: Handler, sends: seq<Sending>, later: seq<Round>)
    returns (talk: Conversation)
    requires (forall i :: 0 <= i < |messages| ==> WellFormed(messages[i])) && WellFormed(last)
    requires |EncodeAll(messages) + Encode(last)| <= 4096 && |Texts(handler, Meanings(messages))| <= C.MAX_OUTPUT_QUEUE_SIZE
    requires AllAtOnce(handler, 0, messages) && handler(|messages|, Meaning(last)).ByJob?
    requires forall k :: 0 <= k < |later| ==> later[k].Readable? || later[k].Ends?
    ensures fresh(talk) && talk.Valid() && talk.asked == Meanings(messages) + [Meaning(last)]
    ensures talk.connection.accepted == Texts(handler, Meanings(messages)) && talk.connection.wire == ""
  {
    HeldBehindAJob(messages, last, handler);
    hide WellFormed, Encode, EncodeAll, Meanings, Meaning, AllAtOnce, Texts, ReadOn, TalkOk, Run, C.Connection.OutputValid;
    talk := new Conversation(handler);
    talk.HandleClient([[Data(EncodeAll(messages) + Encode(last))]], true, sends);
    for k := 0 to |later|
      invariant fresh(talk) && fresh(talk.connection) && fresh(talk.connection.parser) && talk.Valid() && talk.pending
      invariant talk.asked == Meanings(messages) + [Meaning(last)]
      invariant talk.connection.accepted == Texts(handler, Meanings(messages)) && talk.connection.wire == ""
    {
      talk.HandleRound(later[k]);
    }
  }

  /** Why sending may end a conversation: epoll or the socket fails, or all is sent and the client asked for no more. */
  predicate MayEnd(kept: bool, sends: seq<Sending>, queue: seq<C.Output>, closing: bool) {
    !kept || SendFailed in sends || Sent(0) in sends || (queue == [] && closing)
  }

  /** Sending changes nothing but the size of the queue and, perhaps, that the conversation ends. */
  predicate Flushed(t: Talk, t': Talk) {
    t' == t.(open := t'.open, queued := t'.queued) && t'.queued <= t.queued && (t'.open ==> t.open)
  }
}
