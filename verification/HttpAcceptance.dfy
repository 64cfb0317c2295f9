/** The parser accepts exactly the messages of the grammar, alone or pipelined, however they arrive. */
module HttpAcceptance {
  import opened Text
  import opened HttpSyntax
  import opened HttpParser
  import opened HttpFragments
  import opened HttpGrammar

  // ----- every message of the grammar is accepted, and read back as what it means -----

  predicate Short(m: Message) {
    && |RequestLineOf(m)| < MAX_REQUEST_LINE_SIZE
    && (forall i :: 0 <= i < |m.fields| ==> |FieldLine(m.fields[i])| < MAX_HEADER_LINE_SIZE)
    && ShortPayload(m.payload)
  }

  lemma HeadAccepted(m: Message, rest: string, short: bool) returns (next: Memory)
    requires RequestLineOk(m) && HeadOk(m.fields) && (short ==> Short(m))
    ensures Leads(INITIAL, RequestLineOf(m) + CRLF + (Lines(FieldLines(m.fields)) + (CRLF + rest)), next, rest, short)
    ensures AtBody(next, m.fields) && next.request == HttpRequest(m.method_, m.target, VERSION, Pairs(m.fields), "")
  {
    hide Leads, Lines, FieldLines, FieldLine, RequestLineOf, FieldsOk, AcceptHeader, AcceptRequestLine, LineTooLong, ShortPayload;
    var afterLine := Lines(FieldLines(m.fields)) + (CRLF + rest);
    var m1 := INITIAL.(state := Headers, request := HttpRequest(m.method_, m.target, VERSION, [], ""));
    RequestLineLeads(m, afterLine, short);
    NothingAbsorbed(m1);
    assert [] + m.fields == m.fields;
    var m2 := FieldsAccepted(m1, [], m.fields, CRLF + rest, short);
    HeadersEnd(m2, m.fields);
    next := AcceptHeader(m2, "").next;
    NoCrlf("");
    HeaderLeads(m2, "", rest, short);
    assert "" + CRLF + rest == CRLF + rest;
    LeadsOn(INITIAL, RequestLineOf(m) + CRLF + afterLine, m1, afterLine, m2, CRLF + rest, short);
    LeadsOn(INITIAL, RequestLineOf(m) + CRLF + afterLine, m2, CRLF + rest, next, rest, short);
  }

  lemma RequestLineLeads(m: Message, rest: string, short: bool)
    requires RequestLineOk(m) && (short ==> |RequestLineOf(m)| < MAX_REQUEST_LINE_SIZE)
    ensures Leads(INITIAL, RequestLineOf(m) + CRLF + rest,
                  INITIAL.(state := Headers, request := HttpRequest(m.method_, m.target, VERSION, [], "")), rest, short)
  {
    RequestLineAccepted(m);
    RequestLineHasNoCrlf(m);
    hide Leads, AcceptRequestLine, RequestLineOf;
    LeadsThrough(INITIAL, RequestLineOf(m) + CRLF + rest, RequestLineOf(m), rest, short);
    FirstLine(RequestLineOf(m));
  }

  lemma FirstLine(line: string)
    ensures AcceptLine(INITIAL, line) == AcceptRequestLine(INITIAL, line)
  {
    hide AcceptRequestLine;
  }

  lemma NothingAbsorbed(m: Memory)
    requires exists a, b :: m == INITIAL.(state := Headers, request := HttpRequest(a, b, VERSION, [], ""))
    ensures Absorbed(m, [])
  {
    assert FieldLines([]) == [] && Pairs([]) == [];
  }

  /** A well-formed message is accepted whatever follows it, and read back as what it means. */
  lemma MessageAccepted(m: Message, rest: string)
    requires WellFormed(m)
    ensures var o := Run(INITIAL, Encode(m) + rest);
            o.verdict == Complete && o.rest == rest && o.memory.request == Meaning(m)
    ensures Short(m) ==> LinesFit(INITIAL, Encode(m) + rest)
  {
    hide Leads, Lines, FieldLines, RequestLineOf, RequestLineOk, Run, LinesFit, EncodePayload, Pairs, ChunkedOk, Count, DeclaredLength, FieldsOk;
    var payload := EncodePayload(m.payload) + rest;
    EncodeFrom(m, rest);
    var next := HeadAccepted(m, payload, Short(m));
    LeadsTo(INITIAL, Encode(m) + rest, next, payload, Short(m));
    match m.payload {
      case Plain(body) =>
        PlainAccepted(next, m.fields, body, rest);
        PlainBytes(body);
        assert "" + body == body;
      case Chunked(chunks, lastLine, trailers) =>
        var done := ChunkedAccepted(next, chunks, lastLine, trailers, rest, Short(m));
    }
  }

  lemma PlainBytes(body: string)
    ensures EncodePayload(Plain(body)) == body
  {
  }

  lemma EncodeFrom(m: Message, rest: string)
    ensures Encode(m) + rest == RequestLineOf(m) + CRLF + (Lines(FieldLines(m.fields)) + (CRLF + (EncodePayload(m.payload) + rest)))
  {
    hide RequestLineOf, Lines, FieldLines, EncodePayload;
    var a, b, c := RequestLineOf(m) + CRLF, Lines(FieldLines(m.fields)), EncodePayload(m.payload);
    assert (a + (b + (CRLF + c))) + rest == a + ((b + (CRLF + c)) + rest);
    assert (b + (CRLF + c)) + rest == b + ((CRLF + c) + rest);
    assert (CRLF + c) + rest == CRLF + (c + rest);
  }

  // ----- whatever is accepted is a message of the grammar -----

  /** The first line of an accepted text, and what it leads to. */
  lemma LineFound(m: Memory, s: string) returns (line: string, rest: string)
    requires ReadsLines(m.state) && Run(m, s).verdict == Complete
    ensures s == line + CRLF + rest && FindCrlf(line, 0).None? && !LineTooLong(m, |line|)
    ensures var move := AcceptLine(m, line);
            if move.Go? then Run(m, s) == Run(move.next, rest)
            else move.verdict == Complete && Run(m, s) == Outcome(Complete, move.next, s[move.used..])
  {
    var e := FindCrlf(s, 0).value;
    line, rest := s[..e], s[e + 2..];
    LineHasNoCrlf(s);
    hide AcceptLine;
    LineUse(m, line);
  }

  lemma HeaderNeverCompletes(m: Memory, line: string)
    ensures AcceptHeader(m, line).Stop? ==> AcceptHeader(m, line).verdict != Complete
  {
    hide AcceptField, NameOf;
    if NameOf(line).Some? {
      var name := NameOf(line).value;
      FieldVerdicts(Counted(m, line), name, StripLeft(line[|name| + 1..]), |line| + 2);
    }
  }

  lemma HeaderLineFound(m: Memory, s: string) returns (line: string, rest: string)
    requires m.state == Headers && Run(m, s).verdict == Complete
    ensures s == line + CRLF + rest && FindCrlf(line, 0).None? && !LineTooLong(m, |line|)
    ensures AcceptHeader(m, line).Go? && Run(m, s) == Run(AcceptHeader(m, line).next, rest)
  {
    hide AcceptHeader, Run, LineTooLong;
    line, rest := LineFound(m, s);
    HeaderNeverCompletes(m, line);
  }

  lemma {:induction false} FieldsFound(m: Memory, fields: seq<Field>, s: string) returns (more: seq<Field>, next: Memory, rest: string)
    requires Absorbed(m, fields) && FieldsOk(fields) && Run(m, s).verdict == Complete
    ensures s == Lines(FieldLines(more)) + (CRLF + rest) && HeadOk(fields + more)
    ensures AtBody(next, fields + more) && Run(next, rest) == Run(m, s)
    decreases |s|
  {
    hide AcceptHeader, Run, LineTooLong, FieldsOk, HeadOk, AtBody, Pairs, FieldLines, Lines, FieldLine, Count, DeclaredLength, LinesSize;
    var line, tail := HeaderLineFound(m, s);
    if line == "" {
      HeadersEnd(m, fields);
      more, next, rest := [], AcceptHeader(m, "").next, tail;
      assert fields + more == fields;
      NoFieldLines(CRLF + rest);
      assert "" + CRLF + tail == CRLF + rest;
    } else {
      var f := FieldFound(m, fields, line);
      LastOk(fields, f);
      FieldAbsorbed(m, fields, f);
      var others;
      others, next, rest := FieldsFound(AcceptHeader(m, line).next, fields + [f], tail);
      more := [f] + others;
      assert fields + more == (fields + [f]) + others;
      LinesCons(f, others, CRLF + rest);
    }
  }

  lemma NoFieldLines(rest: string)
    ensures Lines(FieldLines([])) + rest == rest
  {
    assert FieldLines([]) == [];
  }

  lemma TrailerStops(m: Memory, line: string)
    requires m.state == ChunkTrailers
    ensures AcceptLine(m, line) == AcceptTrailer(m, line)
    ensures AcceptTrailer(m, line).Stop? && AcceptTrailer(m, line).verdict == Complete ==> line == "" && AcceptTrailer(m, line).used == 2
    ensures AcceptTrailer(m, line).Go? ==> m.trailerCount < MAX_HEADER_COUNT && AcceptTrailer(m, line).next.state == ChunkTrailers
  {
    hide NameOf;
  }

  lemma {:induction false} TrailersFound(m: Memory, s: string) returns (trailers: seq<string>)
    requires m.state == ChunkTrailers && Run(m, s).verdict == Complete && m.trailerCount <= MAX_HEADER_COUNT
    ensures s == Lines(trailers) + (CRLF + Run(m, s).rest)
    ensures forall i :: 0 <= i < |trailers| ==> TrailerOk(trailers[i])
    ensures m.trailerSize + LinesSize(trailers) + 2 <= MAX_HEADERS_SIZE && m.trailerCount + |trailers| <= MAX_HEADER_COUNT
    decreases |s|
  {
    hide AcceptLine, AcceptTrailer, Run, TrailerOk;
    var line, tail := LineFound(m, s);
    TrailerStops(m, line);
    if AcceptTrailer(m, line).Stop? {
      trailers := [];
      assert line == "";
      assert s == "" + CRLF + tail;
      assert s[2..] == tail;
      assert Lines([]) + (CRLF + tail) == CRLF + tail;
    } else {
      TrailerAccepted(m, line);
      var others := TrailersFound(AcceptTrailer(m, line).next, tail);
      trailers := [line] + others;
      LinesSizeCons(line, others);
      assert trailers[1..] == others;
      var end := CRLF + Run(m, s).rest;
      assert Lines(trailers) + end == line + CRLF + (Lines(others) + end);
    }
  }

  lemma SizeLineFound(m: Memory, s: string) returns (line: string, rest: string, size: nat)
    requires m.state == ChunkSize && Run(m, s).verdict == Complete
    ensures s == line + CRLF + rest && SizeLineOk(line, size)
    ensures Run(m, s) == Run(m.(chunkSize := size, chunkBytesRead := 0, state := if size == 0 then ChunkTrailers else ChunkData), rest)
  {
    hide AcceptLine, Run, ChunkSizeOf, SizeLineOk;
    line, rest := LineFound(m, s);
    SizeLineAccepted(m, line);
    assert ChunkSizeOf(line).Some?;
    size := ChunkSizeOf(line).value;
    ChunkSizeExact(line, size);
  }

  lemma DataFound(m: Memory, s: string) returns (data: string, rest: string)
    requires m.state == ChunkData && m.chunkBytesRead == 0 && m.chunkSize > 0 && Run(m, s).verdict == Complete
    ensures s == data + CRLF + rest && |data| == m.chunkSize && |m.request.body| + |data| <= MAX_BODY_SIZE
    ensures Run(m, s) == Run(Append(m, data).(chunkBytesRead := |data|, state := ChunkSize), rest)
  {
    RunBytes(m, s);
    hide Step, Run;
    var move := ReadChunk(m, s);
    RunRound(m, s, if move.Stop? then Some(move.verdict) else None, move.next, move.used);
    data := s[..m.chunkSize];
    var tail := s[m.chunkSize..];
    RunBytes(move.next, tail);
    var end := ReadChunkCrlf(move.next, tail);
    RunRound(move.next, tail, if end.Stop? then Some(end.verdict) else None, end.next, end.used);
    rest := tail[2..];
    assert tail == CRLF + rest;
  }

  lemma {:induction false} ChunksFound(m: Memory, s: string) returns (chunks: seq<Chunk>, lastLine: string, trailers: seq<string>)
    requires m.state == ChunkSize && m.trailerSize == 0 && m.trailerCount == 0 && Run(m, s).verdict == Complete
    requires |m.request.body| <= MAX_BODY_SIZE
    ensures s == EncodePayload(Chunked(chunks, lastLine, trailers)) + Run(m, s).rest
    ensures ChunkedOk(chunks, lastLine, trailers) && |m.request.body| + |ChunkBytes(chunks)| <= MAX_BODY_SIZE
    decreases |s|
  {
    hide Run, SizeLineOk, TrailerOk, ChunkBytes, EncodeChunks, Lines, LinesSize, EncodePayload;
    var line, tail, size := SizeLineFound(m, s);
    var m1 := m.(chunkSize := size, chunkBytesRead := 0, state := if size == 0 then ChunkTrailers else ChunkData);
    if size == 0 {
      trailers := TrailersFound(m1, tail);
      chunks, lastLine := [], line;
      NoChunks(lastLine, trailers, Run(m, s).rest);
    } else {
      var data, rest := DataFound(m1, tail);
      var c := Chunk(line, data);
      var others;
      others, lastLine, trailers := ChunksFound(AfterChunk(m, data), rest);
      chunks := [c] + others;
      EncodeCons(c, others, "");
      OneMoreChunk(c, others, lastLine, trailers, Run(m, s).rest);
      assert forall i :: 0 <= i < |chunks| ==> chunks[i] == if i == 0 then c else others[i - 1];
    }
  }

  lemma NoChunks(lastLine: string, trailers: seq<string>, rest: string)
    ensures EncodePayload(Chunked([], lastLine, trailers)) + rest == lastLine + CRLF + (Lines(trailers) + (CRLF + rest))
    ensures |ChunkBytes([])| == 0
  {
    EncodeChunked([], lastLine, trailers, rest);
    assert EncodeChunks([]) == "";
  }

  lemma OneMoreChunk(c: Chunk, others: seq<Chunk>, lastLine: string, trailers: seq<string>, rest: string)
    ensures EncodePayload(Chunked([c] + others, lastLine, trailers)) + rest
         == c.sizeLine + CRLF + (c.data + CRLF + (EncodePayload(Chunked(others, lastLine, trailers)) + rest))
  {
    EncodeChunked([c] + others, lastLine, trailers, rest);
    EncodeChunked(others, lastLine, trailers, rest);
    EncodeCons(c, others, lastLine + CRLF + (Lines(trailers) + (CRLF + rest)));
  }

  /** Whatever the parser accepts is one well-formed message, and it consumes exactly that message. */
  lemma AcceptedIsMessage(s: string) returns (m: Message)
    requires Run(INITIAL, s).verdict == Complete
    ensures WellFormed(m) && s == Encode(m) + Run(INITIAL, s).rest
  {
    hide Run, AcceptLine, AcceptRequestLine, RequestLineOf, RequestLineOk, Lines, FieldLines, FieldsOk, Count;
    hide DeclaredLength, EncodePayload, ChunkedOk, HeadOk;
    var line, tail := LineFound(INITIAL, s);
    FirstLine(line);
    RequestLineNeverCompletes(line);
    var head := RequestLineFound(line);
    RequestLineAccepted(head);
    var m1 := AcceptRequestLine(INITIAL, line).next;
    NothingAbsorbed(m1);
    NoFields();
    var fields, next, body := FieldsFound(m1, [], tail);
    assert [] + fields == fields;
    OkHead(fields);
    CountBounds(fields);
    var payload;
    if next.state == Body {
      var bytes := PlainFound(next, fields, body);
      payload := Plain(bytes);
      PlainBytes(bytes);
    } else {
      var chunks, lastLine, trailers := ChunksFound(next, body);
      payload := Chunked(chunks, lastLine, trailers);
    }
    m := Message(head.method_, head.target, fields, payload);
    SameRequestLine(m, head);
    EncodeFrom(m, Run(INITIAL, s).rest);
  }

  lemma NoFields()
    ensures FieldsOk([])
  {
    assert FieldLines([]) == [];
  }

  lemma OkHead(fields: seq<Field>)
    requires HeadOk(fields)
    ensures FieldsOk(fields)
  {
    hide FieldsOk;
  }

  lemma SameRequestLine(a: Message, b: Message)
    requires a.method_ == b.method_ && a.target == b.target
    ensures RequestLineOf(a) == RequestLineOf(b) && RequestLineOk(a) == RequestLineOk(b)
  {
  }

  lemma RequestLineNeverCompletes(line: string)
    ensures AcceptRequestLine(INITIAL, line).Stop? ==> AcceptRequestLine(INITIAL, line).verdict != Complete
  {
    hide IsToken, IsTarget, RequestWords;
  }

  /** The parser completes on exactly those inputs that begin with a well-formed message. */
  lemma AcceptsExactlyTheGrammar(s: string)
    ensures Run(INITIAL, s).verdict == Complete <==> exists m :: WellFormed(m) && Encode(m) <= s
  {
    hide Run, WellFormed, Encode, Meaning, Short;
    if Run(INITIAL, s).verdict == Complete {
      var m := AcceptedIsMessage(s);
      assert WellFormed(m) && Encode(m) <= s;
    }
    if m :| WellFormed(m) && Encode(m) <= s {
      MessageAccepted(m, s[|Encode(m)|..]);
      assert s == Encode(m) + s[|Encode(m)|..];
    }
  }

  /** No input can be read as two messages: where a message ends, and what it says, is determined. */
  lemma Unambiguous(a: Message, restA: string, b: Message, restB: string)
    requires WellFormed(a) && WellFormed(b) && Encode(a) + restA == Encode(b) + restB
    ensures restA == restB && Encode(a) == Encode(b) && Meaning(a) == Meaning(b)
  {
    hide Run, WellFormed, Encode, Meaning, Short;
    MessageAccepted(a, restA);
    MessageAccepted(b, restB);
    assert (Encode(a) + restA)[..|Encode(a)|] == Encode(a);
    assert (Encode(b) + restB)[..|Encode(b)|] == Encode(b);
  }

  /** A completed request is framed as HTTP asks: one Host, never both a length and chunks, and a body of exactly
      the declared length or of the chunks together, within the limits. */
  lemma FramingIsSound(s: string) returns (m: Message)
    requires Run(INITIAL, s).verdict == Complete
    ensures s == Encode(m) + Run(INITIAL, s).rest && Run(INITIAL, s).memory.request == Meaning(m)
    ensures |Meaning(m).headers| == |m.fields| <= MAX_HEADER_COUNT && |Meaning(m).body| <= MAX_BODY_SIZE
    ensures Count(m.fields, Host) == 1 && !(Count(m.fields, TransferEncoding) == 1 && DeclaredLength(m.fields).Some?)
    ensures m.payload.Plain? ==> |Meaning(m).body| == if DeclaredLength(m.fields).Some? then DeclaredLength(m.fields).value else 0
    ensures m.payload.Chunked? ==> Meaning(m).body == ChunkBytes(m.payload.chunks) && Count(m.fields, TransferEncoding) == 1
  {
    hide Run, Encode, RequestLineOk, FieldOk, LinesSize, Count, DeclaredLength;
    m := AcceptedIsMessage(s);
    MessageAccepted(m, Run(INITIAL, s).rest);
    LengthBound(m.fields);
  }

  // ----- pipelining -----

  /** The requests a connection has yielded, and how its last parse ended. */
  datatype Served = Served(requests: seq<HttpRequest>, last: Outcome)

  lemma CompleteConsumes(s: string)
    requires Run(INITIAL, s).verdict == Complete
    ensures |Run(INITIAL, s).rest| < |s|
  {
    hide Run, RequestLineOf, Lines, FieldLines, EncodePayload, WellFormed;
    var m := AcceptedIsMessage(s);
  }

  /** The loop over pipelined requests: parse, take the request, drop its bytes, reset, parse again. */
  function Serve(m: Memory, s: string): Served
    decreases |s|, if m == INITIAL then 0 else 1
  {
    var o := Run(m, s);
    if o.verdict != Complete then Served([], o)
    else
      assert m == INITIAL ==> |o.rest| < |s| by { if m == INITIAL { CompleteConsumes(s); } }
      var more := Serve(INITIAL, o.rest);
      Served([o.memory.request] + more.requests, more.last)
  }

  /** The same loop, run again each time a fragment has been received. */
  function ServeStream(m: Memory, unread: string, fragments: seq<string>): Served
    decreases |fragments|
  {
    if fragments == [] then Serve(m, unread)
    else
      var v := Serve(m, unread + fragments[0]);
      if v.last.verdict != NeedMoreData then Served(v.requests, v.last.(rest := v.last.rest + Concat(fragments[1..])))
      else
        var w := ServeStream(v.last.memory, v.last.rest, fragments[1..]);
        Served(v.requests + w.requests, w.last)
  }

  function EncodeAll(messages: seq<Message>): string {
    if messages == [] then "" else Encode(messages[0]) + EncodeAll(messages[1..])
  }

  function Meanings(messages: seq<Message>): seq<HttpRequest> {
    seq(|messages|, i requires 0 <= i < |messages| => Meaning(messages[i]))
  }

  /** No line of any request on the stream is over 8191 bytes. */
  predicate StreamFits(m: Memory, s: string)
    decreases |s|, if m == INITIAL then 0 else 1
  {
    var o := Run(m, s);
    && LinesFit(m, s)
    && (o.verdict == Complete ==>
          assert m == INITIAL ==> |o.rest| < |s| by { if m == INITIAL { CompleteConsumes(s); } }
          StreamFits(INITIAL, o.rest))
  }

  predicate SameService(a: Served, b: Served) { a.requests == b.requests && Agree(a.last, b.last) }

  /** A list of messages is served as exactly what they mean, in order, whatever follows. */
  lemma {:induction false} PipelineRoundTrip(messages: seq<Message>, tail: string)
    requires forall i :: 0 <= i < |messages| ==> WellFormed(messages[i])
    ensures Serve(INITIAL, EncodeAll(messages) + tail)
         == Served(Meanings(messages) + Serve(INITIAL, tail).requests, Serve(INITIAL, tail).last)
    decreases |messages|
  {
    hide Run, WellFormed, Encode, Meaning, Short;
    if messages == [] {
      assert EncodeAll(messages) + tail == tail;
    } else {
      var m, more := messages[0], messages[1..];
      assert EncodeAll(messages) + tail == Encode(m) + (EncodeAll(more) + tail);
      MessageAccepted(m, EncodeAll(more) + tail);
      PipelineRoundTrip(more, tail);
      assert Meanings(messages) == [Meaning(m)] + Meanings(more);
    }
  }

  /** Of a stream of messages that has not come to its end, exactly those messages are served that have come whole. */
  lemma {:induction false} ServesTheWholeExactly(messages: seq<Message>, s: string, n: nat)
    requires forall i :: 0 <= i < |messages| ==> WellFormed(messages[i])
    requires s <= EncodeAll(messages) && n <= |messages|
    ensures n <= |Serve(INITIAL, s).requests| <==> |EncodeAll(messages[..n])| <= |s|
    ensures |Serve(INITIAL, s).requests| <= |messages|
    decreases |messages|
  {
    hide Run, WellFormed, Encode, Meaning;
    if messages == [] {
      NothingServed();
    } else {
      var first, others := messages[0], messages[1..];
      if n > 0 {
        assert messages[..n][1..] == others[..n - 1] && messages[..n][0] == first;
      }
      var o := Run(INITIAL, s);
      if o.verdict == Complete {
        CompleteConsumes(s);
        FirstIsWhole(first, EncodeAll(others), s);
        ServesTheWholeExactly(others, o.rest, if n > 0 then n - 1 else 0);
      } else if |Encode(first)| <= |s| {
        var tail := s[|Encode(first)|..];
        assert s == Encode(first) + tail;
        MessageAccepted(first, tail);
      }
    }
  }

  /** A request that completes on a stream that goes on to be a message is that message. */
  lemma FirstIsWhole(first: Message, others: string, s: string)
    requires WellFormed(first) && s <= Encode(first) + others && Run(INITIAL, s).verdict == Complete
    ensures s == Encode(first) + Run(INITIAL, s).rest && Run(INITIAL, s).rest <= others
  {
    hide Run, WellFormed, Encode, Meaning;
    var m := AcceptedIsMessage(s);
    var rest := Run(INITIAL, s).rest;
    var more := (Encode(first) + others)[|s|..];
    assert Encode(first) + others == s + more == Encode(m) + (rest + more);
    Unambiguous(m, rest + more, first, others);
    assert rest + more == others;
  }

  lemma {:induction false} ShortStreamFits(messages: seq<Message>)
    requires forall i :: 0 <= i < |messages| ==> WellFormed(messages[i]) && Short(messages[i])
    ensures StreamFits(INITIAL, EncodeAll(messages))
    decreases |messages|
  {
    if messages == [] {
      NothingToRead();
    } else {
      hide Run, LinesFit, WellFormed, Encode, Meaning, Short;
      var m, more := messages[0], messages[1..];
      MessageAccepted(m, EncodeAll(more));
      ShortStreamFits(more);
    }
  }

  lemma NothingToRead()
    ensures Run(INITIAL, "") == Outcome(NeedMoreData, INITIAL, "") && LinesFit(INITIAL, "")
  {
    NothingInLine(INITIAL);
    hide Step;
    RunRound(INITIAL, "", Some(NeedMoreData), INITIAL, 0);
  }

  lemma NothingInLine(m: Memory)
    requires m.state == RequestLine || (m.state == Headers && m.headersSize <= MAX_HEADERS_SIZE)
    ensures Step(m, "") == Stop(NeedMoreData, m, 0)
  {
    hide AcceptLine, ReadBody, ReadChunk, ReadChunkCrlf;
  }

  /** What more bytes change for a connection that has served what it could. */
  lemma {:induction false} ServeMore(m: Memory, s: string, more: string)
    requires Tame(m) && StreamFits(m, s + more)
    ensures var v := Serve(m, s);
            v.last.verdict != NeedMoreData ==> Serve(m, s + more) == Served(v.requests, v.last.(rest := v.last.rest + more))
    ensures var v := Serve(m, s);
            v.last.verdict == NeedMoreData ==>
              var w := Serve(v.last.memory, v.last.rest + more);
              && SameService(Serve(m, s + more), Served(v.requests + w.requests, w.last))
              && Tame(v.last.memory) && StreamFits(v.last.memory, v.last.rest + more)
    decreases |s|, if m == INITIAL then 0 else 1
  {
    hide Run, LinesFit, Straddles;
    var o := Run(m, s);
    if o.verdict == NeedMoreData {
      WaitingResumes(m, s, more);
      FitResumes(m, s, more);
      assert [] + Serve(o.memory, o.rest + more).requests == Serve(o.memory, o.rest + more).requests;
    } else {
      FitMeansNoStraddle(m, s, more);
      StopStands(m, s, more);
      if o.verdict == Complete {
        if m == INITIAL {
          CompleteConsumes(s);
        }
        ServeMore(INITIAL, o.rest, more);
        Regroup(m, s, more);
      }
    }
  }

  lemma {:induction false} StreamFitsBefore(m: Memory, s: string, more: string)
    requires Tame(m) && StreamFits(m, s + more)
    ensures StreamFits(m, s)
    decreases |s|, if m == INITIAL then 0 else 1
  {
    hide Run, LinesFit;
    FitBefore(m, s, more);
    var o := Run(m, s);
    if o.verdict == Complete {
      FitMeansNoStraddle(m, s, more);
      StopStands(m, s, more);
      if m == INITIAL {
        CompleteConsumes(s);
      }
      StreamFitsBefore(INITIAL, o.rest, more);
    }
  }

  lemma Regroup(m: Memory, s: string, more: string)
    requires Run(m, s).verdict == Complete && Run(m, s + more) == Run(m, s).(rest := Run(m, s).rest + more)
    ensures var o, v := Run(m, s), Serve(INITIAL, Run(m, s).rest);
            Serve(m, s) == Served([o.memory.request] + v.requests, v.last)
    ensures var o, v := Run(m, s), Serve(INITIAL, Run(m, s).rest + more);
            Serve(m, s + more) == Served([o.memory.request] + v.requests, v.last)
  {
    hide Run;
  }

  lemma {:induction false} StreamIsNeutral(m: Memory, unread: string, fragments: seq<string>)
    requires Tame(m) && StreamFits(m, unread + Concat(fragments))
    ensures SameService(Serve(m, unread + Concat(fragments)), ServeStream(m, unread, fragments))
    decreases |fragments|
  {
    hide Serve, StreamFits, Tame;
    if fragments == [] {
      assert unread + Concat(fragments) == unread;
    } else {
      var s, more := unread + fragments[0], Concat(fragments[1..]);
      assert unread + Concat(fragments) == s + more;
      ServeMore(m, s, more);
      var v := Serve(m, s);
      if v.last.verdict == NeedMoreData {
        StreamIsNeutral(v.last.memory, v.last.rest, fragments[1..]);
      }
    }
  }

  /** Any list of messages with lines of at most 8191 bytes, sent back to back and cut up anyhow,
      is served as exactly those requests in order, with no byte left over. */
  lemma AnyDelivery(messages: seq<Message>, fragments: seq<string>)
    requires forall i :: 0 <= i < |messages| ==> WellFormed(messages[i]) && Short(messages[i])
    requires Concat(fragments) == EncodeAll(messages)
    ensures ServeStream(INITIAL, "", fragments) == Served(Meanings(messages), Outcome(NeedMoreData, INITIAL, ""))
  {
    hide WellFormed, Short, Serve, StreamFits;
    var all := EncodeAll(messages);
    assert all + "" == all && "" + Concat(fragments) == all;
    PipelineRoundTrip(messages, "");
    NothingServed();
    assert Meanings(messages) + [] == Meanings(messages);
    ShortStreamFits(messages);
    StreamIsNeutral(INITIAL, "", fragments);
  }

  lemma NothingServed()
    ensures Serve(INITIAL, "") == Served([], Outcome(NeedMoreData, INITIAL, ""))
  {
    NothingToRead();
    hide Run;
  }

  // ----- the boundary that does matter -----

  /** A request line of exactly 8192 bytes. */
  function LongRequestLine(): string {
    RequestLineOf(Message("GET", seq(8179, _ => 'a'), [], Plain("")))
  }

  /** Received whole it is accepted; received up to its carriage return it is refused. */
  lemma LimitCountsTheCarriageReturn()
    ensures Run(INITIAL, LongRequestLine() + CRLF).verdict == NeedMoreData
    ensures Deliver(INITIAL, "", [LongRequestLine() + "\r", "\n"]).verdict == RequestLineTooLarge
  {
    var target := seq(8179, _ => 'a');
    var m := Message("GET", target, [], Plain(""));
    var line := LongRequestLine();
    assert IsToken("GET") && IsTarget(target) && ' ' !in target;
    assert RequestLineOk(m);
    RequestLineHasNoCrlf(m);
    hide RequestLineOf, RequestLineOk, LongRequestLine, Run, Step;
    RequestLineLeads(m, "", false);
    LeadsTo(INITIAL, line + CRLF + "", INITIAL.(state := Headers, request := HttpRequest("GET", target, VERSION, [], "")), "", false);
    assert line + CRLF + "" == line + CRLF;
    var next := INITIAL.(state := Headers, request := HttpRequest("GET", target, VERSION, [], ""));
    NothingInLine(next);
    RunRound(next, "", Some(NeedMoreData), next, 0);
    CutBeforeNewline(line);
    assert "" + (line + "\r") == line + "\r";
  }

  lemma CutBeforeNewline(line: string)
    requires |line| == MAX_REQUEST_LINE_SIZE && FindCrlf(line, 0).None?
    ensures Run(INITIAL, line + "\r").verdict == RequestLineTooLarge
  {
    FindAfterLine(line, "");
    var s := line + "\r";
    assert s + "\n" == line + CRLF + "";
    FindInExtension(s, "\n");
    hide AcceptLine, ReadBody, ReadChunk, ReadChunkCrlf;
  }
}
