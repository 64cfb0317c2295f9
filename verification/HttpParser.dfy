/** The incremental HTTP/1.1 parser of src/http/HttpParser.cpp. */
module HttpParser {
  import opened Text
  import opened HttpSyntax

  const MAX_REQUEST_LINE_SIZE: nat := 8 * 1024
  const MAX_HEADER_LINE_SIZE: nat := 8 * 1024
  const MAX_HEADERS_SIZE: nat := 32 * 1024
  const MAX_HEADER_COUNT: nat := 100

  datatype State = RequestLine | Headers | Body | ChunkSize | ChunkData | ChunkDataCrlf | ChunkTrailers

  datatype Verdict =
    | NeedMoreData
    | Complete
    | BadRequest
    | RequestLineTooLarge
    | HeadersTooLarge
    | TooManyHeaders
    | BodyTooLarge
    | UnsupportedTransferEncoding
    | UnsupportedVersion

  datatype HttpRequest = HttpRequest(
    method_: string, target: string, version: string,
    headers: seq<(string, string)>, body: string)

  /** Every field the parser keeps between calls, except its cursor. */
  datatype Memory = Memory(
    state: State, request: HttpRequest,
    contentLength: nat, headersSize: nat, headerCount: nat, hostCount: nat,
    chunkSize: nat, chunkBytesRead: nat, trailerSize: nat, trailerCount: nat,
    hasContentLength: bool, hasTransferEncoding: bool, chunkedTransferEncoding: bool)

  const EMPTY_REQUEST := HttpRequest("", "", "", [], "")
  const INITIAL := Memory(RequestLine, EMPTY_REQUEST, 0, 0, 0, 0, 0, 0, 0, 0, false, false, false)

  /** What one round of the parser's loop does with the unread bytes. */
  datatype Move = Go(next: Memory, used: nat) | Stop(verdict: Verdict, next: Memory, used: nat)

  /** What a whole call of `parse` does with the unread bytes. */
  datatype Outcome = Outcome(verdict: Verdict, memory: Memory, rest: string)

  // ----- a cursor beyond the buffer -----

  /** Subtraction in 64-bit words. */
  function Wrapped(difference: int): nat { difference % 0x1_0000_0000_0000_0000 }

  /** The verdict when the cursor stands beyond the buffer and `left` bytes seem to be left: no line end is found, a
      line is cut off by its limit, and bytes that are owed never come. */
  function PastEnd(m: Memory, left: nat): Verdict
    requires m.state != ChunkDataCrlf
  {
    if m.state == Body && (!m.hasContentLength || m.contentLength == 0) then Complete
    else if m.state == Body && m.contentLength > MAX_BODY_SIZE then BodyTooLarge
    else if m.state in {Headers, Body, ChunkData} then BadRequest
    else if UnfinishedTooLong(m, left) then TooLong(m)
    else NeedMoreData
  }

  /** Short of a wrap-around by the whole address space, such a cursor never makes the parser wait, and completes
      nothing but a request without a body. */
  lemma PastEndStops(m: Memory, size: nat, cursor: nat)
    requires m.state != ChunkDataCrlf && size < cursor < size + 0x8000_0000_0000_0000
    ensures PastEnd(m, Wrapped(size - cursor)) != NeedMoreData
    ensures PastEnd(m, Wrapped(size - cursor)) == Complete <==> m.state == Body && (!m.hasContentLength || m.contentLength == 0)
  {
    assert Wrapped(size - cursor) == size - cursor + 0x1_0000_0000_0000_0000;
  }

  // ----- one round, by state -----

  predicate ReadsLines(state: State) {
    state == RequestLine || state == Headers || state == ChunkSize || state == ChunkTrailers
  }

  /** The limit test on a buffer that holds no line end yet. */
  predicate UnfinishedTooLong(m: Memory, size: nat) {
    if m.state == RequestLine then size > MAX_REQUEST_LINE_SIZE
    else if m.state == Headers then size > MAX_HEADER_LINE_SIZE || m.headersSize + size > MAX_HEADERS_SIZE
    else if m.state == ChunkSize then size > MAX_HEADER_LINE_SIZE
    else size > MAX_HEADER_LINE_SIZE || m.trailerSize + size > MAX_HEADERS_SIZE
  }

  /** The limit test on a finished line; trailer lines have no limit of their own. */
  predicate LineTooLong(m: Memory, size: nat) {
    if m.state == RequestLine then size > MAX_REQUEST_LINE_SIZE
    else if m.state == Headers then size > MAX_HEADER_LINE_SIZE || m.headersSize + size + 2 > MAX_HEADERS_SIZE
    else if m.state == ChunkSize then size > MAX_HEADER_LINE_SIZE
    else m.trailerSize + size + 2 > MAX_HEADERS_SIZE
  }

  function TooLong(m: Memory): Verdict {
    if m.state == RequestLine then RequestLineTooLarge else HeadersTooLarge
  }

  /** The three words of a request line, cut at its only two spaces. */
  function RequestWords(line: string): Option<(string, string, string)> {
    var first := IndexOf(line, ' ', 0);
    if first.None? then None else
    var second := IndexOf(line, ' ', first.value + 1);
    if second.None? then None else
    if IndexOf(line, ' ', second.value + 1).Some? then None else
    if first.value == 0 || second.value == first.value + 1 || second.value + 1 >= |line| then None
    else Some((line[..first.value], line[first.value + 1..second.value], line[second.value + 1..]))
  }

  function AcceptRequestLine(m: Memory, line: string): (move: Move)
    ensures move.used <= |line| + 2 && (move.Go? ==> move.used == |line| + 2)
  {
    var words := RequestWords(line);
    if words.None? then Stop(BadRequest, m, 0) else
    var (method_, target, version) := words.value;
    var m1 := m.(request := m.request.(method_ := method_, target := target, version := version));
    if !IsToken(method_) || !IsTarget(target) then Stop(BadRequest, m1, 0)
    else if version != "HTTP/1.1" then Stop(UnsupportedVersion, m1, 0)
    else Go(m1.(state := Headers), |line| + 2)
  }

  function EndHeaders(m: Memory): (move: Move)
    ensures move.used <= 2 && (move.Go? ==> move.used == 2)
  {
    var m1 := m.(headersSize := m.headersSize + 2);
    if m1.hostCount != 1 || (m1.hasTransferEncoding && m1.hasContentLength) then Stop(BadRequest, m1, 2)
    else if !m1.hasTransferEncoding then Go(m1.(state := Body), 2)
    else if !m1.chunkedTransferEncoding then Stop(UnsupportedTransferEncoding, m1, 2)
    else Go(m1.(state := ChunkSize), 2)
  }

  function PushHeader(m: Memory, name: string, value: string): Memory {
    m.(request := m.request.(headers := m.request.headers + [(name, value)]))
  }

  function AcceptContentLength(m: Memory, name: string, value: string, used: nat): (move: Move)
    ensures move.used <= used && (move.Go? ==> move.used == used)
  {
    if value == "" then Stop(BadRequest, m, 0) else
    match Scan(value, false)
    case Malformed => Stop(BadRequest, m, 0)
    case TooBig => Stop(BodyTooLarge, m, 0)
    case Value(n) =>
      if m.hasContentLength && m.contentLength != n then Stop(BadRequest, m, 0)
      else Go(PushHeader(m.(contentLength := n, hasContentLength := true), name, value), used)
  }

  function AcceptTransferEncoding(m: Memory, name: string, value: string, used: nat): (move: Move)
    ensures move.used <= used && (move.Go? ==> move.used == used)
  {
    if m.hasTransferEncoding then Stop(BadRequest, m, 0)
    else if !IsChunked(Trim(value)) then Stop(UnsupportedTransferEncoding, m, 0)
    else Go(PushHeader(m.(hasTransferEncoding := true, chunkedTransferEncoding := true), name, value), used)
  }

  function AcceptField(m: Memory, name: string, value: string, used: nat): (move: Move)
    ensures move.used <= used && (move.Go? ==> move.used == used)
  {
    if Names(name, Host) then
      var m1 := m.(hostCount := m.hostCount + 1);
      if m1.hostCount > 1 || value == "" then Stop(BadRequest, m1, 0)
      else Go(PushHeader(m1, name, value), used)
    else if Names(name, ContentLength) then AcceptContentLength(m, name, value, used)
    else if Names(name, TransferEncoding) then AcceptTransferEncoding(m, name, value, used)
    else Go(PushHeader(m, name, value), used)
  }

  /** The name before the first colon of a header or trailer line, if it is a token. */
  function NameOf(line: string): (name: Option<string>)
    ensures name.Some? ==> IsToken(name.value) && |name.value| < |line| && line[|name.value|] == ':'
    ensures name.Some? ==> name.value == line[..|name.value|]
  {
    var colon := IndexOf(line, ':', 0);
    if colon.None? || colon.value == 0 || !IsToken(line[..colon.value]) then None
    else Some(line[..colon.value])
  }

  function AcceptHeader(m: Memory, line: string): (move: Move)
    ensures move.used <= |line| + 2 && (move.Go? ==> move.used == |line| + 2)
  {
    var m1 := m.(headersSize := m.headersSize + |line| + 2);
    if line == "" then EndHeaders(m) else
    var m2 := m1.(headerCount := m1.headerCount + 1);
    if m2.headerCount > MAX_HEADER_COUNT then Stop(TooManyHeaders, m2, 0) else
    match NameOf(line)
    case None => Stop(BadRequest, m2, 0)
    case Some(name) => AcceptField(m2, name, StripLeft(line[|name| + 1..]), |line| + 2)
  }

  function AcceptChunkSize(m: Memory, line: string): (move: Move)
    ensures move.used <= |line| + 2 && (move.Go? ==> move.used == |line| + 2)
  {
    match ChunkSizeOf(line)
    case None => Stop(BadRequest, m, 0)
    case Some(size) =>
      Go(m.(chunkSize := size, chunkBytesRead := 0, state := if size == 0 then ChunkTrailers else ChunkData), |line| + 2)
  }

  function AcceptTrailer(m: Memory, line: string): (move: Move)
    ensures move.used <= |line| + 2 && (move.Go? ==> move.used == |line| + 2)
  {
    var m1 := m.(trailerSize := m.trailerSize + |line| + 2);
    if line == "" then Stop(Complete, m1, 2) else
    var m2 := m1.(trailerCount := m1.trailerCount + 1);
    if m2.trailerCount > MAX_HEADER_COUNT then Stop(TooManyHeaders, m2, 0)
    else if NameOf(line).None? then Stop(BadRequest, m2, 0)
    else Go(m2, |line| + 2)
  }

  function AcceptLine(m: Memory, line: string): (move: Move)
    ensures move.used <= |line| + 2 && (move.Go? ==> move.used == |line| + 2)
  {
    if m.state == RequestLine then AcceptRequestLine(m, line)
    else if m.state == Headers then AcceptHeader(m, line)
    else if m.state == ChunkSize then AcceptChunkSize(m, line)
    else AcceptTrailer(m, line)
  }

  function ReadLine(m: Memory, s: string): (move: Move)
    ensures move.used <= |s|
  {
    var end := FindCrlf(s, 0);
    if end.None? then Stop(if UnfinishedTooLong(m, |s|) then TooLong(m) else NeedMoreData, m, 0)
    else if LineTooLong(m, end.value) then Stop(TooLong(m), m, 0)
    else
      AcceptLine(m, s[..end.value])
  }

  /** How many of `available` bytes still belong to a run of `whole` bytes of which `done` are read.
      Past the end the unsigned subtraction wraps, so that everything is taken. */
  function UpTo(whole: nat, done: nat, available: nat): (take: nat)
    ensures take <= available
  {
    if done <= whole && whole - done < available then whole - done else available
  }

  function Append(m: Memory, bytes: string): Memory {
    m.(request := m.request.(body := m.request.body + bytes))
  }

  function ReadBody(m: Memory, s: string): (move: Move)
    ensures move.used <= |s|
  {
    if !m.hasContentLength || m.contentLength == 0 then Stop(Complete, m, 0)
    else if m.contentLength > MAX_BODY_SIZE then Stop(BodyTooLarge, m, 0)
    else if s == "" then Stop(NeedMoreData, m, 0)
    else
      var take := UpTo(m.contentLength, |m.request.body|, |s|);
      var m1 := Append(m, s[..take]);
      Stop(if |m1.request.body| < m.contentLength then NeedMoreData else Complete, m1, take)
  }

  function ReadChunk(m: Memory, s: string): (move: Move)
    ensures move.used <= |s|
  {
    if s == "" then Stop(NeedMoreData, m, 0) else
    var take := UpTo(m.chunkSize, m.chunkBytesRead, |s|);
    if |m.request.body| + take > MAX_BODY_SIZE then Stop(BodyTooLarge, m, 0) else
    var m1 := Append(m, s[..take]).(chunkBytesRead := m.chunkBytesRead + take);
    if m1.chunkBytesRead < m.chunkSize then Stop(NeedMoreData, m1, take)
    else Go(m1.(state := ChunkDataCrlf), take)
  }

  function ReadChunkCrlf(m: Memory, s: string): (move: Move)
    ensures move.used <= |s|
  {
    if |s| < 2 then Stop(NeedMoreData, m, 0)
    else if s[0] != '\r' || s[1] != '\n' then Stop(BadRequest, m, 0)
    else Go(m.(state := ChunkSize), 2)
  }

  /** One round of the loop. */
  function Step(m: Memory, s: string): (move: Move)
    ensures move.used <= |s|
    ensures move.Go? ==> move.used > 0 || (m.state == ChunkData && move.next.state == ChunkDataCrlf)
  {
    if ReadsLines(m.state) then ReadLine(m, s)
    else if m.state == Body then ReadBody(m, s)
    else if m.state == ChunkData then ReadChunk(m, s)
    else ReadChunkCrlf(m, s)
  }

  /** A whole call of `parse` on the unread bytes. */
  function Run(m: Memory, s: string): (o: Outcome)
    ensures |o.rest| <= |s|
    decreases |s|, if m.state == ChunkData then 1 else 0
  {
    var move := Step(m, s);
    if move.Stop? then Outcome(move.verdict, move.next, s[move.used..])
    else Run(move.next, s[move.used..])
  }

  /** The move a round has made when it left `next` behind and took `used` bytes. */
  function Made(stop: Option<Verdict>, next: Memory, used: nat): Move {
    if stop.Some? then Stop(stop.value, next, used) else Go(next, used)
  }

  /** A round that goes on leaves the outcome of the call to the rounds after it. */
  lemma RunRound(m: Memory, s: string, stop: Option<Verdict>, next: Memory, used: nat)
    requires Step(m, s) == Made(stop, next, used)
    ensures used <= |s|
    ensures stop.Some? ==> Run(m, s) == Outcome(stop.value, next, s[used..])
    ensures stop.None? ==> Run(m, s) == Run(next, s[used..]) && (used > 0 || (m.state == ChunkData && next.state == ChunkDataCrlf))
  {
  }

  lemma RunLine(m: Memory, s: string, stop: Option<Verdict>, next: Memory, used: nat)
    requires m.state in {RequestLine, Headers, ChunkSize, ChunkTrailers} && ReadLine(m, s) == Made(stop, next, used)
    ensures Step(m, s) == Made(stop, next, used)
  {
    hide AcceptLine;
  }

  lemma RunBytes(m: Memory, s: string)
    ensures m.state == Body ==> Step(m, s) == ReadBody(m, s)
    ensures m.state == ChunkData ==> Step(m, s) == ReadChunk(m, s)
    ensures m.state == ChunkDataCrlf ==> Step(m, s) == ReadChunkCrlf(m, s)
  {
    hide ReadLine;
  }

  /** The class itself. `cursor` counts the bytes of the caller's buffer that are already parsed. */
  class HttpParser {
    var state: State
    var request: HttpRequest
    var cursor: nat
    var contentLength: nat
    var headersSize: nat
    var headerCount: nat
    var hostCount: nat
    var chunkSize: nat
    var chunkBytesRead: nat
    var trailerSize: nat
    var trailerCount: nat
    var hasContentLength: bool
    var hasTransferEncoding: bool
    var chunkedTransferEncoding: bool

    function Recall(): Memory
      reads this
    {
      Memory(state, request, contentLength, headersSize, headerCount, hostCount, chunkSize, chunkBytesRead,
             trailerSize, trailerCount, hasContentLength, hasTransferEncoding, chunkedTransferEncoding)
    }

    constructor ()
      ensures Recall() == INITIAL && cursor == 0
    {
      state, request, cursor := RequestLine, EMPTY_REQUEST, 0;
      contentLength, headersSize, headerCount, hostCount := 0, 0, 0, 0;
      chunkSize, chunkBytesRead, trailerSize, trailerCount := 0, 0, 0, 0;
      hasContentLength, hasTransferEncoding, chunkedTransferEncoding := false, false, false;
    }

    method Reset()
      modifies this
      ensures Recall() == INITIAL && cursor == 0
    {
      state, request, cursor := RequestLine, EMPTY_REQUEST, 0;
      contentLength, headersSize, headerCount, hostCount := 0, 0, 0, 0;
      chunkSize, chunkBytesRead, trailerSize, trailerCount := 0, 0, 0, 0;
      hasContentLength, hasTransferEncoding, chunkedTransferEncoding := false, false, false;
    }

    method ConsumeParsedBytes() returns (consumed: nat)
      modifies this`cursor
      ensures consumed == old(cursor) && cursor == 0
    {
      consumed := cursor;
      cursor := 0;
    }

    /** With a cursor beyond the buffer nothing is read; between the data of a chunk and its line end the source
        would then look at bytes that do not exist. */
    method Parse(buffer: string) returns (result: Verdict)
      requires cursor <= |buffer| || state != ChunkDataCrlf
      modifies this
      ensures old(cursor) <= |buffer| ==>
                cursor <= |buffer| && Run(old(Recall()), buffer[old(cursor)..]) == Outcome(result, Recall(), buffer[cursor..])
      ensures old(cursor) > |buffer| ==>
                cursor == old(cursor) && Recall() == old(Recall()) && result == PastEnd(Recall(), Wrapped(|buffer| - cursor))
    {
      if cursor > |buffer| {
        result := ParsePastEnd(|buffer|);
        return;
      }
      hide *;
      while true
        invariant old(cursor) <= cursor <= |buffer|
        invariant Run(Recall(), buffer[cursor..]) == Run(old(Recall()), buffer[old(cursor)..])
        decreases |buffer| - cursor, if state == ChunkData then 1 else 0
      {
        var stop := ParseState(buffer);
        if stop.Some? {
          return stop.value;
        }
      }
    }

    method ParsePastEnd(size: nat) returns (result: Verdict)
      requires cursor > size && state != ChunkDataCrlf
      ensures result == PastEnd(Recall(), Wrapped(size - cursor))
    {
      match state {
        case RequestLine =>
          result := if Wrapped(size - cursor) > MAX_REQUEST_LINE_SIZE then RequestLineTooLarge else NeedMoreData;
        case Headers =>
          result := BadRequest;
        case Body =>
          if !hasContentLength || contentLength == 0 {
            result := Complete;
          } else {
            result := if contentLength > MAX_BODY_SIZE then BodyTooLarge else BadRequest;
          }
        case ChunkSize =>
          result := if Wrapped(size - cursor) > MAX_HEADER_LINE_SIZE then HeadersTooLarge else NeedMoreData;
        case ChunkData =>
          result := BadRequest;
        case ChunkTrailers =>
          var left := Wrapped(size - cursor);
          result := if left > MAX_HEADER_LINE_SIZE || trailerSize + left > MAX_HEADERS_SIZE then HeadersTooLarge else NeedMoreData;
      }
    }

    /** The branch of the loop for the current state. */
    method ParseState(buffer: string) returns (stop: Option<Verdict>)
      requires cursor <= |buffer|
      modifies this
      ensures old(cursor) <= cursor <= |buffer|
      ensures Run(old(Recall()), buffer[old(cursor)..])
           == (if stop.Some? then Outcome(stop.value, Recall(), buffer[cursor..]) else Run(Recall(), buffer[cursor..]))
      ensures stop.None? ==> cursor > old(cursor) || (old(state) == ChunkData && state == ChunkDataCrlf)
    {
      hide *;
      ghost var m, start := Recall(), cursor;
      StateOf();
      if state == Headers {
        stop := ParseHeaders(buffer);
      } else if state == ChunkTrailers {
        var result := ParseChunkTrailers(buffer);
        stop := Some(result);
      } else {
        if state == RequestLine {
          stop := ParseRequestLine(buffer);
          RunLine(m, buffer[start..], stop, Recall(), cursor - start);
        } else if state == ChunkSize {
          stop := ParseChunkSize(buffer);
          RunLine(m, buffer[start..], stop, Recall(), cursor - start);
        } else if state == Body {
          stop := ParseBody(buffer);
          RunBytes(m, buffer[start..]);
        } else if state == ChunkData {
          stop := ParseChunkData(buffer);
          RunBytes(m, buffer[start..]);
        } else {
          stop := ParseChunkDataCrlf(buffer);
          RunBytes(m, buffer[start..]);
        }
        RunRound(m, buffer[start..], stop, Recall(), cursor - start);
        StateOf();
        assert buffer[start..][cursor - start..] == buffer[cursor..];
      }
    }

    lemma StateOf()
      ensures Recall().state == state
    {
    }

    method ParseRequestLine(buffer: string) returns (stop: Option<Verdict>)
      requires cursor <= |buffer| && state == RequestLine
      modifies this
      ensures old(cursor) <= cursor <= |buffer|
      ensures ReadLine(old(Recall()), buffer[old(cursor)..]) == Made(stop, Recall(), cursor - old(cursor))
    {
      hide AcceptRequestLine, AcceptHeader, AcceptChunkSize, AcceptTrailer;
      FindInRest(buffer, cursor);
      var end := FindCrlf(buffer, cursor);
      if end.None? {
        if |buffer| - cursor > MAX_REQUEST_LINE_SIZE {
          return Some(RequestLineTooLarge);
        }
        return Some(NeedMoreData);
      }
      if end.value - cursor > MAX_REQUEST_LINE_SIZE {
        return Some(RequestLineTooLarge);
      }
      var line := buffer[cursor..end.value];
      assert line == buffer[cursor..][..end.value - cursor];
      stop := ParseRequestWords(line);
    }

    method ParseRequestWords(line: string) returns (stop: Option<Verdict>)
      requires state == RequestLine
      modifies this
      ensures cursor >= old(cursor)
      ensures AcceptRequestLine(old(Recall()), line) == Made(stop, Recall(), cursor - old(cursor))
    {
      hide IsToken, IsTarget;
      var first := IndexOf(line, ' ', 0);
      if first.None? {
        return Some(BadRequest);
      }
      var second := IndexOf(line, ' ', first.value + 1);
      if second.None? {
        return Some(BadRequest);
      }
      if IndexOf(line, ' ', second.value + 1).Some? {
        return Some(BadRequest);
      }
      if first.value == 0 || second.value == first.value + 1 || second.value + 1 >= |line| {
        return Some(BadRequest);
      }
      request := request.(method_ := line[..first.value]);
      request := request.(target := line[first.value + 1..second.value]);
      request := request.(version := line[second.value + 1..]);
      var validMethod := IsValidToken(request.method_);
      if !validMethod {
        return Some(BadRequest);
      }
      var validTarget := IsValidTarget(request.target);
      if !validTarget {
        return Some(BadRequest);
      }
      if request.version != "HTTP/1.1" {
        return Some(UnsupportedVersion);
      }
      cursor := cursor + |line| + 2;
      state := Headers;
      return None;
    }

    method ParseHeaders(buffer: string) returns (stop: Option<Verdict>)
      requires cursor <= |buffer| && state == Headers
      modifies this
      ensures old(cursor) <= cursor <= |buffer|
      ensures Run(old(Recall()), buffer[old(cursor)..])
           == (if stop.Some? then Outcome(stop.value, Recall(), buffer[cursor..]) else Run(Recall(), buffer[cursor..]))
      ensures stop.None? ==> cursor > old(cursor)
    {
      hide *;
      while state == Headers
        invariant old(cursor) <= cursor <= |buffer|
        invariant state != Headers ==> cursor > old(cursor)
        invariant Run(Recall(), buffer[cursor..]) == Run(old(Recall()), buffer[old(cursor)..])
        decreases |buffer| - cursor
      {
        ghost var m, start := Recall(), cursor;
        StateOf();
        stop := ParseHeaderLine(buffer);
        RunLine(m, buffer[start..], stop, Recall(), cursor - start);
        RunRound(m, buffer[start..], stop, Recall(), cursor - start);
        if stop.Some? {
          return;
        }
      }
      return None;
    }

    /** One round of the header loop. */
    method ParseHeaderLine(buffer: string) returns (stop: Option<Verdict>)
      requires cursor <= |buffer| && state == Headers
      modifies this
      ensures old(cursor) <= cursor <= |buffer|
      ensures ReadLine(old(Recall()), buffer[old(cursor)..]) == Made(stop, Recall(), cursor - old(cursor))
    {
      hide AcceptRequestLine, AcceptChunkSize, AcceptTrailer, NameOf, AcceptField, EndHeaders, StripLeft;
      FindInRest(buffer, cursor);
      var end := FindCrlf(buffer, cursor);
      if end.None? {
        if |buffer| - cursor > MAX_HEADER_LINE_SIZE {
          return Some(HeadersTooLarge);
        }
        if headersSize + (|buffer| - cursor) > MAX_HEADERS_SIZE {
          return Some(HeadersTooLarge);
        }
        return Some(NeedMoreData);
      }
      var lineSize := end.value - cursor;
      if lineSize > MAX_HEADER_LINE_SIZE {
        return Some(HeadersTooLarge);
      }
      if headersSize + lineSize + 2 > MAX_HEADERS_SIZE {
        return Some(HeadersTooLarge);
      }
      var line := buffer[cursor..end.value];
      assert line == buffer[cursor..][..lineSize];
      if end.value == cursor {
        stop := FinishHeaders();
      } else {
        stop := ParseHeaderField(line);
      }
    }

    method FinishHeaders() returns (stop: Option<Verdict>)
      modifies this
      ensures cursor == old(cursor) + 2 && EndHeaders(old(Recall())) == Made(stop, Recall(), 2)
    {
      headersSize := headersSize + 2;
      cursor := cursor + 2;
      if hostCount != 1 {
        return Some(BadRequest);
      }
      if hasTransferEncoding && hasContentLength {
        return Some(BadRequest);
      }
      if hasTransferEncoding {
        if !chunkedTransferEncoding {
          return Some(UnsupportedTransferEncoding);
        }
        state := ChunkSize;
      } else {
        state := Body;
      }
      return None;
    }

    method ParseHeaderField(line: string) returns (stop: Option<Verdict>)
      requires line != ""
      modifies this
      ensures cursor >= old(cursor)
      ensures AcceptHeader(old(Recall()), line) == Made(stop, Recall(), cursor - old(cursor))
    {
      hide AcceptField, EndHeaders, StripLeft, IsToken;
      headersSize := headersSize + |line| + 2;
      headerCount := headerCount + 1;
      if headerCount > MAX_HEADER_COUNT {
        return Some(TooManyHeaders);
      }
      var colon := IndexOf(line, ':', 0);
      if colon.None? || colon.value == 0 {
        return Some(BadRequest);
      }
      var name := line[..colon.value];
      var validName := IsValidToken(name);
      if !validName {
        return Some(BadRequest);
      }
      var valueStart := SkipBlanks(line, colon.value + 1);
      var value := line[valueStart..];
      stop := ParseField(name, value, |line| + 2);
    }

    method ParseField(name: string, value: string, used: nat) returns (stop: Option<Verdict>)
      modifies this
      ensures cursor >= old(cursor)
      ensures AcceptField(old(Recall()), name, value, used) == Made(stop, Recall(), cursor - old(cursor))
    {
      hide AcceptContentLength, AcceptTransferEncoding;
      var isHost := EqualsIgnoreCase(name, "Host");
      if isHost {
        assert Names(name, Host);
        hostCount := hostCount + 1;
        if hostCount > 1 {
          return Some(BadRequest);
        }
        if value == "" {
          return Some(BadRequest);
        }
      }
      var isContentLength := EqualsIgnoreCase(name, "Content-Length");
      if isContentLength {
        assert Names(name, ContentLength);
        stop := ParseContentLength(name, value, used);
        if stop.Some? {
          return;
        }
      }
      var isTransferEncoding := EqualsIgnoreCase(name, "Transfer-Encoding");
      if isTransferEncoding {
        assert Names(name, TransferEncoding);
        stop := ParseTransferEncoding(name, value, used);
        if stop.Some? {
          return;
        }
      }
      request := request.(headers := request.headers + [(name, value)]);
      cursor := cursor + used;
      return None;
    }

    method ParseContentLength(name: string, value: string, used: nat) returns (stop: Option<Verdict>)
      modifies this
      ensures cursor == old(cursor)
      ensures AcceptContentLength(old(Recall()), name, value, used)
           == (if stop.Some? then Stop(stop.value, Recall(), 0) else Go(PushHeader(Recall(), name, value), used))
    {
      if value == "" {
        return Some(BadRequest);
      }
      var length := ReadNumber(value, false);
      if length.Malformed? {
        return Some(BadRequest);
      }
      if length.TooBig? {
        return Some(BodyTooLarge);
      }
      if hasContentLength && contentLength != length.n {
        return Some(BadRequest);
      }
      contentLength := length.n;
      hasContentLength := true;
      return None;
    }

    method ParseTransferEncoding(name: string, value: string, used: nat) returns (stop: Option<Verdict>)
      modifies this
      ensures cursor == old(cursor)
      ensures AcceptTransferEncoding(old(Recall()), name, value, used)
           == (if stop.Some? then Stop(stop.value, Recall(), 0) else Go(PushHeader(Recall(), name, value), used))
    {
      if hasTransferEncoding {
        return Some(BadRequest);
      }
      var encoding := TrimBlanks(value);
      var isChunked := EqualsIgnoreCase(encoding, "chunked");
      if !isChunked {
        return Some(UnsupportedTransferEncoding);
      }
      hasTransferEncoding := true;
      chunkedTransferEncoding := true;
      return None;
    }

    method ParseBody(buffer: string) returns (stop: Option<Verdict>)
      requires cursor <= |buffer| && state == Body
      modifies this
      ensures old(cursor) <= cursor <= |buffer|
      ensures ReadBody(old(Recall()), buffer[old(cursor)..]) == Made(stop, Recall(), cursor - old(cursor))
    {
      if !hasContentLength || contentLength == 0 {
        return Some(Complete);
      }
      if contentLength > MAX_BODY_SIZE {
        return Some(BodyTooLarge);
      }
      var available := |buffer| - cursor;
      if available == 0 {
        return Some(NeedMoreData);
      }
      var take := UpTo(contentLength, |request.body|, available);
      assert buffer[cursor..cursor + take] == buffer[cursor..][..take];
      request := request.(body := request.body + buffer[cursor..cursor + take]);
      cursor := cursor + take;
      if |request.body| < contentLength {
        return Some(NeedMoreData);
      }
      return Some(Complete);
    }

    method ParseChunkSize(buffer: string) returns (stop: Option<Verdict>)
      requires cursor <= |buffer| && state == ChunkSize
      modifies this
      ensures old(cursor) <= cursor <= |buffer|
      ensures ReadLine(old(Recall()), buffer[old(cursor)..]) == Made(stop, Recall(), cursor - old(cursor))
    {
      hide AcceptRequestLine, AcceptHeader, AcceptChunkSize, AcceptTrailer;
      FindInRest(buffer, cursor);
      var end := FindCrlf(buffer, cursor);
      if end.None? {
        if |buffer| - cursor > MAX_HEADER_LINE_SIZE {
          return Some(HeadersTooLarge);
        }
        return Some(NeedMoreData);
      }
      if end.value - cursor > MAX_HEADER_LINE_SIZE {
        return Some(HeadersTooLarge);
      }
      var line := buffer[cursor..end.value];
      assert line == buffer[cursor..][..end.value - cursor];
      stop := ParseChunkSizeLine(line);
    }

    method ParseChunkSizeLine(line: string) returns (stop: Option<Verdict>)
      modifies this
      ensures cursor >= old(cursor)
      ensures AcceptChunkSize(old(Recall()), line) == Made(stop, Recall(), cursor - old(cursor))
    {
      hide ChunkSizeOf;
      var valid, parsed := IsValidChunkSize(line);
      if !valid {
        return Some(BadRequest);
      }
      cursor := cursor + |line| + 2;
      chunkSize := parsed;
      chunkBytesRead := 0;
      if chunkSize == 0 {
        state := ChunkTrailers;
      } else {
        state := ChunkData;
      }
      return None;
    }

    method ParseChunkData(buffer: string) returns (stop: Option<Verdict>)
      requires cursor <= |buffer| && state == ChunkData
      modifies this
      ensures old(cursor) <= cursor <= |buffer|
      ensures ReadChunk(old(Recall()), buffer[old(cursor)..]) == Made(stop, Recall(), cursor - old(cursor))
    {
      var available := |buffer| - cursor;
      if available == 0 {
        return Some(NeedMoreData);
      }
      var take := UpTo(chunkSize, chunkBytesRead, available);
      if |request.body| + take > MAX_BODY_SIZE {
        return Some(BodyTooLarge);
      }
      assert buffer[cursor..cursor + take] == buffer[cursor..][..take];
      request := request.(body := request.body + buffer[cursor..cursor + take]);
      cursor := cursor + take;
      chunkBytesRead := chunkBytesRead + take;
      if chunkBytesRead < chunkSize {
        return Some(NeedMoreData);
      }
      state := ChunkDataCrlf;
      return None;
    }

    method ParseChunkDataCrlf(buffer: string) returns (stop: Option<Verdict>)
      requires cursor <= |buffer| && state == ChunkDataCrlf
      modifies this
      ensures old(cursor) <= cursor <= |buffer|
      ensures ReadChunkCrlf(old(Recall()), buffer[old(cursor)..]) == Made(stop, Recall(), cursor - old(cursor))
    {
      if |buffer| - cursor < 2 {
        return Some(NeedMoreData);
      }
      if buffer[cursor] != '\r' || buffer[cursor + 1] != '\n' {
        return Some(BadRequest);
      }
      cursor := cursor + 2;
      state := ChunkSize;
      return None;
    }

    method ParseChunkTrailers(buffer: string) returns (stop: Verdict)
      requires cursor <= |buffer| && state == ChunkTrailers
      modifies this
      ensures old(cursor) <= cursor <= |buffer|
      ensures Run(old(Recall()), buffer[old(cursor)..]) == Outcome(stop, Recall(), buffer[cursor..])
    {
      hide *;
      while true
        invariant old(cursor) <= cursor <= |buffer| && state == ChunkTrailers
        invariant Run(Recall(), buffer[cursor..]) == Run(old(Recall()), buffer[old(cursor)..])
        decreases |buffer| - cursor
      {
        ghost var m, start := Recall(), cursor;
        StateOf();
        var ended := ParseTrailerLine(buffer);
        RunLine(m, buffer[start..], ended, Recall(), cursor - start);
        RunRound(m, buffer[start..], ended, Recall(), cursor - start);
        if ended.Some? {
          return ended.value;
        }
      }
    }

    /** One round of the trailer loop. */
    method ParseTrailerLine(buffer: string) returns (stop: Option<Verdict>)
      requires cursor <= |buffer| && state == ChunkTrailers
      modifies this
      ensures old(cursor) <= cursor <= |buffer| && state == ChunkTrailers
      ensures ReadLine(old(Recall()), buffer[old(cursor)..]) == Made(stop, Recall(), cursor - old(cursor))
    {
      hide AcceptRequestLine, AcceptHeader, AcceptChunkSize, AcceptTrailer;
      FindInRest(buffer, cursor);
      var end := FindCrlf(buffer, cursor);
      if end.None? {
        if |buffer| - cursor > MAX_HEADER_LINE_SIZE {
          return Some(HeadersTooLarge);
        }
        if trailerSize + (|buffer| - cursor) > MAX_HEADERS_SIZE {
          return Some(HeadersTooLarge);
        }
        return Some(NeedMoreData);
      }
      var lineSize := end.value - cursor;
      if trailerSize + lineSize + 2 > MAX_HEADERS_SIZE {
        return Some(HeadersTooLarge);
      }
      var line := buffer[cursor..end.value];
      assert line == buffer[cursor..][..lineSize];
      stop := ParseTrailerField(line);
    }

    method ParseTrailerField(line: string) returns (stop: Option<Verdict>)
      modifies this
      ensures cursor >= old(cursor) && state == old(state)
      ensures AcceptTrailer(old(Recall()), line) == Made(stop, Recall(), cursor - old(cursor))
    {
      trailerSize := trailerSize + |line| + 2;
      if line == "" {
        cursor := cursor + 2;
        return Some(Complete);
      }
      trailerCount := trailerCount + 1;
      if trailerCount > MAX_HEADER_COUNT {
        return Some(TooManyHeaders);
      }
      var colon := IndexOf(line, ':', 0);
      if colon.None? || colon.value == 0 {
        return Some(BadRequest);
      }
      var validName := IsValidToken(line[..colon.value]);
      if !validName {
        return Some(BadRequest);
      }
      cursor := cursor + |line| + 2;
      return None;
    }
  }
}
