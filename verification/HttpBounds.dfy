/** The limits a waiting parser respects, in every reachable state. */
module HttpBounds {
  import opened Text
  import opened HttpSyntax
  import opened HttpParser
  import opened HttpFragments
  import opened HttpGrammar

  /** The invariant of a parser that has not yet completed or refused a request. */
  predicate Ready(m: Memory) {
    && m.contentLength <= MAX_BODY_SIZE
    && m.headersSize <= MAX_HEADERS_SIZE
    && m.headerCount == |m.request.headers| <= MAX_HEADER_COUNT
    && m.trailerSize <= MAX_HEADERS_SIZE
    && m.trailerCount <= MAX_HEADER_COUNT
    && m.hostCount <= 1
    && |m.request.body| <= MAX_BODY_SIZE
    && (m.state == RequestLine ==> m == INITIAL)
    && (m.state == RequestLine || m.state == Headers ==> m.request.body == "")
    && (m.state != RequestLine && m.state != Headers ==>
          m.hostCount == 1 && !(m.hasTransferEncoding && m.hasContentLength))
    && (m.state == Body ==> !m.hasTransferEncoding)
    && (m.state == Body ==> if m.hasContentLength && m.contentLength > 0 then |m.request.body| < m.contentLength else m.request.body == "")
    && (m.state in {ChunkSize, ChunkData, ChunkDataCrlf, ChunkTrailers} ==> m.hasTransferEncoding)
    && (m.state == ChunkData ==> m.chunkBytesRead < m.chunkSize <= MAX_BODY_SIZE)
  }


  /** The same, for a header section that has counted a field it has not stored yet. */
  predicate ReadyCounted(m: Memory) {
    0 < m.headerCount && m.state == Headers && Ready(m.(headerCount := m.headerCount - 1)) && m.headerCount <= MAX_HEADER_COUNT
  }

  lemma ReadyField(m: Memory, name: string, value: string, used: nat)
    requires ReadyCounted(m)
    ensures AcceptField(m, name, value, used).Go? ==> Ready(AcceptField(m, name, value, used).next)
  {
    FieldExact(m, name, value, used);
    forall a, b | Names(name, a) && Names(name, b) ensures a == b {
      OneName(name, a, b);
    }
    hide AcceptField, Names, IsChunked, Trim, Numeral;
  }

  lemma ReadyHeader(m: Memory, line: string)
    requires Ready(m) && m.state == Headers && m.headersSize + |line| + 2 <= MAX_HEADERS_SIZE
    ensures AcceptHeader(m, line).Go? ==> Ready(AcceptHeader(m, line).next)
  {
    hide AcceptField, NameOf, StripLeft;
    if NameOf(line).Some? && line != "" && m.headerCount < MAX_HEADER_COUNT {
      var name := NameOf(line).value;
      assert Counted(m, line).(headerCount := m.headerCount) == m.(headersSize := m.headersSize + |line| + 2);
      ReadyField(Counted(m, line), name, StripLeft(line[|name| + 1..]), |line| + 2);
    }
  }

  lemma ReadyOtherLine(m: Memory, line: string)
    requires Ready(m) && ReadsLines(m.state) && m.state != Headers && !LineTooLong(m, |line|)
    ensures AcceptLine(m, line).Go? ==> Ready(AcceptLine(m, line).next)
  {
    ScanExact(Trim(BeforeSemicolon(line)), true);
    hide NameOf, Scan, Numeral, Trim, BeforeSemicolon, IsToken, IsTarget, RequestWords, AcceptHeader;
  }

  lemma ReadyLine(m: Memory, line: string)
    requires Ready(m) && ReadsLines(m.state) && !LineTooLong(m, |line|)
    ensures AcceptLine(m, line).Go? ==> Ready(AcceptLine(m, line).next)
  {
    if m.state == Headers {
      hide AcceptHeader, Ready;
      ReadyHeader(m, line);
    } else {
      hide AcceptLine, Ready;
      ReadyOtherLine(m, line);
    }
  }

  lemma ReadyBytes(m: Memory, s: string)
    requires Ready(m) && !ReadsLines(m.state)
    ensures var move := Step(m, s);
            (move.Go? || move.verdict == NeedMoreData ==> Ready(move.next)) &&
            (move.Stop? && move.verdict == NeedMoreData ==> |s| - move.used <= 1)
  {
    RunBytes(m, s);
    hide Step;
  }

  lemma ReadyStep(m: Memory, s: string)
    requires Ready(m)
    ensures var move := Step(m, s);
            (move.Go? || move.verdict == NeedMoreData ==> Ready(move.next)) &&
            (move.Stop? && move.verdict == NeedMoreData ==> |s| - move.used <= MAX_HEADER_LINE_SIZE)
  {
    if ReadsLines(m.state) {
      var end := FindCrlf(s, 0);
      if end.Some? && !LineTooLong(m, end.value) {
        ReadyLine(m, s[..end.value]);
        LineVerdicts(m, s[..end.value]);
      }
      hide AcceptLine, Ready;
    } else {
      ReadyBytes(m, s);
      hide Step, Ready;
    }
  }

  /** A parser that waits has kept every limit and leaves at most 8192 bytes unread. */
  lemma {:induction false} WaitingIsBounded(m: Memory, s: string)
    requires Ready(m) && Run(m, s).verdict == NeedMoreData
    ensures Ready(Run(m, s).memory) && |Run(m, s).rest| <= MAX_HEADER_LINE_SIZE
    decreases |s|, if m.state == ChunkData then 1 else 0
  {
    hide Ready, ReadLine, ReadBody, ReadChunk, ReadChunkCrlf;
    ReadyStep(m, s);
    if Step(m, s).Go? {
      WaitingIsBounded(Step(m, s).next, s[Step(m, s).used..]);
    }
  }
}
