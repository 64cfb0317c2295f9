/** Where the boundaries between received fragments matter to the parser, and where they do not. */
module HttpFragments {
  import opened Text
  import opened HttpSyntax
  import opened HttpParser

  /** What every state reachable from INITIAL satisfies about the part of the body already read. */
  predicate Tame(m: Memory) {
    && (m.state == RequestLine || m.state == Headers ==> m.request.body == "")
    && (m.state == Body && m.hasContentLength ==> |m.request.body| <= m.contentLength)
    && (m.state == ChunkData ==> m.chunkBytesRead <= m.chunkSize)
  }

  /** Equal outcomes; when the body is refused as too large, only the verdicts need agree. */
  predicate Agree(a: Outcome, b: Outcome) {
    a.verdict == b.verdict && (a.verdict != BodyTooLarge ==> a == b)
  }

  // ----- one round on a longer buffer -----

  lemma TameHeader(m: Memory, line: string)
    requires m.state == Headers && Tame(m)
    ensures AcceptHeader(m, line).Go? ==> Tame(AcceptHeader(m, line).next)
  {
    hide NameOf, StripLeft, Scan, Names, IsChunked, Trim;
  }

  lemma TameRequestLine(m: Memory, line: string)
    requires m.state == RequestLine && Tame(m)
    ensures AcceptRequestLine(m, line).Go? ==> Tame(AcceptRequestLine(m, line).next)
  {
    hide IsToken, IsTarget;
  }

  lemma TameLine(m: Memory, line: string)
    requires ReadsLines(m.state) && Tame(m)
    ensures AcceptLine(m, line).Go? ==> Tame(AcceptLine(m, line).next)
  {
    hide AcceptRequestLine, AcceptHeader, NameOf, ChunkSizeOf;
    if m.state == Headers {
      TameHeader(m, line);
    } else if m.state == RequestLine {
      TameRequestLine(m, line);
    }
  }

  lemma TameStep(m: Memory, s: string)
    requires Tame(m)
    ensures var move := Step(m, s); move.Go? || move.verdict == NeedMoreData ==> Tame(move.next)
  {
    hide AcceptLine;
    if ReadsLines(m.state) && FindCrlf(s, 0).Some? {
      LineVerdicts(m, s[..FindCrlf(s, 0).value]);
      TameLine(m, s[..FindCrlf(s, 0).value]);
    }
  }

  lemma FieldVerdicts(m: Memory, name: string, value: string, used: nat)
    ensures var move := AcceptField(m, name, value, used);
            move.Stop? ==> move.verdict in {BadRequest, BodyTooLarge, UnsupportedTransferEncoding}
  {
    hide Scan, Names, IsChunked, Trim;
  }

  /** A line within its limits is never answered with a limit verdict. */
  lemma LineVerdicts(m: Memory, line: string)
    ensures var move := AcceptLine(m, line);
            move.Stop? ==> move.verdict !in {NeedMoreData, RequestLineTooLarge, HeadersTooLarge}
  {
    hide AcceptField, IsToken, IsTarget, ChunkSizeOf;
    if NameOf(line).Some? {
      var name := NameOf(line).value;
      var m1 := m.(headersSize := m.headersSize + |line| + 2).(headerCount := m.headerCount + 1);
      FieldVerdicts(m1, name, StripLeft(line[|name| + 1..]), |line| + 2);
    }
  }

  lemma LineMore(m: Memory, s: string, more: string)
    requires FindCrlf(s, 0).Some?
    ensures ReadLine(m, s + more) == ReadLine(m, s)
  {
    hide AcceptLine;
    FindInExtension(s, more);
    var e := FindCrlf(s, 0).value;
    assert (s + more)[..e] == s[..e];
  }

  /** A round that goes on, or completes, does so in the same way when more bytes follow. */
  lemma StepMore(m: Memory, s: string, more: string)
    requires Tame(m)
    requires var move := Step(m, s); move.Go? || move.verdict == Complete
    ensures Step(m, s + more) == Step(m, s)
  {
    hide AcceptLine;
    if ReadsLines(m.state) {
      LineMore(m, s, more);
    } else {
      assert forall k :: 0 <= k <= |s| ==> (s + more)[..k] == s[..k];
    }
  }

  /** The mirror image: a round on a long buffer needs only the bytes it uses. */
  lemma StepLess(m: Memory, s: string, more: string)
    requires Tame(m) && Step(m, s + more).Go? && Step(m, s + more).used <= |s|
    requires m.state == ChunkData ==> m.chunkBytesRead < m.chunkSize
    ensures Step(m, s) == Step(m, s + more)
  {
    hide AcceptLine;
    if ReadsLines(m.state) {
      FindInExtension(s, more);
      var e := FindCrlf(s + more, 0).value;
      assert (s + more)[..e] == s[..e];
    } else {
      assert forall k :: 0 <= k <= |s| ==> (s + more)[..k] == s[..k];
    }
  }

  /** Bytes of a body or chunk may be taken in two goes. */
  lemma SplitBytes(m: Memory, s: string, more: string)
    requires Tame(m) && (m.state == Body || m.state == ChunkData)
    requires Step(m, s).Stop? && Step(m, s).verdict == NeedMoreData
    ensures Agree(Run(m, s + more), Run(Step(m, s).next, s[Step(m, s).used..] + more))
  {
    BytesTaken(m, s);
    RunBytes(m, s);
    hide Run, Step, Tame;
    if s == "" {
      assert s[Step(m, s).used..] + more == s + more;
    } else if more == "" {
      RunRound(m, s, Some(NeedMoreData), Step(m, s).next, |s|);
      assert s + more == s;
      assert s[|s|..] + more == "" == s[|s|..];
    } else {
      assert s[Step(m, s).used..] + more == more;
      if m.state == Body {
        SplitBody(m, s, more);
      } else {
        SplitChunk(m, s, more);
      }
    }
  }

  /** Waiting inside a body or chunk means that every byte there was has been taken. */
  lemma BytesTaken(m: Memory, s: string)
    requires Tame(m) && (m.state == Body || m.state == ChunkData)
    requires Step(m, s).Stop? && Step(m, s).verdict == NeedMoreData
    ensures Step(m, s).used == |s| && (s == "" ==> Step(m, s).next == m)
    ensures Run(Step(m, s).next, "") == Outcome(NeedMoreData, Step(m, s).next, "")
  {
    hide ReadLine, ReadChunkCrlf;
  }

  lemma SplitCut(body: string, s: string, more: string, take: nat)
    requires take <= |more|
    ensures body + (s + more)[..|s| + take] == body + s + more[..take]
    ensures (s + more)[|s| + take..] == more[take..]
  {
    assert (s + more)[..|s| + take] == s + more[..take];
  }

  lemma SplitBody(m: Memory, s: string, more: string)
    requires Tame(m) && m.state == Body && s != "" && more != ""
    requires ReadBody(m, s).Stop? && ReadBody(m, s).verdict == NeedMoreData
    ensures Agree(Run(m, s + more), Run(ReadBody(m, s).next, more))
  {
    hide ReadLine, ReadChunk, ReadChunkCrlf;
    var take := UpTo(m.contentLength, |m.request.body| + |s|, |more|);
    SplitCut(m.request.body, s, more, take);
    assert s[..|s|] == s;
  }

  lemma SplitChunk(m: Memory, s: string, more: string)
    requires Tame(m) && m.state == ChunkData && s != "" && more != ""
    requires ReadChunk(m, s).Stop? && ReadChunk(m, s).verdict == NeedMoreData
    ensures Agree(Run(m, s + more), Run(ReadChunk(m, s).next, more))
    ensures var all, later := ReadChunk(m, s + more), ReadChunk(ReadChunk(m, s).next, more);
            (all.Stop? <==> later.Stop?) && (all.Go? ==> all.next == later.next && (s + more)[all.used..] == more[later.used..])
  {
    hide ReadLine, ReadBody, ReadChunkCrlf, Run;
    var m1 := ReadChunk(m, s).next;
    var take := UpTo(m.chunkSize, m.chunkBytesRead + |s|, |more|);
    SplitCut(m.request.body, s, more, take);
    assert s[..|s|] == s;
    var all, later := ReadChunk(m, s + more), ReadChunk(m1, more);
    assert all.Go? ==> later == Go(all.next, take) && all.used == |s| + take;
    assert all.Stop? ==> later.Stop? && later.verdict == all.verdict;
    RunOnce(m, s + more);
    RunOnce(m1, more);
  }

  lemma RunOnce(m: Memory, s: string)
    requires m.state == ChunkData
    ensures var move := ReadChunk(m, s);
            Run(m, s) == (if move.Stop? then Outcome(move.verdict, move.next, s[move.used..]) else Run(move.next, s[move.used..]))
  {
    hide ReadLine, ReadBody, ReadChunk, ReadChunkCrlf;
  }

  // ----- a whole call on a longer buffer -----

  /** If the first fragment leaves the parser waiting, resuming with the rest is parsing it all at once. */
  lemma {:induction false} WaitingResumes(m: Memory, s: string, more: string)
    requires Tame(m) && Run(m, s).verdict == NeedMoreData
    ensures Agree(Run(m, s + more), Run(Run(m, s).memory, Run(m, s).rest + more))
    ensures Tame(Run(m, s).memory)
    decreases |s|, if m.state == ChunkData then 1 else 0
  {
    hide Tame, ReadLine, ReadBody, ReadChunk, ReadChunkCrlf;
    var move := Step(m, s);
    TameStep(m, s);
    if move.Go? {
      StepMore(m, s, more);
      assert (s + more)[move.used..] == s[move.used..] + more;
      WaitingResumes(move.next, s[move.used..], more);
    } else if m.state == Body || m.state == ChunkData {
      SplitBytes(m, s, more);
    } else {
      NothingTaken(m, s);
    }
  }

  lemma NothingTaken(m: Memory, s: string)
    requires Step(m, s).Stop? && Step(m, s).verdict == NeedMoreData && m.state != Body && m.state != ChunkData
    ensures Step(m, s).next == m && s[Step(m, s).used..] == s
  {
    hide AcceptLine;
    if ReadsLines(m.state) && FindCrlf(s, 0).Some? {
      LineVerdicts(m, s[..FindCrlf(s, 0).value]);
    }
  }

  /** The parser gave up on an unfinished line that `more` would have finished within every limit. */
  predicate Straddles(o: Outcome, more: string) {
    && ReadsLines(o.memory.state)
    && o.verdict == TooLong(o.memory)
    && FindCrlf(o.rest, 0).None?
    && FindCrlf(o.rest + more, 0).Some?
    && !LineTooLong(o.memory, FindCrlf(o.rest + more, 0).value)
  }

  lemma StopMore(m: Memory, s: string, more: string)
    requires Tame(m) && Step(m, s).Stop? && Step(m, s).verdict != NeedMoreData
    ensures var move := Step(m, s);
            !Straddles(Outcome(move.verdict, move.next, s[move.used..]), more) ==> Step(m, s + more) == move
    ensures var move := Step(m, s);
            Straddles(Outcome(move.verdict, move.next, s[move.used..]), more) ==>
              ReadsLines(m.state) && move == Stop(TooLong(m), m, 0) && FindCrlf(s + more, 0).Some? &&
              ReadLine(m, s + more) == AcceptLine(m, (s + more)[..FindCrlf(s + more, 0).value])
  {
    hide AcceptLine, Tame;
    if !ReadsLines(m.state) {
      StopBytes(m, s, more);
    } else if FindCrlf(s, 0).Some? {
      hide ReadLine, Straddles;
      LineMore(m, s, more);
      StopInLine(m, s, more);
    } else {
      assert s[0..] == s;
      FindInExtension(s, more);
    }
  }

  lemma StopBytes(m: Memory, s: string, more: string)
    requires Tame(m) && !ReadsLines(m.state) && Step(m, s).Stop? && Step(m, s).verdict != NeedMoreData
    ensures Step(m, s + more) == Step(m, s) && !ReadsLines(Step(m, s).next.state)
  {
    hide ReadLine;
    assert forall k :: 0 <= k <= |s| ==> (s + more)[..k] == s[..k];
  }

  lemma StopInLine(m: Memory, s: string, more: string)
    requires ReadsLines(m.state) && FindCrlf(s, 0).Some? && Step(m, s).Stop?
    ensures var move := Step(m, s); !Straddles(Outcome(move.verdict, move.next, s[move.used..]), more)
  {
    hide AcceptLine;
    LineVerdicts(m, s[..FindCrlf(s, 0).value]);
    assert s[0..] == s;
  }

  /** Any other stop stands whatever follows; a straddled line is exactly what makes a difference. */
  lemma {:induction false} StopStands(m: Memory, s: string, more: string)
    requires Tame(m) && Run(m, s).verdict != NeedMoreData
    ensures var o := Run(m, s);
            Agree(Run(m, s + more), o.(rest := o.rest + more)) <==> !Straddles(o, more)
    ensures var o := Run(m, s);
            !Straddles(o, more) ==> Run(m, s + more) == o.(rest := o.rest + more)
    decreases |s|, if m.state == ChunkData then 1 else 0
  {
    hide Tame, ReadLine, ReadBody, ReadChunk, ReadChunkCrlf, Straddles;
    var move := Step(m, s);
    assert (s + more)[move.used..] == s[move.used..] + more;
    if move.Go? {
      TameStep(m, s);
      StepMore(m, s, more);
      StopStands(move.next, s[move.used..], more);
    } else {
      StopMore(m, s, more);
      if Straddles(Run(m, s), more) {
        StraddleDiffers(m, s, more);
      }
    }
  }

  lemma StraddleDiffers(m: Memory, s: string, more: string)
    requires ReadsLines(m.state) && Step(m, s) == Stop(TooLong(m), m, 0) && FindCrlf(s + more, 0).Some?
    requires ReadLine(m, s + more) == AcceptLine(m, (s + more)[..FindCrlf(s + more, 0).value])
    ensures !Agree(Run(m, s + more), Outcome(TooLong(m), m, s[0..] + more))
  {
    hide AcceptLine, ReadLine;
    LineVerdicts(m, (s + more)[..FindCrlf(s + more, 0).value]);
    assert Step(m, s + more) == ReadLine(m, s + more);
  }

  // ----- any number of fragments -----

  /** Every line the parser reads within its limits is at most 8191 bytes long. */
  predicate LinesFit(m: Memory, s: string)
    decreases |s|, if m.state == ChunkData then 1 else 0
  {
    var end := FindCrlf(s, 0);
    && (ReadsLines(m.state) && end.Some? && !LineTooLong(m, end.value) ==> end.value < MAX_HEADER_LINE_SIZE)
    && (Step(m, s).Go? ==> LinesFit(Step(m, s).next, s[Step(m, s).used..]))
  }

  function Concat(fragments: seq<string>): string {
    if fragments == [] then "" else fragments[0] + Concat(fragments[1..])
  }

  /** The caller's loop: append a fragment, parse, drop the consumed bytes, until the parser stops waiting. */
  function Deliver(m: Memory, unread: string, fragments: seq<string>): Outcome
    decreases |fragments|
  {
    if fragments == [] then Run(m, unread)
    else
      var o := Run(m, unread + fragments[0]);
      if o.verdict == NeedMoreData then Deliver(o.memory, o.rest, fragments[1..])
      else o.(rest := o.rest + Concat(fragments[1..]))
  }

  lemma {:induction false} FitMeansNoStraddle(m: Memory, s: string, more: string)
    requires Tame(m) && LinesFit(m, s + more) && Run(m, s).verdict != NeedMoreData
    ensures !Straddles(Run(m, s), more)
    decreases |s|, if m.state == ChunkData then 1 else 0
  {
    hide Tame, ReadLine, ReadBody, ReadChunk, ReadChunkCrlf, Straddles;
    var move := Step(m, s);
    if move.Go? {
      TameStep(m, s);
      StepMore(m, s, more);
      assert (s + more)[move.used..] == s[move.used..] + more;
      FitMeansNoStraddle(move.next, s[move.used..], more);
    } else {
      StopMore(m, s, more);
      FindInExtension(s, more);
      NoStraddleHere(m, s, more);
    }
  }

  lemma NoStraddleHere(m: Memory, s: string, more: string)
    requires ReadsLines(m.state) && FindCrlf(s + more, 0).Some? && !LineTooLong(m, FindCrlf(s + more, 0).value)
          ==> FindCrlf(s + more, 0).value < MAX_HEADER_LINE_SIZE
    requires Step(m, s).Stop? && Step(m, s).verdict != NeedMoreData && Tame(m)
    ensures var move := Step(m, s); !Straddles(Outcome(move.verdict, move.next, s[move.used..]), more)
  {
    hide AcceptLine, ReadBody, ReadChunk, ReadChunkCrlf;
    StopMore(m, s, more);
    FindInExtension(s, more);
    assert s[0..] == s;
    if FindCrlf(s, 0).Some? && ReadsLines(m.state) {
      StopInLine(m, s, more);
    }
  }

  lemma {:induction false} FitResumes(m: Memory, s: string, more: string)
    requires Tame(m) && LinesFit(m, s + more) && Run(m, s).verdict == NeedMoreData
    ensures LinesFit(Run(m, s).memory, Run(m, s).rest + more)
    decreases |s|, if m.state == ChunkData then 1 else 0
  {
    hide Tame, ReadLine, ReadBody, ReadChunk, ReadChunkCrlf;
    var move := Step(m, s);
    if move.Go? {
      TameStep(m, s);
      StepMore(m, s, more);
      assert (s + more)[move.used..] == s[move.used..] + more;
      FitResumes(move.next, s[move.used..], more);
    } else if m.state == Body || m.state == ChunkData {
      FitSplit(m, s, more);
    } else {
      NothingTaken(m, s);
    }
  }

  lemma FitSplit(m: Memory, s: string, more: string)
    requires Tame(m) && (m.state == Body || m.state == ChunkData) && LinesFit(m, s + more)
    requires Step(m, s).Stop? && Step(m, s).verdict == NeedMoreData
    ensures LinesFit(Step(m, s).next, s[Step(m, s).used..] + more)
  {
    hide LinesFit, Run, ReadLine, ReadBody, ReadChunk, ReadChunkCrlf;
    BytesTaken(m, s);
    var m1 := Step(m, s).next;
    assert s[Step(m, s).used..] + more == more;
    if s == "" {
      assert s + more == more;
    } else if m.state == Body || more == "" {
      StaysInBody(m, s);
      NoLines(m1, more);
    } else {
      StaysInBody(m, s);
      SplitChunk(m, s, more);
      FitSame(m, s + more, m1, more);
    }
  }

  lemma StaysInBody(m: Memory, s: string)
    requires (m.state == Body || m.state == ChunkData) && Step(m, s).Stop?
    ensures Step(m, s).next.state == m.state
  {
    hide ReadLine, ReadChunkCrlf;
  }

  lemma FitSame(m: Memory, s: string, m1: Memory, t: string)
    requires LinesFit(m, s) && !ReadsLines(m1.state)
    requires Step(m1, t).Go? ==> Step(m, s).Go? && Step(m, s).next == Step(m1, t).next && s[Step(m, s).used..] == t[Step(m1, t).used..]
    ensures LinesFit(m1, t)
  {
    hide Step;
  }

  lemma NoLines(m: Memory, s: string)
    requires m.state == Body || (m.state == ChunkData && s == "")
    ensures LinesFit(m, s)
  {
    hide ReadLine;
  }

  /** What fits as a whole fits as far as it has come. */
  lemma {:induction false} FitBefore(m: Memory, s: string, more: string)
    requires Tame(m) && LinesFit(m, s + more)
    ensures LinesFit(m, s)
    decreases |s|, if m.state == ChunkData then 1 else 0
  {
    hide Tame, ReadLine, ReadBody, ReadChunk, ReadChunkCrlf;
    FindInExtension(s, more);
    var move := Step(m, s);
    if move.Go? {
      StepMore(m, s, more);
      TameStep(m, s);
      assert (s + more)[move.used..] == s[move.used..] + more;
      FitBefore(move.next, s[move.used..], more);
    }
  }

  /** With no line over 8191 bytes, however the bytes are cut up the result is that of one call. */
  lemma {:induction false} DeliverAgrees(m: Memory, unread: string, fragments: seq<string>)
    requires Tame(m) && LinesFit(m, unread + Concat(fragments))
    ensures Agree(Run(m, unread + Concat(fragments)), Deliver(m, unread, fragments))
    decreases |fragments|
  {
    hide Tame, LinesFit, Run, Straddles;
    if fragments == [] {
      assert unread + Concat(fragments) == unread;
    } else {
      var s, more := unread + fragments[0], Concat(fragments[1..]);
      assert unread + Concat(fragments) == s + more;
      var o := Run(m, s);
      if o.verdict == NeedMoreData {
        WaitingResumes(m, s, more);
        FitResumes(m, s, more);
        DeliverAgrees(o.memory, o.rest, fragments[1..]);
      } else {
        FitMeansNoStraddle(m, s, more);
        StopStands(m, s, more);
      }
    }
  }

  /** A line of 8192 bytes or more that the limits let through: cutting just before its last line-end byte
      makes the parser give up. */
  lemma {:induction false} LongLineCut(m: Memory, s: string) returns (cut: nat)
    requires Tame(m) && !LinesFit(m, s) && (m.state == ChunkData ==> m.chunkBytesRead < m.chunkSize)
    ensures cut <= |s| && Run(m, s[..cut]).verdict != NeedMoreData && Straddles(Run(m, s[..cut]), s[cut..])
    decreases |s|, if m.state == ChunkData then 1 else 0
  {
    hide Step, Tame, Straddles, Run;
    var end := FindCrlf(s, 0);
    if ReadsLines(m.state) && end.Some? && !LineTooLong(m, end.value) && end.value >= MAX_HEADER_LINE_SIZE {
      cut := end.value + 1;
      LongLineHere(m, s);
    } else {
      var move := Step(m, s);
      TameStep(m, s);
      ChunkStarted(m, s);
      var inner := LongLineCut(move.next, s[move.used..]);
      cut := move.used + inner;
      assert s == s[..cut] + s[cut..];
      StepLess(m, s[..cut], s[cut..]);
      RunRound(m, s[..cut], None, move.next, move.used);
      assert s[..cut][move.used..] == s[move.used..][..inner];
      assert s[move.used..][inner..] == s[cut..];
    }
  }

  lemma ChunkStarted(m: Memory, s: string)
    ensures Step(m, s).Go? && Step(m, s).next.state == ChunkData ==> Step(m, s).next.chunkBytesRead < Step(m, s).next.chunkSize
  {
    hide AcceptRequestLine, AcceptHeader, AcceptTrailer, ChunkSizeOf;
    if ReadsLines(m.state) && FindCrlf(s, 0).Some? {
      NotYetChunk(m, s[..FindCrlf(s, 0).value]);
    }
  }

  lemma NotYetChunk(m: Memory, line: string)
    ensures AcceptRequestLine(m, line).Go? ==> AcceptRequestLine(m, line).next.state == Headers
    ensures m.state == Headers && AcceptHeader(m, line).Go? ==> AcceptHeader(m, line).next.state != ChunkData
    ensures m.state == ChunkTrailers && AcceptTrailer(m, line).Go? ==> AcceptTrailer(m, line).next.state == ChunkTrailers
  {
    hide IsToken, IsTarget, NameOf, StripLeft, Scan, Trim, Names, IsChunked;
  }

  lemma LongLineHere(m: Memory, s: string)
    requires ReadsLines(m.state) && FindCrlf(s, 0).Some? && !LineTooLong(m, FindCrlf(s, 0).value)
    requires FindCrlf(s, 0).value >= MAX_HEADER_LINE_SIZE
    ensures var cut := FindCrlf(s, 0).value + 1;
            Run(m, s[..cut]).verdict != NeedMoreData && Straddles(Run(m, s[..cut]), s[cut..])
  {
    hide AcceptLine;
    var e := FindCrlf(s, 0).value;
    var head := s[..e + 1];
    assert head + s[e + 1..] == s;
    forall k | 0 <= k ensures !CrlfAt(head, k) {
      assert CrlfAt(head, k) ==> CrlfAt(s, k);
    }
    assert FindCrlf(head, 0).None?;
    assert head[0..] == head;
  }

  /** Cutting the bytes up makes no difference exactly when no line within the limits is over 8191 bytes. */
  lemma FragmentationIsNeutral(m: Memory, s: string)
    requires Tame(m) && (m.state == ChunkData ==> m.chunkBytesRead < m.chunkSize)
    ensures (forall fragments | Concat(fragments) == s :: Agree(Run(m, s), Deliver(m, "", fragments))) <==> LinesFit(m, s)
  {
    hide Run, LinesFit, Straddles, Tame, Agree;
    if LinesFit(m, s) {
      forall fragments | Concat(fragments) == s
        ensures Agree(Run(m, s), Deliver(m, "", fragments))
      {
        assert "" + s == s;
        DeliverAgrees(m, "", fragments);
      }
    } else {
      var cut := LongLineCut(m, s);
      var fragments := [s[..cut], s[cut..]];
      assert s == s[..cut] + s[cut..];
      assert fragments[1..] == [s[cut..]];
      assert Concat(fragments[1..]) == s[cut..] + Concat([]) == s[cut..];
      assert Concat(fragments) == s;
      assert "" + s[..cut] == s[..cut];
      StopStands(m, s[..cut], s[cut..]);
    }
  }
}
