/** One client connection of the server (src/net/Connection.cpp): receive buffer, parser and output queue. */
module Connection {
  import opened Sockets
  import opened HttpParser
  import opened HttpBounds
  import opened HttpAcceptance

  const MAX_RECEIVE_BUFFER: nat := 64 * 1024
  const MAX_OUTPUT_QUEUE_SIZE: nat := 8 * 1024 * 1024

  datatype ReadResult = DataReceived | Disconnected | ReadError | BufferFull | NothingToReadNow

  datatype WriteResult = AllWritten | WriteWouldBlock | WriteError

  /** One entry of the output queue; `bytes` is the whole response, or the whole file. */
  datatype Output = Output(isFile: bool, bytes: string, offset: nat)

  function PendingOf(queue: seq<Output>): string
    requires forall i :: 0 <= i < |queue| ==> queue[i].offset <= |queue[i].bytes|
  {
    if queue == [] then "" else queue[0].bytes[queue[0].offset..] + PendingOf(queue[1..])
  }

  function SizeOf(queue: seq<Output>): nat {
    if queue == [] then 0 else |queue[0].bytes| + SizeOf(queue[1..])
  }

  /** The answer to a call of `recv` that is repeated as long as it is interrupted. */
  function Final(answers: seq<Receipt>): Receipt {
    if answers == [] then ReadWouldBlock
    else if answers[0].ReadInterrupted? then Final(answers[1..])
    else answers[0]
  }

  /** `recv` is offered 4096 bytes, or the room that is left. */
  predicate Offered(size: nat, bytes: string) { 0 < |bytes| <= 4096 && size + |bytes| <= MAX_RECEIVE_BUFFER }

  function ResultOf(size: nat, answer: Receipt): ReadResult {
    if size >= MAX_RECEIVE_BUFFER then BufferFull
    else match answer
      case Data(_) => DataReceived
      case Eof => Disconnected
      case ReadFailed => ReadError
      case ReadInterrupted => NothingToReadNow
      case ReadWouldBlock => NothingToReadNow
  }

  /** A kernel with room for everything it is offered. */
  predicate TakesAll(answers: seq<Sending>) {
    forall k :: 0 <= k < |answers| ==> answers[k].Sent? && answers[k].count >= MAX_OUTPUT_QUEUE_SIZE
  }

  lemma {:induction false} Enqueued(queue: seq<Output>, last: Output)
    requires forall i :: 0 <= i < |queue| ==> queue[i].offset <= |queue[i].bytes|
    requires last.offset == 0
    ensures PendingOf(queue + [last]) == PendingOf(queue) + last.bytes
    ensures SizeOf(queue + [last]) == SizeOf(queue) + |last.bytes|
  {
    if queue == [] {
      assert queue + [last] == [last];
      assert PendingOf([last][1..]) == "" && SizeOf([last][1..]) == 0;
    } else {
      Enqueued(queue[1..], last);
      assert (queue + [last])[1..] == queue[1..] + [last];
    }
  }

  lemma HeadAdvances(front: Output, after: Output, others: seq<Output>)
    requires after == front.(offset := after.offset) && front.offset <= after.offset <= |front.bytes|
    requires forall i :: 0 <= i < |others| ==> others[i].offset <= |others[i].bytes|
    ensures PendingOf([front] + others) == front.bytes[front.offset..after.offset] + PendingOf([after] + others)
    ensures SizeOf([after] + others) == SizeOf([front] + others)
  {
    assert ([front] + others)[1..] == others == ([after] + others)[1..];
    assert front.bytes[front.offset..] == front.bytes[front.offset..after.offset] + after.bytes[after.offset..];
  }

  class Connection {
    const parser: HttpParser
    var receiveBuffer: string
    var outputQueue: seq<Output>
    var outputQueueSize: nat
    var closeAfterWrite: bool

    /** Everything ever accepted for output, everything the socket has taken, and how many files ended early. */
    ghost var accepted: string
    ghost var wire: string
    ghost var truncated: nat

    ghost predicate Valid()
      reads this, parser
    {
      && parser.cursor <= |receiveBuffer| <= MAX_RECEIVE_BUFFER
      && OutputValid()
    }

    ghost predicate OutputValid()
      reads this
    {
      && (forall i :: 0 <= i < |outputQueue| ==> outputQueue[i].offset <= |outputQueue[i].bytes|)
      && outputQueueSize == SizeOf(outputQueue) <= MAX_OUTPUT_QUEUE_SIZE
      && (truncated == 0 ==> accepted == wire + PendingOf(outputQueue))
    }

    /** The received bytes that the parser has not consumed. */
    ghost function Unread(): string
      requires parser.cursor <= |receiveBuffer|
      reads this, parser
    {
      receiveBuffer[parser.cursor..]
    }

    constructor ()
      ensures Valid() && fresh(parser) && parser.Recall() == INITIAL && parser.cursor == 0 && receiveBuffer == ""
      ensures outputQueue == [] && outputQueueSize == 0 && !closeAfterWrite && accepted == "" && wire == "" && truncated == 0
    {
      parser := new HttpParser();
      receiveBuffer, outputQueue, outputQueueSize, closeAfterWrite := "", [], 0, false;
      accepted, wire, truncated := "", "", 0;
    }

    /** One call of `read`, with the answers `recv` gives to it and to its retries. */
    method Read(answers: seq<Receipt>) returns (result: ReadResult)
      requires Valid()
      requires Final(answers).Data? && |receiveBuffer| < MAX_RECEIVE_BUFFER ==> Offered(|receiveBuffer|, Final(answers).bytes)
      modifies this`receiveBuffer
      ensures Valid() && result == ResultOf(|old(receiveBuffer)|, Final(answers))
      ensures receiveBuffer == if result == DataReceived then old(receiveBuffer) + Final(answers).bytes else old(receiveBuffer)
      ensures Unread() == if result == DataReceived then old(Unread()) + Final(answers).bytes else old(Unread())
      decreases |answers|
    {
      if |receiveBuffer| >= MAX_RECEIVE_BUFFER {
        return BufferFull;
      }
      if answers == [] {
        return NothingToReadNow;
      }
      match answers[0] {
        case Data(bytes) =>
          receiveBuffer := receiveBuffer + bytes;
          assert Unread() == old(Unread()) + bytes;
          return DataReceived;
        case Eof =>
          return Disconnected;
        case ReadInterrupted =>
          result := Read(answers[1..]);
        case ReadWouldBlock =>
          return NothingToReadNow;
        case ReadFailed =>
          return ReadError;
      }
    }

    method ConsumeParsedBytes() returns (consumed: nat)
      requires Valid()
      modifies this`receiveBuffer, parser`cursor
      ensures Valid() && parser.cursor == 0 && consumed == old(parser.cursor)
      ensures receiveBuffer == old(Unread()) == Unread() && parser.Recall() == old(parser.Recall())
    {
      consumed := parser.ConsumeParsedBytes();
      if consumed == 0 {
        return;
      }
      if consumed >= |receiveBuffer| {
        receiveBuffer := "";
        return;
      }
      receiveBuffer := receiveBuffer[consumed..];
    }

    method ParseRequest() returns (result: Verdict)
      requires Valid()
      modifies parser
      ensures Valid() && Run(old(parser.Recall()), old(Unread())) == Outcome(result, parser.Recall(), Unread())
    {
      hide Run;
      result := parser.Parse(receiveBuffer);
    }

    /** The reactor's inner loop over the requests already received. */
    method ServeBuffered() returns (requests: seq<HttpRequest>, last: Verdict)
      requires Valid()
      modifies this`receiveBuffer, parser
      ensures Valid()
      ensures Serve(old(parser.Recall()), old(Unread())) == Served(requests, Outcome(last, parser.Recall(), Unread()))
      ensures Ready(old(parser.Recall())) && last == NeedMoreData ==> Ready(parser.Recall()) && |receiveBuffer| <= MAX_HEADER_LINE_SIZE
    {
      hide Run, OutputValid, Ready;
      requests := [];
      ghost var m0, s0 := parser.Recall(), Unread();
      while true
        invariant Valid() && (Ready(m0) ==> Ready(parser.Recall()))
        invariant Serve(m0, s0) == Served(requests + Serve(parser.Recall(), Unread()).requests, Serve(parser.Recall(), Unread()).last)
        decreases |Unread()|, if parser.Recall() == INITIAL then 0 else 1
      {
        ghost var m, s := parser.Recall(), Unread();
        ServeOnce(m, s);
        hide Serve;
        last := ParseRequest();
        if last == NeedMoreData {
          if Ready(m) {
            WaitingIsBounded(m, s);
          }
          var _ := ConsumeParsedBytes();
          assert requests + [] == requests;
          return;
        }
        if last != Complete {
          assert requests + [] == requests;
          return;
        }
        var request := parser.request;
        assert request == parser.Recall().request;
        assert requests + ([request] + Serve(INITIAL, Unread()).requests) == requests + [request] + Serve(INITIAL, Unread()).requests;
        requests := requests + [request];
        var _ := ConsumeParsedBytes();
        parser.Reset();
        ReadyInitially();
      }
    }

    /** Accepted exactly when the queue stays within its limit. */
    method QueueResponse(response: string) returns (ok: bool)
      requires OutputValid()
      modifies this`outputQueue, this`outputQueueSize, this`accepted
      ensures OutputValid()
      ensures ok <==> old(outputQueueSize) + |response| <= MAX_OUTPUT_QUEUE_SIZE
      ensures outputQueueSize == old(outputQueueSize) + if ok then |response| else 0
      ensures accepted == if ok then old(accepted) + response else old(accepted)
    {
      if |response| > MAX_OUTPUT_QUEUE_SIZE {
        return false;
      }
      if outputQueueSize + |response| > MAX_OUTPUT_QUEUE_SIZE {
        return false;
      }
      Enqueued(outputQueue, Output(false, response, 0));
      outputQueue := outputQueue + [Output(false, response, 0)];
      outputQueueSize := outputQueueSize + |response|;
      accepted := accepted + response;
      return true;
    }

    /** `content` is what the file holds when it is opened, if it can be. */
    method QueueFile(content: string, readable: bool) returns (ok: bool)
      requires OutputValid()
      modifies this`outputQueue, this`outputQueueSize, this`accepted
      ensures OutputValid()
      ensures ok <==> readable && old(outputQueueSize) + |content| <= MAX_OUTPUT_QUEUE_SIZE
      ensures outputQueueSize == old(outputQueueSize) + if ok then |content| else 0
      ensures accepted == if ok then old(accepted) + content else old(accepted)
    {
      if |content| > MAX_OUTPUT_QUEUE_SIZE {
        return false;
      }
      if outputQueueSize + |content| > MAX_OUTPUT_QUEUE_SIZE {
        return false;
      }
      if !readable {
        return false;
      }
      Enqueued(outputQueue, Output(true, content, 0));
      outputQueue := outputQueue + [Output(true, content, 0)];
      outputQueueSize := outputQueueSize + |content|;
      accepted := accepted + content;
      return true;
    }

    method PopFront()
      requires OutputValid() && outputQueue != [] && outputQueue[0].offset == |outputQueue[0].bytes|
      modifies this`outputQueue, this`outputQueueSize
      ensures OutputValid() && outputQueue == old(outputQueue[1..]) && outputQueueSize <= old(outputQueueSize)
    {
      outputQueueSize := outputQueueSize - |outputQueue[0].bytes|;
      outputQueue := outputQueue[1..];
    }

    /** One round of `write` that the kernel answers by taking `count` bytes of the front entry. */
    method Advance(count: nat)
      requires OutputValid() && outputQueue != [] && outputQueue[0].offset + count <= |outputQueue[0].bytes|
      modifies this`outputQueue, this`outputQueueSize, this`wire
      ensures OutputValid() && |outputQueue| <= |old(outputQueue)| && outputQueueSize <= old(outputQueueSize)
      ensures old(outputQueue[0].offset) + count == |old(outputQueue[0].bytes)| ==> |outputQueue| == |old(outputQueue)| - 1
      ensures wire == old(wire) + old(outputQueue[0].bytes[outputQueue[0].offset..outputQueue[0].offset + count])
    {
      var front := outputQueue[0];
      var after := front.(offset := front.offset + count);
      ghost var taken := front.bytes[front.offset..after.offset];
      HeadAdvances(front, after, outputQueue[1..]);
      assert outputQueue == [front] + outputQueue[1..];
      wire := wire + taken;
      outputQueue := [after] + outputQueue[1..];
      assert outputQueue[1..] == old(outputQueue[1..]);
      if after.offset == |after.bytes| {
        PopFront();
      }
    }

    /** One call of `write`, with the kernel's answers in order; when they run out the socket is full. */
    method Write(answers: seq<Sending>) returns (result: WriteResult, used: nat)
      requires OutputValid()
      modifies this`outputQueue, this`outputQueueSize, this`wire, this`truncated
      ensures OutputValid()
      ensures old(wire) <= wire && truncated >= old(truncated) && outputQueueSize <= old(outputQueueSize)
      ensures result == AllWritten <==> outputQueue == []
      ensures result == AllWritten && truncated == 0 ==> wire == accepted
      ensures truncated == 0 ==> wire <= accepted
      ensures Sent(0) !in answers ==> truncated == old(truncated)
      ensures used <= |answers|
      ensures result == WriteWouldBlock ==> used == |answers| || (used > 0 && answers[used - 1] == SendWouldBlock)
      ensures result == WriteError ==> used > 0 && answers[used - 1] in {SendFailed, Sent(0)}
      ensures TakesAll(answers) && |answers| >= |old(outputQueue)| ==> result == AllWritten
    {
      used := 0;
      while outputQueue != []
        invariant OutputValid() && used <= |answers| && outputQueueSize <= old(outputQueueSize)
        invariant |outputQueue| + used <= |old(outputQueue)| || !TakesAll(answers)
        invariant old(wire) <= wire && truncated >= old(truncated)
        invariant Sent(0) !in answers ==> truncated == old(truncated)
        decreases |outputQueue| + |answers| - used
      {
        var front := outputQueue[0];
        if front.offset >= |front.bytes| {
          PopFront();
          continue;
        }
        if used == |answers| {
          return WriteWouldBlock, used;
        }
        var answer := answers[used];
        used := used + 1;
        match answer {
          case Sent(count) =>
            if count > 0 {
              Advance(Min(count, |front.bytes| - front.offset));
            } else if front.isFile {
              // the file is shorter than it was: the rest of it is given up
              truncated := truncated + 1;
              outputQueueSize := outputQueueSize - |front.bytes|;
              outputQueue := outputQueue[1..];
            } else {
              return WriteError, used;
            }
          case SendInterrupted =>
          case SendWouldBlock =>
            return WriteWouldBlock, used;
          case SendFailed =>
            return WriteError, used;
        }
      }
      return AllWritten, used;
    }
  }

  function Min(a: nat, b: nat): nat { if a <= b then a else b }

  lemma ReadyInitially()
    ensures Ready(INITIAL)
  {
  }

  lemma ServeOnce(m: Memory, s: string)
    ensures var o := Run(m, s);
            Serve(m, s) == (if o.verdict != Complete then Served([], o)
                            else Served([o.memory.request] + Serve(INITIAL, o.rest).requests, Serve(INITIAL, o.rest).last))
    ensures Run(m, s).verdict == Complete ==> |Run(m, s).rest| < |s| || m != INITIAL
  {
    hide Run;
    if m == INITIAL && Run(m, s).verdict == Complete {
      CompleteConsumes(s);
    }
  }
}
