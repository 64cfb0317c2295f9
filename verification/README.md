# AORTA: a verified model of its state machines

AORTA is an HTTP server and a TCP load balancer. This project models the state machines and exact algorithms
under its socket calls in Dafny and proves what they keep over every run. The operating system is an adversary
with a short contract: new descriptors are not open yet, nothing follows the end of a stream, sends may be
partial, an eventfd is a counter that a read sets to zero. What it answers is a parameter of the methods.

The modules follow the program:

- `HttpSyntax`, `HttpParser`: the incremental HTTP/1.1 parser as a class with the fields of the program, proved
  equal to a function `Run` on what it remembers and the bytes it has not read. `HttpFragments`, `HttpBounds`,
  `HttpGrammar` and `HttpAcceptance` are about that function: independence of fragmentation with its exact
  condition, bounds in every reachable state, and a grammar with a printer that the parser accepts exactly.
- `Connection`: the receive buffer around the parser and the output queue. `Conversation` (with `HeaderTokens`): one
  client from end to end, its bytes in, the parser, the handler or a job, the output queue and its bytes out.
- `Relay`, `LbBooks`, `Dialing`, `Routing`, `LbEvents`, `Continuity`, `LoadBalancer`: the bytes of one proxied connection,
  the two maps with the counters and descriptors, the attempts to connect, the choice of a backend, one event as a
  function of the books, what every event keeps of the streams, and the class that puts them together. `StaleRuns` is
  one run of it, event by event.
- `Fnv`, `ConsistentHash`: the hash on 64-bit words and the ring against its specification.
- `WorkerPool`: workers, publishers, reactors and the stopping thread as interleaved atomic steps.
- `Reactor`: connections, generations, jobs in flight and the events epoll is asked for.
- `HealthChecker`: checks as state machines, and the counter that summarises their outcomes.
- `Metrics`: the latency histogram against the sorted samples.
- `Text`, `Collections`, `Sockets`: searching, maps and sets, and the answers of the kernel.

Where a class changes its fields in place, a function collects them in a value (`Recall`, `Books`), each method says
which value it leaves, and lemmas about those values carry the invariants. `Run` and `Start` methods take any list of
events, so that what they ensure holds over all runs.

Some things turned out otherwise than one might expect. They are kept as the program has them:

- The limits on unfinished lines count a trailing carriage return, those on finished lines do not
  (`src/http/HttpParser.cpp:153` and `:160`, `:225` and `:238`). `FragmentationIsNeutral` gives the exact condition and
  `LimitCountsTheCarriageReturn` an input.
- After a failover the end of the failed backend's stream is taken for the end of its successor's
  (`src/lb/LoadBalancer.cpp:1605-1639` leaves `backend_read_closed` alone). `StaleEndOfFile` gives the runs;
  `HalfCloseExactly` and `GracefulExactly` give the exact conditions, and `OverARun` what holds without a stale end.
- Requests that a client sent behind one that a job answers are not parsed when the job is done, but when the client
  sends more (`src/server/Reactor.cpp:490-567` does not go back to the parser). `NothingLeftLyingExactly` gives the exact
  condition on what the client has sent, and `StallsBehindAJob` the inputs.
- Replies that are ready when a later request of the same event goes to a job are not sent before the job answers
  (`src/server/Reactor.cpp:330-345` returns before the output). `HeldBehindAJob` and `SendsNothingUntilTheJob` state it.
- The rank of a percentile is computed in 64 bits. `OverflowExactly` gives the exact number of samples from which
  it can be wrong.

## Model

| member | source | states |
|---|---|---|
| HttpSyntax.EqualsIgnoreCase | src/http/HttpParser.cpp:7-19 | the loop says yes exactly for texts of one length that agree letter by letter in lower case |
| HttpSyntax.IsValidToken | src/http/HttpParser.cpp:22-42 | the validator accepts exactly the nonempty texts of token characters; the method validator at lines 45-65 is the same loop |
| HttpSyntax.IsValidTarget | src/http/HttpParser.cpp:68-80 | the validator accepts exactly the nonempty targets without control characters |
| HttpSyntax.TrimBlanks | src/http/HttpParser.cpp:83-99 | the two index loops cut off exactly the blanks and tabs at both ends |
| HttpSyntax.SkipBlanks | src/http/HttpParser.cpp:298-302 | the loop after the colon stops at the first byte that is no blank or tab |
| HttpSyntax.ReadNumber | src/http/HttpParser.cpp:323-337 | the digit loop with its overflow guard computes the scanner on values |
| HttpSyntax.ScanExact | src/http/HttpParser.cpp:325-337 | the guarded scan yields a value exactly when all characters are digits and the numeral is at most 1 MiB, and then it is the value of the numeral |
| HttpSyntax.IsValidChunkSize | src/http/HttpParser.cpp:102-144 | a chunk-size line is accepted exactly when the trimmed part before the semicolon is a nonempty hexadecimal numeral of at most 1 MiB, with that value |
| Text.FindCrlf | src/http/HttpParser.cpp:150 | the search finds the first line end from an index on, or there is none |
| Text.FindInExtension | src/http/HttpParser.cpp:150 | what a search found stays found when more bytes arrive, and where nothing was found a new line end can only begin at the last byte |
| HttpParser.Run | src/http/HttpParser.cpp:147-573 | the parser as a function of what it remembers and of the unread bytes: it never uses more than there is |
| HttpParser.Step | src/http/HttpParser.cpp:148-573 | one round of the outer loop uses no more bytes than there are, and a round that goes on uses at least one, except when it leaves a finished chunk |
| HttpParser.AcceptHeader | src/http/HttpParser.cpp:236-364 | a header line is used with its line end or not at all |
| HttpParser.HttpParser.Parse | src/http/HttpParser.cpp:147-573 | the imperative seven-state parser, field by field, does what the function does: same verdict, same memory, and the cursor stands exactly where the unread rest begins; with a cursor beyond the buffer it answers by state and touches nothing |
| HttpParser.PastEndStops | src/http/HttpParser.cpp:149-539 | with a cursor beyond the buffer the parser never waits, and completes nothing but a request without a body |
| HttpParser.HttpParser.ParseRequestLine | src/http/HttpParser.cpp:149-213 | the request-line state agrees with the specification in verdict, memory and cursor |
| HttpParser.HttpParser.ParseRequestWords | src/http/HttpParser.cpp:164-212 | the words between the only two spaces, their validators and the version |
| HttpParser.HttpParser.ParseHeaders | src/http/HttpParser.cpp:216-368 | the header loop agrees with the specification |
| HttpParser.HttpParser.ParseHeaderLine | src/http/HttpParser.cpp:222-364 | one round of the header loop: limits, the end of the section, or one field |
| HttpParser.HttpParser.FinishHeaders | src/http/HttpParser.cpp:248-270 | an empty line ends the section: one Host, not both framings, and the state that follows |
| HttpParser.HttpParser.ParseField | src/http/HttpParser.cpp:306-362 | Host, Content-Length, Transfer-Encoding and other fields, in the order of the program |
| HttpParser.HttpParser.ParseContentLength | src/http/HttpParser.cpp:318-345 | the declared length, with its overflow guard and the comparison with an earlier one |
| HttpParser.HttpParser.ParseTransferEncoding | src/http/HttpParser.cpp:347-360 | only one coding, and only chunked |
| HttpParser.HttpParser.ParseBody | src/http/HttpParser.cpp:371-411 | a body of declared length is taken as far as it is there |
| HttpParser.HttpParser.ParseChunkSize | src/http/HttpParser.cpp:414-454 | the chunk-size line |
| HttpParser.HttpParser.ParseChunkData | src/http/HttpParser.cpp:457-494 | the bytes of a chunk are taken as far as they are there, up to the limit of the body |
| HttpParser.HttpParser.ParseChunkDataCrlf | src/http/HttpParser.cpp:497-509 | the line end after a chunk |
| HttpParser.HttpParser.ParseChunkTrailers | src/http/HttpParser.cpp:512-571 | trailer lines up to the empty one |
| HttpParser.HttpParser.ConsumeParsedBytes | src/http/HttpParser.cpp:591-597 | hands out the cursor and sets it back to the start |
| HttpParser.HttpParser.Reset | src/http/HttpParser.cpp:600-618 | forgets everything |
| HttpFragments.WaitingResumes | src/http/HttpParser.cpp:147-573 | from any reachable memory: a parser that waited for more data after P continues on the rest and Q as one parse of P and Q would have gone |
| HttpFragments.StopStands | src/http/HttpParser.cpp:147-573 | a verdict reached on P stands when Q follows exactly unless an unfinished line was refused that Q would have ended in time |
| HttpFragments.StepMore | src/http/HttpParser.cpp:148-573 | a round that goes on goes on the same way whatever follows |
| HttpFragments.DeliverAgrees | src/http/HttpParser.cpp:147-573 | any list of fragments leads to the verdict, request, state and rest of the whole, when every line fits |
| HttpFragments.FitBefore | src/http/HttpParser.cpp:147-573 | an input whose lines fit has only beginnings whose lines fit |
| HttpFragments.LongLineCut | src/http/HttpParser.cpp:152-162 | a line that does not fit can be cut so that the verdict differs |
| HttpFragments.FragmentationIsNeutral | src/http/HttpParser.cpp:147-597 | cutting the input makes no difference for any fragments exactly when every line met fits with its carriage return |
| HttpBounds.ReadyStep | src/http/HttpParser.cpp:148-573 | every round keeps the limits: one Host, at most 100 headers, body and counters within their bounds |
| HttpBounds.WaitingIsBounded | src/http/HttpParser.cpp:147-573 | a waiting parser keeps its limits and leaves at most 8192 bytes unread |
| HttpGrammar.FieldsAccepted | src/http/HttpParser.cpp:216-365 | every well-formed list of header lines is taken in, in order |
| HttpGrammar.FieldAccepted | src/http/HttpParser.cpp:272-364 | a field that is well-formed together with the fields so far is within the limits and taken in |
| HttpGrammar.PlainAccepted | src/http/HttpParser.cpp:371-411 | a body of the declared length completes the request and leaves the rest |
| HttpGrammar.ChunkedAccepted | src/http/HttpParser.cpp:414-571 | chunks, the last chunk and trailers complete the request with the chunk data joined |
| HttpAcceptance.MessageAccepted | src/http/HttpParser.cpp:147-573 | a well-formed message followed by anything is parsed as that message, and the rest is left alone |
| HttpAcceptance.AcceptedIsMessage | src/http/HttpParser.cpp:147-573 | what was completed is the encoding of a well-formed message, consumed to its last byte |
| HttpAcceptance.AcceptsExactlyTheGrammar | src/http/HttpParser.cpp:147-573 | the parser completes on exactly the inputs that begin with a well-formed message |
| HttpAcceptance.FramingIsSound | src/http/HttpParser.cpp:251-267 | one Host, never both a length and chunks, at most 100 headers, and a body of the declared length or of the chunks together, at most 1 MiB (RFC 9112, sections 3.2 and 6) |
| HttpAcceptance.Unambiguous | src/http/HttpParser.cpp:147-573 | no input is the beginning of two different messages |
| HttpAcceptance.CompleteConsumes | src/http/HttpParser.cpp:147-573 | a completed request has used at least one byte |
| HttpAcceptance.PipelineRoundTrip | src/server/Reactor.cpp:237-394 | any list of well-formed messages printed one after the other comes back from the parse, consume and reset loop as exactly those requests in order |
| HttpAcceptance.ServesTheWholeExactly | src/server/Reactor.cpp:237-394 | of the beginning of any list of well-formed messages at least n are served exactly if the first n have come whole |
| HttpAcceptance.StreamIsNeutral | src/net/Connection.cpp:176-199 | a served stream does not depend on how it is cut, when every line fits |
| HttpAcceptance.AnyDelivery | src/server/Reactor.cpp:209-417 | well-formed messages with short lines, delivered in any fragments, come back exactly, in order, with no byte left over (RFC 9112, section 7.1) |
| HttpAcceptance.LimitCountsTheCarriageReturn | src/http/HttpParser.cpp:152-162 | a request line of exactly 8192 bytes is accepted at once and refused when its line end arrives in two pieces |
| Connection.Connection.Read | src/net/Connection.cpp:36-76 | a read that is repeated while interrupted: its result is that of the first other answer, its bytes are appended once, the buffer never exceeds its limit, and a full buffer is reported exactly then |
| Connection.Connection.ConsumeParsedBytes | src/net/Connection.cpp:176-194 | the consumed bytes are erased and nothing else; the cursor never passed the buffer |
| Connection.Connection.ParseRequest | src/net/Connection.cpp:197-199 | parsing the buffer is running the parser on the unread bytes |
| Connection.Connection.ServeBuffered | src/server/Reactor.cpp:237-394 | the loop over pipelined requests yields the requests of the specification and leaves at most 8192 bytes |
| Connection.Connection.QueueResponse | src/net/Connection.cpp:217-239 | accepted exactly when the queue stays within 8 MiB; then its bytes are last in line |
| Connection.Connection.QueueFile | src/net/Connection.cpp:242-277 | the same for the bytes of a file that can be opened |
| Connection.Connection.Write | src/net/Connection.cpp:79-168 | the wire holds a prefix of what was queued, in order, and all of it exactly when everything is written, unless a file ended early |
| Connection.HeadAdvances | src/net/Connection.cpp:97-163 | what was pending is what has just been sent from the front followed by what is pending now |
| HeaderTokens.ListsToken | src/http/HttpRequest.cpp:69-95 | the loop over the commas says yes exactly when some entry of the list, trimmed, is the token in any letter case |
| HeaderTokens.HasHeaderToken | src/http/HttpRequest.cpp:63-99 | a request has a token exactly when some header of that name lists it |
| Conversation.Conversation.ParseAll | src/server/Reactor.cpp:237-411 | on the real bytes: the inner loop parses, answers, hands over or ends as the specification on values says |
| Conversation.Conversation.Answer | src/server/Reactor.cpp:305-394 | a parsed request: its response and file are queued last, or it waits for a job, or the connection ends |
| Conversation.Conversation.ReadAll | src/server/Reactor.cpp:209-417 | on the real bytes: the reads and what is parsed after each of them |
| Conversation.Conversation.HandleClient | src/server/Reactor.cpp:178-420 | a connection that waits for a job is not read; otherwise reading, parsing, answering and one attempt to send, in this order |
| Conversation.Conversation.HandleWrite | src/server/Reactor.cpp:423-465 | sending only lengthens the wire; the connection goes on unless it fails, or is done and wants to close |
| Conversation.Conversation.CompleteAsyncResponse | src/server/Reactor.cpp:490-567 | the response of the waiting request is queued behind all others, and what lies unparsed in the buffer stays there |
| Conversation.Conversation.Converse | src/server/Reactor.cpp:634-707 | over any run, for any handler: what the client has been sent is a prefix of the replies to the requests parsed, in order, and all of it when nothing is left to send; the requests parsed are the first of those that one look at the whole stream finds, if its lines fit |
| Conversation.TracksRequest | src/server/Reactor.cpp:286-394 | the requests parsed so far and those still to come from the unread bytes stay together the requests of the stream, when one is parsed |
| Conversation.TracksWait | src/server/Reactor.cpp:238-244 | and when parsing waits for more data |
| Conversation.ClientHears | src/server/Reactor.cpp:209-567 | a client that sends well-formed requests with short lines, cut up anyhow, answered at once or by jobs in any interleaving: only its requests are parsed, in order, and only the replies to them come back, in order |
| Conversation.SettledHearsAll | src/server/Reactor.cpp:209-567 | once all is received and nothing is left to do, exactly its requests were parsed and exactly the replies were queued |
| Conversation.ReadIsPrompt | src/server/Reactor.cpp:209-417 | when a byte arrives, every request that is there in full is parsed, unless the connection waits, closes or ends |
| Conversation.WaitsExactly | src/server/Reactor.cpp:209-567 | for a client that sends well-formed requests with short lines, at any moment of its stream: everything received has been parsed exactly if the requests parsed are all there are, or fewer bytes have come than they and the next one take |
| Conversation.NothingLeftLyingExactly | src/server/Reactor.cpp:490-567 | for such a client, when a job has answered: no request is left lying exactly if the request that waited was the last one, or fewer bytes had come than the requests up to it and the next one take |
| Conversation.StallsBehindAJob | src/server/Reactor.cpp:330-345 | for any two well-formed messages in one piece, the first answered by a job: the second lies in the buffer in full and unparsed after the first is answered |
| Conversation.HeldBehindAJob | src/server/Reactor.cpp:178-345 | any list of requests answered at once, and behind them one that goes to a job, in one piece: all the replies are queued and the event ends before anything is sent |
| Conversation.SendsNothingUntilTheJob | src/server/Reactor.cpp:178-345 | in that case not a byte is sent before the job answers, whatever room the socket has, however often the client is read, and also if the connection ends without an answer |
| Relay.Receive | src/lb/LoadBalancer.cpp:1202-1339 | the read loop appends to the buffer what the specification of the answers says, and ends as it says |
| Relay.Pump | src/lb/LoadBalancer.cpp:1210-1243 | a read never lets the pending bytes exceed 8 MiB |
| Relay.PumpTakesAll | src/lb/LoadBalancer.cpp:1208-1260 | a read loop that ends well has taken the data of all its answers, in order |
| Relay.PumpIsPlausible | src/lb/LoadBalancer.cpp:1210-1295 | nothing is read after the end of a stream |
| Relay.Transmit | src/lb/LoadBalancer.cpp:1341-1402 | the send loop sends what the specification of the answers says |
| Relay.PushDelivers | src/lb/LoadBalancer.cpp:1346-1363 | a socket with room empties the buffer |
| Relay.ReadClientKeeps | src/lb/LoadBalancer.cpp:1222-1260 | bytes from the client join what waits for the backend; nothing is lost, doubled or reordered |
| Relay.ReadBackendKeeps | src/lb/LoadBalancer.cpp:1222-1260 | the same for the other direction |
| Relay.SendBackendKeeps | src/lb/LoadBalancer.cpp:1346-1363 | bytes sent to the backend are the first that waited |
| Relay.SendClientKeeps | src/lb/LoadBalancer.cpp:1346-1363 | the same for the other direction |
| Relay.DetachKeeps | src/lb/LoadBalancer.cpp:1605-1639 | when a backend is given up while connecting, everything the client ever sent still waits |
| Relay.AttachKeeps | src/lb/LoadBalancer.cpp:1685-1734 | the backend attached next will see the stream of the client from its first byte |
| Relay.SettlePair | src/lb/LoadBalancer.cpp:654-731 | the end of a round: emptied buffers, half-closes and what becomes of the connection |
| Relay.SettleKeeps | src/lb/LoadBalancer.cpp:686-704 | clearing and half-closes keep the invariant of the connection |
| Relay.GracefulExactly | src/lb/LoadBalancer.cpp:719-731 | the graceful close happens exactly when both sides have ended and every byte has been delivered both ways, or when an earlier, failed backend had ended |
| Relay.HalfCloseExactly | src/lb/LoadBalancer.cpp:686-704 | in a connection that goes on, the backend side is shut down exactly when the client has ended and everything it sent was sent on; the client side exactly when this backend or an earlier, failed one has ended and everything the backends sent was sent on |
| StaleRuns.StaleEndOfFile | src/lb/LoadBalancer.cpp:1605-1639 | a run of possible events in which the end of a failed backend is taken for the end of its successor: once the successor has taken the request the client side is shut down though the successor has neither sent anything nor ended, and a client that has ended as well is dismissed unanswered |
| LbBooks.AcceptedOk | src/lb/LoadBalancer.cpp:847-893 | a client on a fresh descriptor keeps the books |
| LbBooks.TiedOk | src/lb/LoadBalancer.cpp:1062-1107 | attaching a backend keeps the books |
| LbBooks.DetachedOk | src/lb/LoadBalancer.cpp:1605-1639 | giving up a backend keeps the books |
| LbBooks.ClosedOk | src/lb/LoadBalancer.cpp:1545-1588 | closing a connection keeps the books and touches no other connection |
| LbBooks.NeverZero | src/lb/LoadBalancer.cpp:1558-1572 | the counter of a connected backend is positive, so that the guarded decrement always takes one off |
| LbBooks.TiedCounts | src/lb/LoadBalancer.cpp:1071-1072 | after an attachment each counter is again the number of connections attached |
| LbBooks.FreeCounts | src/lb/LoadBalancer.cpp:1558-1572 | after a release each counter is again the number of connections attached |
| LbBooks.MapsAreInverse | src/lb/LoadBalancer.cpp:1104-1105 | a backend descriptor leads to a client exactly when that client has that descriptor |
| LbBooks.StreamIsExact | src/lb/LoadBalancer.cpp:591-617 | what a client has sent is what its backend was sent followed by what waits, at most 8 MiB; before the connection stands nothing was sent; a backend is shut down only when everything was sent |
| LbBooks.ReadFits | src/lb/LoadBalancer.cpp:1208-1236 | what one read loop takes keeps the books of the connection |
| LbBooks.AllGone | src/lb/LoadBalancer.cpp:1741-1781 | without connections all counters are zero and only health checks are open |
| LbEvents.LookFirst | src/lb/LoadBalancer.cpp:341-368 | the first look at a client: wait, close, the metrics page or a backend, by what was peeked |
| Continuity.ReadCarries | src/lb/LoadBalancer.cpp:1202-1295 | a read loop only adds to what was received, and adds nothing after the end of a stream |
| Continuity.FlushCarries | src/lb/LoadBalancer.cpp:1341-1402 | a send loop only adds to what was sent, and sends nothing to a side that was shut down |
| Continuity.FailoverSwaps | src/lb/LoadBalancer.cpp:1591-1739 | a failover gives up a backend that was still being connected and changes nothing else of the connection |
| Continuity.CarriedThenSwapped | src/lb/LoadBalancer.cpp:214-731 | an event that reads and then fails over continues the streams of its connection |
| Continuity.OverARun | src/lb/LoadBalancer.cpp:158-794 | over any run and any number of failovers, for a connection that survives: its four streams only grow, nothing follows the end of the client, what the client sent is at every moment what the present backend was sent followed by what waits, and nothing is sent to a side after it was shut down, toward the client as long as no end of stream is stale |
| Routing.PickIs | src/lb/LoadBalancer.cpp:897-922 | a selection takes the first healthy backend in cyclic order and moves it to the end of the order |
| Routing.PickFailsExactly | src/lb/LoadBalancer.cpp:897-922 | a selection fails exactly when no backend is healthy |
| Routing.OrderIsFair | src/lb/LoadBalancer.cpp:906-920 | the cyclic order holds every healthy backend once |
| Routing.EachOnce | src/lb/LoadBalancer.cpp:897-922 | with h healthy backends any h selections in a row choose each exactly once |
| Routing.CountsStayClose | src/lb/LoadBalancer.cpp:897-922 | over any number of selections the counts of two healthy backends differ by at most one |
| Dialing.OthersAreFair | src/lb/LoadBalancer.cpp:1649-1668 | the order of a failover holds every healthy backend but the failed one, each once |
| Dialing.VisitNext | src/lb/LoadBalancer.cpp:1660-1668 | the wrapping index of a failover visits that order step by step |
| Dialing.TryFails | src/lb/LoadBalancer.cpp:1674-1731 | a failed attempt leaves the client waiting, the open descriptors as they were and the books in order |
| Dialing.TryWorks | src/lb/LoadBalancer.cpp:1685-1738 | an attempt that works attaches the client and keeps the books |
| Dialing.PicksCover | src/lb/LoadBalancer.cpp:985-1037 | as many selections as there are backends reach every healthy one |
| Dialing.RobinDone | src/lb/LoadBalancer.cpp:985-1110 | the connection loop in round-robin mode has tried every healthy backend when it gives up |
| Dialing.TriedAll | src/lb/LoadBalancer.cpp:1004-1037 | so has the loop in hashing mode |
| LoadBalancer.LoadBalancer.HasHealthyBackend | src/lb/BackendPool.cpp:25-39 | some backend is healthy |
| LoadBalancer.LoadBalancer.SelectRoundRobinBackend | src/lb/LoadBalancer.cpp:897-922 | the loop computes the selection and the next index of the specification |
| LoadBalancer.LoadBalancer.SelectBackend | src/lb/LoadBalancer.cpp:924-947 | the next in turn, or the backend the address is routed to; none exactly when there is none |
| LoadBalancer.LoadBalancer.Attempt | src/lb/LoadBalancer.cpp:1046-1110 | one attempt: refused, not taken by the event loop, or attached, with its counters |
| LoadBalancer.LoadBalancer.ChooseBackend | src/lb/LoadBalancer.cpp:988-1034 | the first choice, then the next in turn, or the first healthy backend that was not tried |
| LoadBalancer.LoadBalancer.ConnectClientToBackend | src/lb/LoadBalancer.cpp:949-1111 | tries each healthy backend at most once, beginning with the selected one, and after a first choice gives up only when all of them failed; no other connection is touched |
| LoadBalancer.LoadBalancer.FailoverConnection | src/lb/LoadBalancer.cpp:1591-1739 | tries the other healthy backends in cyclic order until one works, all of them before the connection is closed |
| LoadBalancer.LoadBalancer.CloseConnection | src/lb/LoadBalancer.cpp:1524-1589 | exactly the descriptors, map entries and count of this connection go |
| LoadBalancer.LoadBalancer.ForwardData | src/lb/LoadBalancer.cpp:1202-1339 | one read loop: the bytes and the end of the stream are booked, or the connection is closed |
| LoadBalancer.LoadBalancer.FlushData | src/lb/LoadBalancer.cpp:1341-1402 | one send loop: the sent bytes are booked, or the connection is closed |
| LoadBalancer.LoadBalancer.ClientReadable | src/lb/LoadBalancer.cpp:313-492 | the first look, then the metrics page, a backend, or the next read: the books afterwards are those of the specification for the backends it tried |
| LoadBalancer.LoadBalancer.TurnToMetrics | src/lb/LoadBalancer.cpp:358-368 | a client that asks for the metrics page gets it and no backend |
| LoadBalancer.LoadBalancer.ReadFromNewBackend | src/lb/LoadBalancer.cpp:384-492 | a client without a backend is given one and then read, or closed when every healthy backend was tried and failed |
| LoadBalancer.LoadBalancer.SocketFailed | src/lb/LoadBalancer.cpp:249-288 | an error or hang-up of a socket: a backend that is being connected is replaced, by the first of the other healthy ones in cyclic order that works; anything else ends the connection |
| LoadBalancer.LoadBalancer.HandleBackend | src/lb/LoadBalancer.cpp:300-590 | input of a backend and the outcome of its connection attempt |
| LoadBalancer.LoadBalancer.ReadClient | src/lb/LoadBalancer.cpp:313-509 | the reads that an event of the client leads to |
| LoadBalancer.LoadBalancer.DrainClient | src/lb/LoadBalancer.cpp:496-509 | after a hang-up the rest of what the client sent is read |
| LoadBalancer.LoadBalancer.ReadBackend | src/lb/LoadBalancer.cpp:300-537 | the reads that an event of the backend leads to |
| LoadBalancer.LoadBalancer.AnswerMetrics | src/lb/LoadBalancer.cpp:399-483 | the metrics page is put out for a request that asks for it, any other connection is closed |
| LoadBalancer.LoadBalancer.FinishConnecting | src/lb/LoadBalancer.cpp:552-590 | a connection that stands is marked so, one that failed is handed to a failover; the streams stay as they are |
| LoadBalancer.LoadBalancer.FlushBoth | src/lb/LoadBalancer.cpp:591-642 | output to the backend if it is connected, then to the client |
| LoadBalancer.LoadBalancer.Settle | src/lb/LoadBalancer.cpp:654-731 | emptied buffers, half-closes, and the three kinds of close |
| LoadBalancer.LoadBalancer.HandleEvent | src/lb/LoadBalancer.cpp:214-731 | one event: socket errors, input of either side, the outcome of a connection attempt, output and settling in this order give the books of the specification for the backends tried; after a failure every other healthy backend is tried in cyclic order, for a new client every healthy one, until one works, and only then is the client closed; one connection is touched, and if it survives its streams are continued |
| LoadBalancer.LoadBalancer.HandleRound | src/lb/LoadBalancer.cpp:158-794 | no round breaks the streams of any connection that survives it |
| LoadBalancer.LoadBalancer.HandleAccept | src/lb/LoadBalancer.cpp:808-895 | every client that comes is taken in, in order, while there are fewer than 100000 and the event loop takes it; other connections are left as they are |
| LoadBalancer.LoadBalancer.CloseAllConnections | src/lb/LoadBalancer.cpp:1741-1781 | everything is closed once and every counter is back at zero |
| LoadBalancer.LoadBalancer.Start | src/lb/LoadBalancer.cpp:158-794 | over any run: every event continues the streams of every connection that survives it; at the end no descriptor is open, counters are zero, and each graceful close on the way had delivered everything |
| Fnv.Hash | src/lb/ConsistentHash.cpp:5-30 | the loop computes the fold of the rounds |
| Fnv.StepIsBijection | src/lb/ConsistentHash.cpp:22-27 | for a fixed byte a round is a bijection of 64-bit words |
| Fnv.StepTellsBytes | src/lb/ConsistentHash.cpp:22-27 | from one word different bytes lead to different words |
| Fnv.FoldIsInjective | src/lb/ConsistentHash.cpp:22-27 | equal tails keep different words different |
| Fnv.OneByteTells | src/lb/ConsistentHash.cpp:5-30 | keys of one length that differ in exactly one byte never have one hash |
| ConsistentHash.OwnerIsFirst | src/lb/ConsistentHash.cpp:45-71 | a position belongs to the first backend in the pool with a node there |
| ConsistentHash.ConsistentHash.Build | src/lb/ConsistentHash.cpp:40-72 | the ring holds every owned position with its owner and nothing else |
| ConsistentHash.ConsistentHash.GetBackend | src/lb/ConsistentHash.cpp:74-119 | the wrapping walk ends, returns the owner of the nearest node clockwise whose backend is healthy, and none exactly when no healthy backend owns a node |
| ConsistentHash.RoutesIsFunctional | src/lb/ConsistentHash.cpp:74-119 | there is one right answer |
| ConsistentHash.WalkIsClockwise | src/lb/ConsistentHash.cpp:87-116 | the walk meets the nodes in the order of their distance |
| ConsistentHash.StaysWithItsBackend | src/lb/ConsistentHash.cpp:74-119 | a key keeps its backend when others become unhealthy |
| ConsistentHash.MovesOnlyToTheRecovered | src/lb/ConsistentHash.cpp:74-119 | when a backend recovers a key stays or moves to that one |
| ConsistentHash.MovesOnlyToTheNew | src/lb/ConsistentHash.cpp:40-119 | when a backend is appended a key stays or moves to the new one |
| WorkerPool.WorkerPool.constructor | src/worker/WorkerPool.cpp:13-76 | the number of workers and channels |
| WorkerPool.WorkerPool.Submit | src/worker/WorkerPool.cpp:91-123 | accepted exactly when there is work, the reactor exists, the pool is not stopping, has workers and fewer than 4096 jobs; one sleeping worker is woken |
| WorkerPool.WorkerPool.Look | src/worker/WorkerPool.cpp:275-291 | a worker takes the first job, sleeps, or leaves when the pool stops and no job is left |
| WorkerPool.WorkerPool.Finish | src/worker/WorkerPool.cpp:293-301 | a job ends with or without a completion |
| WorkerPool.WorkerPool.Push | src/worker/WorkerPool.cpp:311-326 | the completion goes to the channel of the reactor that submitted the job |
| WorkerPool.WorkerPool.Signal | src/worker/WorkerPool.cpp:328-347 | the counter is raised, unless it is full |
| WorkerPool.WorkerPool.Consume | src/worker/WorkerPool.cpp:137-174 | a read zeroes the counter and goes on until it is found at zero |
| WorkerPool.WorkerPool.Pop | src/worker/WorkerPool.cpp:177-200 | the first completion, of a job of this reactor and never got before, or none |
| WorkerPool.WorkerPool.NotifyAll | src/worker/WorkerPool.cpp:219 | every sleeping worker is woken |
| WorkerPool.WorkerPool.Join | src/worker/WorkerPool.cpp:221-225 | when the workers are gone the queue is empty and every accepted job has run |
| WorkerPool.WorkerPool.Clear | src/worker/WorkerPool.cpp:227-237 | emptying the queue removes no job |
| WorkerPool.WorkerPool.AwaitWorkers | src/worker/WorkerPool.cpp:221-225 | whatever order the workers run in, a measure falls with each of their steps until all are gone |
| WorkerPool.WorkerPool.Stop | src/worker/WorkerPool.cpp:208-238 | stopping ends, and then every job ever accepted has run; a call while another thread is stopping, or after that, changes nothing |
| WorkerPool.WorkerPool.Run | src/worker/WorkerPool.cpp:91-348 | in every interleaving: no completion waits unnoticed, no job waits while a worker sleeps and none is on its way, each reactor gets completions of its own jobs only and each at most once |
| WorkerPool.TakenHands | src/worker/WorkerPool.cpp:289-290 | a job leaves the queue into the hands of one worker |
| WorkerPool.FinishedHands | src/worker/WorkerPool.cpp:295-306 | a job leaves the hands of its worker with one outcome |
| WorkerPool.WakeupsPush | src/worker/WorkerPool.cpp:321-326 | a push loses no wakeup |
| WorkerPool.WakeupsSignal | src/worker/WorkerPool.cpp:328-347 | raising the counter loses no wakeup |
| WorkerPool.WakeupsTake | src/worker/WorkerPool.cpp:137-200 | a reactor that goes back to waiting loses no wakeup |
| WorkerPool.NothingLeft | src/worker/WorkerPool.cpp:221-225 | no step is left exactly when every worker is gone |
| Reactor.Reactor.HandleAccept | src/server/Reactor.cpp:33-94 | every usable client that comes is taken in, with a generation above all earlier ones; other connections are left as they are |
| Reactor.Reactor.RemoveConnection | src/server/Reactor.cpp:97-110 | both maps and the active count lose exactly this connection |
| Reactor.Reactor.UpdateEvents | src/server/Reactor.cpp:113-130 | nothing happens when epoll has these events already; a connection for which it cannot be given them is removed |
| Reactor.Reactor.ParseAll | src/server/Reactor.cpp:237-411 | the inner loop parses, answers, defers or ends as the specification on values says |
| Reactor.Reactor.ReadAll | src/server/Reactor.cpp:209-417 | the outer loop reads and parses as the specification says |
| Reactor.Reactor.HandleClient | src/server/Reactor.cpp:178-420 | a connection that waits for a job is not read; otherwise only its own history and at most one job of its generation are new |
| Reactor.Reactor.HandleWrite | src/server/Reactor.cpp:423-465 | output changes no history, and a connection that is done and wants to close is removed |
| Reactor.Reactor.CompleteAsyncResponse | src/server/Reactor.cpp:490-567 | without a live connection of the generation nothing changes; otherwise the response of the job's own request is queued behind all others and completes them, or the connection is gone |
| Reactor.Reactor.HandleCompletion | src/server/Reactor.cpp:468-567 | a completion answers its own request or nothing |
| Reactor.Reactor.HandleEvent | src/server/Reactor.cpp:578-631 | errors, input, output and hang-up in this order, and no job is forgotten |
| Reactor.Reactor.RemoveExpiredConnections | src/server/Reactor.cpp:149-169 | exactly the connections whose deadline has come are removed |
| Reactor.Reactor.HandleRound | src/server/Reactor.cpp:578-707 | the books after any event, completion, accept or tick are those of the specification |
| Reactor.Reactor.Run | src/server/Reactor.cpp:634-707 | over any run responses are queued in the order their requests were parsed, no two jobs have one generation, and no connection that waits for its client is left unwatched |
| Reactor.OneJobEach | src/server/Reactor.cpp:198-345 | a connection that is not pending has no job in flight, a pending one at most one |
| Reactor.ArrivedOk | src/server/Reactor.cpp:68-92 | a new generation belongs to no job and no other connection |
| Reactor.DeferredOk | src/server/Reactor.cpp:330-345 | handing over a request makes one job for a connection that had none |
| Reactor.DeferringHoldsBack | src/server/Reactor.cpp:330-345 | a connection that comes to wait for a job has sent nothing in that event, and epoll is asked for hang-ups only |
| Reactor.AnsweredLateOk | src/server/Reactor.cpp:523-562 | appending the answer to the job's request keeps the order of the answers, because no request was parsed after it and all before it are answered |
| Reactor.EventListens | src/server/Reactor.cpp:578-631 | after any event every connection without a job is watched for input, and for output exactly while there is some |
| Reactor.CompletedListens | src/server/Reactor.cpp:490-567 | the same after a job has answered |
| HealthChecker.JudgedOk | src/lb/HealthChecker.cpp:580-595 | the counter stays the length of the trailing run of failures, and the verdict stays below two of them |
| HealthChecker.HealthyExactly | src/lb/HealthChecker.cpp:583-592 | a backend is healthy exactly unless its last two outcomes were failures |
| HealthChecker.ReadResponse | src/lb/HealthChecker.cpp:467-554 | the read loop concludes what the specification of the answers says |
| HealthChecker.HealthyMeansOk | src/lb/HealthChecker.cpp:493-517 | a check succeeds exactly when what was read contains the status line |
| HealthChecker.PiecesDoNotMatter | src/lb/HealthChecker.cpp:473-530 | how a short response is cut makes no difference |
| HealthChecker.OkBeatsHangUp | src/lb/HealthChecker.cpp:253-284 | when an event lets a check read, by whatever phase it began in, its backend is recorded as healthy exactly when the response read up to then holds the status line, whether or not the peer has hung up |
| HealthChecker.ReadsDecide | src/lb/HealthChecker.cpp:240-284 | reading decides an event before any hang-up does |
| HealthChecker.ResolvedOk | src/lb/HealthChecker.cpp:556-641 | an outcome is recorded once and ends the check |
| HealthChecker.HealthChecker.Start | src/lb/HealthChecker.cpp:22-168 | unless checks are going on each backend gets exactly one attempt, failed at once or in flight |
| HealthChecker.HealthChecker.HandleConnect | src/lb/HealthChecker.cpp:368-404 | the outcome of a connection attempt |
| HealthChecker.HealthChecker.HandleWrite | src/lb/HealthChecker.cpp:406-465 | the request is sent on, and after its last byte the check reads |
| HealthChecker.HealthChecker.HandleRead | src/lb/HealthChecker.cpp:467-554 | the response settles the check or is kept |
| HealthChecker.HealthChecker.FinishCheck | src/lb/HealthChecker.cpp:556-602 | one outcome for the backend of the check; the failing twin at lines 604-641 is the same with a failure |
| HealthChecker.HealthChecker.HandleEvent | src/lb/HealthChecker.cpp:170-285 | connecting, writing, reading and only then hang-ups: at most one outcome |
| HealthChecker.HealthChecker.Expire | src/lb/HealthChecker.cpp:332-353 | exactly the overdue checks end: the history of each of their backends grows by one failure, every other history stays |
| HealthChecker.HealthChecker.CancelAll | src/lb/HealthChecker.cpp:355-366 | everything in flight is dropped |
| HealthChecker.HealthChecker.Run | src/lb/HealthChecker.cpp:22-366 | over any run counter and verdict are those of the history, and each attempt had one outcome or was cancelled |
| Metrics.Metrics.RecordLatency | src/server/Metrics.cpp:55-86 | count, sum, maximum and histogram are those of all samples, in 64-bit words |
| Metrics.Metrics.Scan | src/server/Metrics.cpp:156-167 | the loop over the running sum finds the first bucket that reaches the target |
| Metrics.Metrics.GetP50LatencyUs | src/server/Metrics.cpp:144-168 | the bucket bound of the median by nearest rank |
| Metrics.Metrics.GetP95LatencyUs | src/server/Metrics.cpp:170-194 | the bucket bound of the 95th percentile by nearest rank, while the rank fits 64 bits |
| Metrics.Metrics.GetP99LatencyUs | src/server/Metrics.cpp:196-220 | the bucket bound of the 99th percentile by nearest rank, while the rank fits 64 bits |
| Metrics.AnswerCovers | src/server/Metrics.cpp:144-220 | a percentile answered is at or above the sample of its nearest rank, unless that is above the last bucket bound |
| Metrics.Metrics.GetMaxLatencyUs | src/server/Metrics.cpp:222-224 | the largest sample, which is one of the samples, or 0 without any |
| Metrics.NearestRank | src/server/Metrics.cpp:156-167 | the bucket at which the running sum reaches a rank is the bucket of the sample of that rank in sorted order |
| Metrics.InOrderIs | src/server/Metrics.cpp:144-168 | the reference sorts: an ordered rearrangement of the samples |
| Metrics.BucketsAddUp | src/server/Metrics.cpp:72-85 | the buckets add up to the number of samples |
| Metrics.PercentilesRise | src/server/Metrics.cpp:144-220 | a higher percentile is never smaller |
| Metrics.OverflowExactly | src/server/Metrics.cpp:178-179 | the computed rank finds the right bucket in every histogram of n samples exactly when n times the percentage plus 99 fits 64 bits |

## Left out

- Event masks of the load balancer and their re-arming, and every statement that an event will come.
- The flag `closing` (`src/lb/LoadBalancer.cpp:1538-1542`): it is set and the connection erased in one call, so no later call sees it.
- The order in which `std::unordered_map` is walked: closing and expiring take the entries in any order.
- Branches that the books rule out: a client without state in the reactor, a backend descriptor whose client is unknown.
- The text of the metrics page and of responses, the handlers, routers and Redis: a handler answers at once or by a job, a page is a parameter.
- Real time: deadlines are integers and the clock is a parameter.
- Generations, tickets, counters of the load balancer and `consecutive_failures` do not wrap; the counters of `Metrics` do.
- Descriptors of files in the output queue are not tracked, only their bytes.
- Characters: texts are Dafny strings; characters above 255 are treated as bytes above 127, and the hash takes them modulo 256.
- Memory ordering of the atomics in `Metrics`: its methods are sequential.
- LoadBalancer.LoadBalancer.FailoverConnection: is stated for a connection whose backend is still connecting, the only way it is called (lines 251-259, 273-281 and 579-583), and says nothing about how often failovers may repeat, because tried backends are not remembered between calls.
- LoadBalancer.LoadBalancer.ConnectClientToBackend: is stated for a client without a backend, the only way it is called (lines 317-388).
- HttpParser.HttpParser.Parse: says nothing for a cursor beyond the buffer between the data of a chunk and its line end, where the program would index outside the buffer; `Connection` rules every such cursor out.
- Reactor.Reactor.ParseAll: what parsing finds is a parameter of this class, which is about all connections at once; `Conversation` proves what one connection finds in its bytes.
- Conversation.Conversation.HandleWrite: which events epoll is then asked for is part of `Reactor` and not of this class; here it fails or not.
- Connection.Connection.Write: that everything queued reaches the wire is stated for files that do not end early; a `sendfile` that returns 0 is counted as truncation.
- The load balancer sees health checks only as descriptors that open and close and as verdicts; `HealthChecker` is a model of its own.
- Counts of errors, requests and bytes in `Metrics`, which only add up.
