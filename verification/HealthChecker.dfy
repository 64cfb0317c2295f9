/** Active health checks (src/lb/HealthChecker.cpp): a counter that summarises a whole history of outcomes. */
module HealthChecker {
  import opened Collections
  import opened Relay
  import opened Sockets
  import opened Text

  const MAX_RESPONSE_SIZE: nat := 4096
  const TIMEOUT_MS := 500

  datatype State = Connecting | Writing | Reading

  datatype Check = Check(backendIndex: nat, state: State, request: string, writeOffset: nat, response: string, deadline: int)

  datatype Health = Health(healthy: bool, consecutiveFailures: nat)

  // ----- the counter and the history -----

  /** One more outcome: a success clears the counter, a second failure in a row takes the backend out. */
  function Judged(h: Health, success: bool): Health {
    if success then Health(true, 0)
    else if h.consecutiveFailures + 1 >= 2 then Health(false, h.consecutiveFailures + 1)
    else h.(consecutiveFailures := h.consecutiveFailures + 1)
  }

  /** The length of the trailing run of failures. */
  function Trailing(history: seq<bool>): nat {
    if history == [] || history[|history| - 1] then 0 else 1 + Trailing(history[..|history| - 1])
  }

  predicate HealthOk(h: Health, history: seq<bool>) {
    h.consecutiveFailures == Trailing(history) && (h.healthy <==> Trailing(history) < 2)
  }

  lemma JudgedOk(h: Health, history: seq<bool>, success: bool)
    requires HealthOk(h, history)
    ensures HealthOk(Judged(h, success), history + [success])
  {
    assert (history + [success])[..|history|] == history;
  }

  /** A backend is in use exactly unless its last two outcomes were failures. */
  lemma HealthyExactly(h: Health, history: seq<bool>)
    requires HealthOk(h, history)
    ensures h.healthy <==> !(|history| >= 2 && !history[|history| - 1] && !history[|history| - 2])
  {
    if |history| >= 1 && !history[|history| - 1] {
      var front := history[..|history| - 1];
      assert Trailing(history) == 1 + Trailing(front);
    }
  }

  // ----- reading the response -----

  const OK := "HTTP/1.1 200 OK"

  predicate OkAt(response: string, i: int) { 0 <= i <= |response| - |OK| && response[i..i + |OK|] == OK }

  predicate SaysOk(response: string) { exists i :: 0 <= i <= |response| && OkAt(response, i) }

  datatype Verdict = Healthy | Unhealthy | Failing | Undecided

  /** What one answer of `recv` can bring at most. */
  function Clipped(response: string, bytes: string): string {
    var room := if MAX_RESPONSE_SIZE - |response| < 1024 then MAX_RESPONSE_SIZE - |response| else 1024;
    if |bytes| <= room || room < 0 then bytes else bytes[..room]
  }

  /** The response after reading the answers, and what the loop concludes. */
  function Listen(response: string, answers: seq<Receipt>): (r: (string, Verdict))
    ensures response <= r.0
    decreases |answers|
  {
    if |response| >= MAX_RESPONSE_SIZE then (response, Failing)
    else if answers == [] || answers[0].ReadWouldBlock? then (response, Undecided)
    else if answers[0].Eof? then (response, Unhealthy)
    else if answers[0].ReadFailed? then (response, Failing)
    else if answers[0].ReadInterrupted? then Listen(response, answers[1..])
    else
      var response' := response + Clipped(response, answers[0].bytes);
      if SaysOk(response') then (response', Healthy)
      else Listen(response', answers[1..])
  }

  /** The check succeeds exactly when what has been read says so. */
  lemma {:induction false} HealthyMeansOk(response: string, answers: seq<Receipt>)
    requires !SaysOk(response)
    ensures Listen(response, answers).1 == Healthy <==> SaysOk(Listen(response, answers).0)
    decreases |answers|
  {
    hide SaysOk;
    if |response| < MAX_RESPONSE_SIZE && answers != [] {
      if answers[0].ReadInterrupted? {
        HealthyMeansOk(response, answers[1..]);
      } else if answers[0].Data? {
        var response' := response + Clipped(response, answers[0].bytes);
        if !SaysOk(response') { HealthyMeansOk(response', answers[1..]); }
      }
    }
  }

  lemma StillOk(response: string, more: string)
    requires SaysOk(response)
    ensures SaysOk(response + more)
  {
    var i :| 0 <= i <= |response| && OkAt(response, i);
    assert (response + more)[i..i + |OK|] == response[i..i + |OK|];
    assert OkAt(response + more, i);
  }

  /** How the response was cut into pieces does not matter: when it is short, all of it is read and decides. */
  lemma {:induction false} PiecesDoNotMatter(response: string, answers: seq<Receipt>)
    requires !SaysOk(response) && answers != [] && answers[|answers| - 1].Eof?
    requires forall k :: 0 <= k < |answers| - 1 ==> answers[k].Data? && |answers[k].bytes| <= 1024
    requires |response| + |DataIn(answers)| < MAX_RESPONSE_SIZE
    ensures Listen(response, answers).1 == if SaysOk(response + DataIn(answers)) then Healthy else Unhealthy
    decreases |answers|
  {
    hide SaysOk;
    if |answers| == 1 {
      assert answers[1..] == [] && DataIn(answers) == "" && response + "" == response;
    } else {
      var bytes, rest := answers[0].bytes, DataIn(answers[1..]);
      assert DataIn(answers) == bytes + rest && response + (bytes + rest) == (response + bytes) + rest;
      if SaysOk(response + bytes) {
        StillOk(response + bytes, rest);
      } else {
        PiecesDoNotMatter(response + bytes, answers[1..]);
      }
    }
  }

  /** The read loop. */
  method ReadResponse(response: string, answers: seq<Receipt>) returns (response': string, verdict: Verdict)
    ensures (response', verdict) == Listen(response, answers)
  {
    hide SaysOk;
    response' := response;
    var k := 0;
    assert answers[0..] == answers;
    while |response'| < MAX_RESPONSE_SIZE
      invariant 0 <= k <= |answers| && Listen(response, answers) == Listen(response', answers[k..])
      decreases |answers| - k
    {
      if k == |answers| || answers[k].ReadWouldBlock? {
        return response', Undecided;
      }
      assert answers[k..][1..] == answers[k + 1..];
      var answer := answers[k];
      k := k + 1;
      if answer.Data? {
        response' := response' + Clipped(response', answer.bytes);
        if SaysOk(response') {
          return response', Healthy;
        }
      } else if answer.Eof? {
        return response', Unhealthy;
      } else if answer.ReadFailed? {
        return response', Failing;
      }
    }
    verdict := Failing;
  }

  // ----- one event on one check -----

  datatype Event = Event(readable: bool, writable: bool, failed: bool, hungUp: bool)

  datatype Answers = Answers(socketOk: bool, sends: seq<Sending>, receipts: seq<Receipt>)

  /** A check after one of its phases, and its outcome if that settles it. */
  datatype Phase = Phase(check: Check, outcome: Option<bool>)

  function Connected(check: Check, e: Event, s: Answers, now: int): Phase {
    if !check.state.Connecting? || !e.writable then Phase(check, None)
    else if !s.socketOk then Phase(check, Some(false))
    else Phase(check.(state := Writing, deadline := now + TIMEOUT_MS), None)
  }

  /** The request is sent on; once all of it is out the check waits for the response. */
  function SentOn(check: Check, sends: seq<Sending>, now: int): Phase
    requires check.writeOffset <= |check.request|
  {
    var r := Push(|check.request| - check.writeOffset, sends);
    if r.failed then Phase(check, Some(false))
    else if check.writeOffset + r.count == |check.request|
    then Phase(check.(writeOffset := check.writeOffset + r.count, state := Reading, deadline := now + TIMEOUT_MS), None)
    else Phase(check.(writeOffset := check.writeOffset + r.count), None)
  }

  function Written(check: Check, e: Event, s: Answers, now: int): Phase
    requires check.writeOffset <= |check.request|
  {
    if !check.state.Writing? || !e.writable then Phase(check, None) else SentOn(check, s.sends, now)
  }

  /** The response is read on. */
  function HeardOn(check: Check, receipts: seq<Receipt>): Phase {
    var (response, verdict) := Listen(check.response, receipts);
    Phase(check.(response := response), if verdict.Undecided? then None else Some(verdict.Healthy?))
  }

  function Heard(check: Check, e: Event, s: Answers): Phase {
    if !check.state.Reading? || !e.readable then Phase(check, None) else HeardOn(check, s.receipts)
  }

  /** What one event makes of a check: a hang-up or an error counts only when nothing else has settled it. */
  function Served(check: Check, e: Event, s: Answers, now: int): Phase
    requires check.writeOffset <= |check.request|
  {
    var p1 := Connected(check, e, s, now);
    if p1.outcome.Some? then p1
    else
      var p2 := Written(p1.check, e, s, now);
      if p2.outcome.Some? then p2
      else
        var p3 := Heard(p2.check, e, s);
        if p3.outcome.Some? then p3
        else if e.failed || e.hungUp then Phase(p3.check, Some(false))
        else p3
  }

  /** The check gets to reading its response in this event, whatever it was doing before. */
  predicate Reads(check: Check, e: Event, s: Answers, now: int)
    requires check.writeOffset <= |check.request|
  {
    var p1 := Connected(check, e, s, now);
    p1.outcome.None? && var p2 := Written(p1.check, e, s, now); p2.outcome.None? && p2.check.state.Reading? && e.readable
  }

  /** The response as far as it has been read after this event. */
  function ResponseAfter(check: Check, s: Answers): string { Listen(check.response, s.receipts).0 }

  lemma ReadsDecide(check: Check, e: Event, s: Answers, now: int)
    requires CheckOk(check) && Reads(check, e, s, now)
    ensures Served(check, e, s, now).outcome == Some(true) <==> SaysOk(ResponseAfter(check, s))
  {
    HealthyMeansOk(check.response, s.receipts);
    hide SaysOk, Listen, Push;
  }

  /** A check in flight has not read the status line yet, and does not write past its request. */
  predicate CheckOk(check: Check) { check.writeOffset <= |check.request| && !SaysOk(check.response) }

  // ----- the books -----

  predicate InFlight(checks: map<int, Check>, backend: nat) {
    exists fd :: fd in checks && checks[fd].backendIndex == backend
  }

  /** Open descriptors are checks; no backend has two; every check is about a backend. */
  predicate ChecksOk(checks: map<int, Check>, open: set<int>, pool: nat) {
    && checks.Keys == open
    && (forall fd :: fd in checks ==> checks[fd].backendIndex < pool && CheckOk(checks[fd]))
    && (forall fd, other :: fd in checks && other in checks && fd != other ==> checks[fd].backendIndex != checks[other].backendIndex)
  }

  predicate HistoriesOk(backends: seq<Health>, history: seq<seq<bool>>) {
    |history| == |backends| && forall b :: 0 <= b < |backends| ==> HealthOk(backends[b], history[b])
  }

  /** Each attempt has had exactly one outcome, or is still in flight, or was cancelled. */
  predicate AttemptsOk(checks: map<int, Check>, history: seq<seq<bool>>, attempts: seq<nat>, cancelled: seq<nat>) {
    && |attempts| == |cancelled| == |history|
    && forall b :: 0 <= b < |history| ==> attempts[b] == |history[b]| + cancelled[b] + if InFlight(checks, b) then 1 else 0
  }

  datatype Ward = Ward(
    checks: map<int, Check>, open: set<int>, backends: seq<Health>, history: seq<seq<bool>>, attempts: seq<nat>, cancelled: seq<nat>)

  predicate WardOk(w: Ward) {
    && ChecksOk(w.checks, w.open, |w.backends|) && HistoriesOk(w.backends, w.history)
    && AttemptsOk(w.checks, w.history, w.attempts, w.cancelled)
  }

  /** The check on `fd` is over. */
  function Resolved(w: Ward, fd: int, success: bool): Ward
    requires fd in w.checks && w.checks[fd].backendIndex < |w.backends| && w.checks[fd].backendIndex < |w.history|
  {
    var b := w.checks[fd].backendIndex;
    w.(checks := w.checks - {fd}, open := w.open - {fd}, backends := w.backends[b := Judged(w.backends[b], success)],
       history := w.history[b := w.history[b] + [success]])
  }

  lemma InFlightWithout(checks: map<int, Check>, open: set<int>, pool: nat, fd: int, b: nat)
    requires ChecksOk(checks, open, pool) && fd in checks
    ensures InFlight(checks - {fd}, b) <==> InFlight(checks, b) && b != checks[fd].backendIndex
    ensures InFlight(checks, checks[fd].backendIndex)
  {
    if InFlight(checks, b) && b != checks[fd].backendIndex {
      var other :| other in checks && checks[other].backendIndex == b;
      assert other in checks - {fd};
    }
  }

  lemma ResolvedOk(w: Ward, fd: int, success: bool)
    requires WardOk(w) && fd in w.checks
    ensures w.checks[fd].backendIndex < |w.backends| == |w.history| && WardOk(Resolved(w, fd, success))
  {
    hide HealthOk, Judged, InFlight;
    var b := w.checks[fd].backendIndex;
    JudgedOk(w.backends[b], w.history[b], success);
    forall c: nat ensures InFlight(w.checks - {fd}, c) <==> InFlight(w.checks, c) && c != b {
      InFlightWithout(w.checks, w.open, |w.backends|, fd, c);
    }
    InFlightWithout(w.checks, w.open, |w.backends|, fd, b);
    assert (w.checks - {fd}).Keys == w.checks.Keys - {fd};
  }

  /** A check moves on. */
  function Moved(w: Ward, fd: int, check: Check): Ward { w.(checks := w.checks[fd := check]) }

  lemma MovedOk(w: Ward, fd: int, check: Check)
    requires WardOk(w) && fd in w.checks && check.backendIndex == w.checks[fd].backendIndex && CheckOk(check)
    ensures WardOk(Moved(w, fd, check))
  {
    hide HealthOk, HistoriesOk, InFlight, CheckOk;
    assert w.checks[fd := check].Keys == w.checks.Keys;
    forall b: nat ensures InFlight(w.checks[fd := check], b) <==> InFlight(w.checks, b) {
      InFlightMoved(w.checks, fd, check, b);
    }
  }

  lemma InFlightMoved(checks: map<int, Check>, fd: int, check: Check, b: nat)
    requires fd in checks && check.backendIndex == checks[fd].backendIndex
    ensures InFlight(checks[fd := check], b) <==> InFlight(checks, b)
  {
    var checks' := checks[fd := check];
    if InFlight(checks, b) {
      var other :| other in checks && checks[other].backendIndex == b;
      assert other in checks' && checks'[other].backendIndex == b;
    }
    if InFlight(checks', b) {
      var other :| other in checks' && checks'[other].backendIndex == b;
      assert other in checks && checks[other].backendIndex == b;
    }
  }

  predicate Fits(w: Ward, fd: int) {
    && fd in w.checks && CheckOk(w.checks[fd])
    && w.checks[fd].backendIndex < |w.backends| == |w.history|
  }

  lemma FitsKnown(w: Ward, fd: int)
    requires WardOk(w) && fd in w.checks
    ensures Fits(w, fd)
  {
    hide HealthOk, InFlight;
  }

  /** What a phase of the check on `fd` does to the books. */
  function Applied(w: Ward, fd: int, p: Phase): Ward
    requires Fits(w, fd)
  {
    if p.outcome.Some? then Resolved(w, fd, p.outcome.value) else Moved(w, fd, p.check)
  }

  /** The phases keep what a check is about, and its request fits. */
  lemma Steady(check: Check, e: Event, s: Answers, now: int)
    requires CheckOk(check)
    ensures var c1 := Connected(check, e, s, now).check;
            && c1.backendIndex == check.backendIndex && CheckOk(c1)
            && var c2 := Written(c1, e, s, now).check;
               && c2.backendIndex == check.backendIndex && CheckOk(c2)
               && var p3 := Heard(c2, e, s);
                  p3.check.backendIndex == check.backendIndex && (p3.outcome.None? ==> CheckOk(p3.check))
  {
    HealthyMeansOk(check.response, s.receipts);
    hide Listen, Push, SaysOk;
  }

  lemma NotMoved(w: Ward, fd: int)
    requires fd in w.checks
    ensures Moved(w, fd, w.checks[fd]) == w
  {
    assert w.checks[fd := w.checks[fd]] == w.checks;
  }

  /** A check that has only moved on is followed by the next phase as if that were the first. */
  lemma AppliedOn(w: Ward, fd: int, check: Check, p: Phase)
    requires Fits(w, fd) && check.backendIndex == w.checks[fd].backendIndex && CheckOk(check)
    ensures Fits(Moved(w, fd, check), fd) && Moved(w, fd, check).checks[fd] == check
    ensures Applied(Moved(w, fd, check), fd, p) == Applied(w, fd, p)
  {
    assert w.checks[fd := check] - {fd} == w.checks - {fd};
    assert w.checks[fd := check][fd := p.check] == w.checks[fd := p.check];
  }

  lemma InOrOut(w: Ward, fd: int, p: Phase)
    requires Fits(w, fd)
    ensures fd in Applied(w, fd, p).checks <==> p.outcome.None?
  {
  }

  /** Reading a response that says so, in whatever state the check was before, adds exactly a success to the history of
      its backend, also when the peer hangs up in the same event; any other response adds none. */
  lemma OkBeatsHangUp(w: Ward, fd: int, e: Event, s: Answers, now: int)
    requires Fits(w, fd) && Reads(w.checks[fd], e, s, now)
    ensures var b, w' := w.checks[fd].backendIndex, Applied(w, fd, Served(w.checks[fd], e, s, now));
            |w'.history| == |w.history| && (w'.history[b] == w.history[b] + [true] <==> SaysOk(ResponseAfter(w.checks[fd], s)))
  {
    ReadsDecide(w.checks[fd], e, s, now);
    hide SaysOk, ResponseAfter, Served, Reads, Judged;
    var b := w.checks[fd].backendIndex;
    assert (w.history[b] + [true])[|w.history[b]|] && !(w.history[b] + [false])[|w.history[b]|];
    assert |w.history[b]| != |w.history[b] + [true]|;
  }

  // ----- an attempt that fails before it is in flight, and one that gets there -----

  function FailedAtOnce(w: Ward, b: nat): Ward
    requires b < |w.backends| && b < |w.history| && b < |w.attempts|
  {
    w.(backends := w.backends[b := Judged(w.backends[b], false)], history := w.history[b := w.history[b] + [false]],
       attempts := w.attempts[b := w.attempts[b] + 1])
  }

  lemma FailedAtOnceOk(w: Ward, b: nat)
    requires WardOk(w) && b < |w.backends|
    ensures |w.history| == |w.attempts| == |w.backends| && WardOk(FailedAtOnce(w, b))
  {
    hide HealthOk, Judged, InFlight, ChecksOk;
    JudgedOk(w.backends[b], w.history[b], false);
  }

  function Launched(w: Ward, b: nat, fd: int, check: Check): Ward
    requires b < |w.attempts|
  {
    w.(checks := w.checks[fd := check], open := w.open + {fd}, attempts := w.attempts[b := w.attempts[b] + 1])
  }

  lemma LaunchedOk(w: Ward, b: nat, fd: int, check: Check)
    requires WardOk(w) && b < |w.backends| && check.backendIndex == b && CheckOk(check) && fd !in w.open && !InFlight(w.checks, b)
    ensures |w.attempts| == |w.backends| && WardOk(Launched(w, b, fd, check))
    ensures forall c: nat :: InFlight(w.checks[fd := check], c) <==> InFlight(w.checks, c) || c == b
  {
    hide HealthOk, CheckOk;
    var checks' := w.checks[fd := check];
    assert fd !in w.checks.Keys && checks'.Keys == w.checks.Keys + {fd};
    assert checks'[fd].backendIndex == b;
    forall c: nat ensures InFlight(checks', c) <==> InFlight(w.checks, c) || c == b {
      if InFlight(w.checks, c) {
        var other :| other in w.checks && w.checks[other].backendIndex == c;
        assert other in checks' && checks'[other].backendIndex == c;
      }
    }
    hide InFlight;
  }

  lemma NobodyInFlight(w: Ward)
    requires w.checks == map[]
    ensures forall b: nat :: !InFlight(w.checks, b)
  {
  }

  function Overdue(checks: map<int, Check>, now: int): set<int> { set fd | fd in checks && checks[fd].deadline <= now }

  /** One of the checks in `done` is about backend `b`. */
  predicate About(checks: map<int, Check>, done: set<int>, b: nat) {
    exists fd :: fd in done && fd in checks && checks[fd].backendIndex == b
  }

  /** Exactly the backends of the checks in `done` have one failure more. */
  predicate FailedExactly(checks: map<int, Check>, before: seq<seq<bool>>, history: seq<seq<bool>>, done: set<int>) {
    |history| == |before| && forall b :: 0 <= b < |history| ==> history[b] == before[b] + if About(checks, done, b) then [false] else []
  }

  lemma NoFailure(checks: map<int, Check>, history: seq<seq<bool>>)
    ensures FailedExactly(checks, history, history, {})
  {
    assert forall b :: 0 <= b < |history| ==> history[b] + [] == history[b];
  }

  lemma OneMoreFailure(checks: map<int, Check>, before: seq<seq<bool>>, history: seq<seq<bool>>, done: set<int>, fd: int)
    requires FailedExactly(checks, before, history, done) && fd in checks && fd !in done && checks[fd].backendIndex < |history|
    requires forall f, other :: f in checks && other in checks && f != other ==> checks[f].backendIndex != checks[other].backendIndex
    ensures var b := checks[fd].backendIndex;
            FailedExactly(checks, before, history[b := history[b] + [false]], done + {fd})
  {
    var b0, history' := checks[fd].backendIndex, history[checks[fd].backendIndex := history[checks[fd].backendIndex] + [false]];
    assert !About(checks, done, b0) && before[b0] + [] == before[b0];
    forall b: nat | b < |history| ensures About(checks, done + {fd}, b) <==> About(checks, done, b) || b == b0 {
      if About(checks, done, b) {
        var f :| f in done && f in checks && checks[f].backendIndex == b;
        assert f in done + {fd};
      }
      assert fd in done + {fd};
    }
    hide About;
  }

  lemma Lengths(w: Ward)
    requires WardOk(w)
    ensures |w.backends| == |w.history| == |w.attempts| == |w.cancelled|
  {
  }

  lemma OnePerBackend(w: Ward)
    requires WardOk(w)
    ensures forall fd, other :: fd in w.checks && other in w.checks && fd != other ==> w.checks[fd].backendIndex != w.checks[other].backendIndex
  {
    hide HealthOk, InFlight;
  }

  function Dropped(w: Ward, fd: int): Ward
    requires fd in w.checks && w.checks[fd].backendIndex < |w.cancelled|
  {
    var b := w.checks[fd].backendIndex;
    w.(checks := w.checks - {fd}, open := w.open - {fd}, cancelled := w.cancelled[b := w.cancelled[b] + 1])
  }

  lemma CancelledOk(w: Ward, fd: int)
    requires WardOk(w) && fd in w.checks
    ensures w.checks[fd].backendIndex < |w.cancelled| && WardOk(Dropped(w, fd)) && (w.checks - {fd}).Keys == w.checks.Keys - {fd}
  {
    hide HealthOk, InFlight;
    var b := w.checks[fd].backendIndex;
    forall c: nat ensures InFlight(w.checks - {fd}, c) <==> InFlight(w.checks, c) && c != b {
      InFlightWithout(w.checks, w.open, |w.backends|, fd, c);
    }
    InFlightWithout(w.checks, w.open, |w.backends|, fd, b);
    assert (w.checks - {fd}).Keys == w.checks.Keys - {fd};
  }

  lemma NothingOpen(w: Ward)
    requires WardOk(w) && w.checks == map[]
    ensures w.open == {}
  {
    hide HealthOk, InFlight;
  }

  /** With nothing in flight every attempt has had its outcome or was cancelled. */
  lemma AllResolved(w: Ward)
    requires WardOk(w) && w.checks == map[]
    ensures |w.backends| == |w.history| == |w.attempts| == |w.cancelled|
    ensures forall b :: 0 <= b < |w.backends| ==> HealthOk(w.backends[b], w.history[b]) && w.attempts[b] == |w.history[b]| + w.cancelled[b]
  {
    NobodyInFlight(w);
    hide HealthOk, InFlight;
  }

  // ----- the checker -----

  /** How starting one check goes. */
  datatype Opening = NoAddress | NoSocket | ConnectFails | NotWatched | Opened(fd: int, connected: bool)

  /** New checks get descriptors of their own. */
  predicate Openings(open: set<int>, openings: seq<Opening>) {
    && (forall k :: 0 <= k < |openings| && openings[k].Opened? ==> openings[k].fd !in open)
    && (forall j, k :: 0 <= j < k < |openings| && openings[j].Opened? && openings[k].Opened? ==> openings[j].fd != openings[k].fd)
  }

  function Request(host: string): string { "GET /health HTTP/1.1\r\nHost: " + host + "\r\nConnection: close\r\n\r\n" }

  function NewCheck(b: nat, host: string, connected: bool, now: int): Check {
    Check(b, if connected then Writing else Connecting, Request(host), 0, "", now + TIMEOUT_MS)
  }

  /** The books after one attempt for each backend from `b` on. */
  function StartedFrom(w: Ward, hosts: seq<string>, openings: seq<Opening>, b: nat, now: int): Ward
    decreases |hosts| - b
  {
    if b >= |hosts| || b >= |openings| || b >= |w.backends| || b >= |w.history| || b >= |w.attempts| then w
    else if openings[b].Opened?
    then StartedFrom(Launched(w, b, openings[b].fd, NewCheck(b, hosts[b], openings[b].connected, now)), hosts, openings, b + 1, now)
    else StartedFrom(FailedAtOnce(w, b), hosts, openings, b + 1, now)
  }

  datatype Round =
    | Starts(openings: seq<Opening>, now: int)
    | Happens(fd: int, event: Event, answers: Answers, now: int)
    | Expires(now: int)

  class HealthChecker {
    const hosts: seq<string>
    var checks: map<int, Check>
    var open: set<int>
    var backends: seq<Health>
    ghost var history: seq<seq<bool>>
    ghost var attempts: seq<nat>
    ghost var cancelled: seq<nat>

    ghost function Books(): Ward
      reads this
    {
      Ward(checks, open, backends, history, attempts, cancelled)
    }

    ghost predicate Valid()
      reads this
    {
      WardOk(Books()) && |hosts| == |backends|
    }

    constructor (hosts: seq<string>)
      ensures Valid() && this.hosts == hosts && checks == map[]
      ensures forall b :: 0 <= b < |history| ==> history[b] == [] && attempts[b] == 0 && cancelled[b] == 0
    {
      this.hosts := hosts;
      checks, open := map[], {};
      backends := seq(|hosts|, i => Health(true, 0));
      history, attempts, cancelled := seq(|hosts|, i => []), seq(|hosts|, i => 0), seq(|hosts|, i => 0);
      new;
      NobodyInFlight(Books());
      hide InFlight;
    }

    /** The check on `fd`, if there is one, is over. */
    method FinishCheck(fd: int, success: bool)
      requires Valid()
      modifies `checks, `open, `backends, `history
      ensures Valid()
      ensures fd !in old(checks) ==> Books() == old(Books())
      ensures fd in old(checks) ==>
                && old(checks)[fd].backendIndex < |old(backends)| == |old(history)|
                && Books() == Resolved(old(Books()), fd, success) && checks == old(checks) - {fd}
                && history == var b := old(checks)[fd].backendIndex; old(history)[b := old(history)[b] + [success]]
    {
      if fd !in checks {
        return;
      }
      ResolvedOk(Books(), fd, success);
      hide WardOk, Judged;
      ghost var b0 := checks[fd].backendIndex;
      var b := checks[fd].backendIndex;
      history := history[b0 := history[b0] + [success]];
      backends := backends[b := Judged(backends[b], success)];
      open := open - {fd};
      checks := checks - {fd};
      assert Books() == Resolved(old(Books()), fd, success);
    }

    /** A check moves on within its life. */
    method Advance(fd: int, check: Check)
      requires Valid() && fd in checks && check.backendIndex == checks[fd].backendIndex && CheckOk(check)
      modifies `checks
      ensures Valid() && Books() == Moved(old(Books()), fd, check)
    {
      MovedOk(Books(), fd, check);
      hide WardOk;
      checks := checks[fd := check];
    }

    method HandleConnect(fd: int, socketOk: bool, now: int)
      requires Valid() && fd in checks && Fits(Books(), fd)
      modifies `checks, `open, `backends, `history
      ensures Valid()
      ensures var c := old(checks)[fd];
              var p := if socketOk then Phase(c.(state := Writing, deadline := now + TIMEOUT_MS), None) else Phase(c, Some(false));
              Books() == Applied(old(Books()), fd, p)
    {
      hide WardOk, Resolved, Moved;
      if socketOk {
        Advance(fd, checks[fd].(state := Writing, deadline := now + TIMEOUT_MS));
      } else {
        FinishCheck(fd, false);
      }
    }

    method HandleWrite(fd: int, sends: seq<Sending>, now: int)
      requires Valid() && fd in checks && Fits(Books(), fd)
      modifies `checks, `open, `backends, `history
      ensures Valid() && Books() == Applied(old(Books()), fd, SentOn(old(checks)[fd], sends, now))
    {
      hide WardOk, Push, Resolved, Moved, SaysOk;
      var c := checks[fd];
      var count, failed := Transmit(|c.request| - c.writeOffset, sends);
      if failed {
        FinishCheck(fd, false);
      } else if c.writeOffset + count < |c.request| {
        Advance(fd, c.(writeOffset := c.writeOffset + count));
      } else {
        Advance(fd, c.(writeOffset := c.writeOffset + count, state := Reading, deadline := now + TIMEOUT_MS));
      }
    }

    method HandleRead(fd: int, receipts: seq<Receipt>)
      requires Valid() && fd in checks && Fits(Books(), fd)
      modifies `checks, `open, `backends, `history
      ensures Valid() && Books() == Applied(old(Books()), fd, HeardOn(old(checks)[fd], receipts))
    {
      HealthyMeansOk(checks[fd].response, receipts);
      hide WardOk, Listen, Resolved, Moved, SaysOk;
      var response, verdict := ReadResponse(checks[fd].response, receipts);
      if verdict.Undecided? {
        Advance(fd, checks[fd].(response := response));
      } else {
        FinishCheck(fd, verdict.Healthy?);
      }
    }

    /** One event: what it makes of the check, and exactly one outcome if that settles it. */
    method HandleEvent(fd: int, e: Event, s: Answers, now: int)
      requires Valid()
      modifies `checks, `open, `backends, `history
      ensures Valid()
      ensures fd !in old(checks) ==> Books() == old(Books())
      ensures fd in old(checks) ==> Fits(old(Books()), fd) && Books() == Applied(old(Books()), fd, Served(old(checks)[fd], e, s, now))
      ensures fd in old(checks) && Reads(old(checks)[fd], e, s, now) ==>
                var b := old(checks)[fd].backendIndex;
                b < |history| == |old(history)| && (history[b] == old(history)[b] + [true] <==> SaysOk(ResponseAfter(old(checks)[fd], s)))
    {
      hide WardOk, Resolved, Moved, SentOn, HeardOn, SaysOk, ResponseAfter, Served, Reads;
      if fd in checks {
        FitsKnown(Books(), fd);
        if Reads(checks[fd], e, s, now) { OkBeatsHangUp(Books(), fd, e, s, now); }
      }
      Serve(fd, e, s, now);
    }

    /** The phases of one event, in order. */
    method Serve(fd: int, e: Event, s: Answers, now: int)
      requires Valid()
      modifies `checks, `open, `backends, `history
      ensures Valid()
      ensures fd !in old(checks) ==> Books() == old(Books())
      ensures fd in old(checks) ==> Fits(old(Books()), fd) && Books() == Applied(old(Books()), fd, Served(old(checks)[fd], e, s, now))
    {
      hide WardOk, Resolved, Moved, SentOn, HeardOn, SaysOk;
      if fd !in checks {
        return;
      }
      FitsKnown(Books(), fd);
      ghost var w, c := Books(), checks[fd];
      ghost var p1 := Connected(c, e, s, now);
      ghost var p2 := Written(p1.check, e, s, now);
      ghost var p3 := Heard(p2.check, e, s);
      Steady(c, e, s, now);
      NotMoved(w, fd);
      if checks[fd].state.Connecting? && e.writable {
        HandleConnect(fd, s.socketOk, now);
      }
      assert Books() == Applied(w, fd, p1);
      InOrOut(w, fd, p1);
      if fd !in checks {
        return;
      }
      AppliedOn(w, fd, p1.check, p2);
      if checks[fd].state.Writing? && e.writable {
        HandleWrite(fd, s.sends, now);
      }
      assert Books() == Applied(w, fd, p2);
      InOrOut(w, fd, p2);
      if fd !in checks {
        return;
      }
      AppliedOn(w, fd, p2.check, p3);
      if checks[fd].state.Reading? && e.readable {
        HandleRead(fd, s.receipts);
      }
      assert Books() == Applied(w, fd, p3);
      InOrOut(w, fd, p3);
      if fd !in checks {
        return;
      }
      AppliedOn(w, fd, p3.check, Phase(p3.check, Some(false)));
      if e.failed || e.hungUp {
        FinishCheck(fd, false);
      }
    }

    /** Begins a round of checks, one for each backend, unless the last round is still going on. */
    method Start(openings: seq<Opening>, now: int)
      requires Valid() && |openings| >= |backends| && Openings(open, openings)
      modifies `checks, `open, `backends, `history, `attempts
      ensures Valid()
      ensures old(checks) != map[] ==> Books() == old(Books())
      ensures old(checks) == map[] ==> Books() == StartedFrom(old(Books()), hosts, openings, 0, now)
      ensures old(checks) == map[] ==> |attempts| == |old(attempts)| && forall b :: 0 <= b < |attempts| ==> attempts[b] == old(attempts)[b] + 1
    {
      hide WardOk, InFlight, FailedAtOnce, Launched;
      if checks != map[] {
        return;
      }
      NobodyInFlight(Books());
      Lengths(Books());
      var b := 0;
      while b < |backends|
        invariant 0 <= b <= |backends| && Valid() && |attempts| == |old(attempts)| == |backends| && |hosts| == |backends|
        invariant StartedFrom(Books(), hosts, openings, b, now) == StartedFrom(old(Books()), hosts, openings, 0, now)
        invariant forall c: nat :: c >= b ==> !InFlight(checks, c)
        invariant forall k :: b <= k < |openings| && openings[k].Opened? ==> openings[k].fd !in open
        invariant forall c :: 0 <= c < |backends| ==> attempts[c] == old(attempts)[c] + if c < b then 1 else 0
      {
        var opening := openings[b];
        Lengths(Books());
        if opening.Opened? {
          Launch(b, opening.fd, NewCheck(b, hosts[b], opening.connected, now));
        } else {
          FailAtOnce(b);
        }
        b := b + 1;
      }
    }

    method FailAtOnce(b: nat)
      requires Valid() && b < |backends|
      modifies `backends, `history, `attempts
      ensures Valid() && |old(history)| == |old(attempts)| == |old(backends)| && Books() == FailedAtOnce(old(Books()), b)
      ensures |backends| == |old(backends)| && attempts == old(attempts)[b := old(attempts)[b] + 1]
    {
      FailedAtOnceOk(Books(), b);
      hide WardOk, Judged;
      ghost var b0: nat := b;
      history := history[b0 := history[b0] + [false]];
      attempts := attempts[b0 := attempts[b0] + 1];
      backends := backends[b := Judged(backends[b], false)];
      assert Books() == FailedAtOnce(old(Books()), b);
    }

    method Launch(b: nat, fd: int, check: Check)
      requires Valid() && b < |backends| && check.backendIndex == b && CheckOk(check) && fd !in open && !InFlight(checks, b)
      modifies `checks, `open, `attempts
      ensures Valid() && |old(attempts)| == |backends| && Books() == Launched(old(Books()), b, fd, check)
      ensures attempts == old(attempts)[b := old(attempts)[b] + 1] && open == old(open) + {fd}
      ensures forall c: nat :: InFlight(checks, c) <==> InFlight(old(checks), c) || c == b
    {
      LaunchedOk(Books(), b, fd, check);
      hide WardOk, InFlight;
      ghost var b0: nat := b;
      attempts := attempts[b0 := attempts[b0] + 1];
      open := open + {fd};
      checks := checks[fd := check];
      assert Books() == Launched(old(Books()), b, fd, check);
    }

    /** Every check whose time is up fails, and no other; exactly their backends have one failure more. */
    method Expire(now: int)
      requires Valid()
      modifies `checks, `open, `backends, `history
      ensures Valid() && checks == old(checks) - Overdue(old(checks), now)
      ensures FailedExactly(old(checks), old(history), history, Overdue(old(checks), now))
    {
      Lengths(Books());
      OnePerBackend(Books());
      NoFailure(checks, history);
      hide WardOk, InFlight, Resolved, FailedExactly;
      var expired := Overdue(checks, now);
      assert expired <= checks.Keys;
      hide Overdue;
      var todo := expired;
      assert checks - {} == checks && expired - todo == {};
      while todo != {}
        invariant Valid() && todo <= expired && todo <= checks.Keys && checks == old(checks) - (expired - todo)
        invariant |history| == |old(history)|
        invariant FailedExactly(old(checks), old(history), history, expired - todo)
        decreases |todo|
      {
        SomeMember(todo);
        var fd :| fd in todo;
        assert expired - (todo - {fd}) == (expired - todo) + {fd};
        OneMoreFailure(old(checks), old(history), history, expired - todo, fd);
        FinishCheck(fd, false);
        MinusTwice(old(checks), expired - todo, fd);
        todo := todo - {fd};
      }
      assert expired - todo == expired;
    }

    /** Every check in flight is dropped without an outcome. */
    method CancelAll()
      requires Valid()
      modifies `checks, `open, `cancelled
      ensures Valid() && checks == map[] && open == {}
    {
      hide WardOk, InFlight;
      var todo := checks.Keys;
      while todo != {}
        invariant Valid() && todo == checks.Keys
        decreases |todo|
      {
        SomeMember(todo);
        var fd :| fd in todo;
        Cancel(fd);
        todo := todo - {fd};
      }
      assert checks == map[];
      NothingOpen(Books());
    }

    method Cancel(fd: int)
      requires Valid() && fd in checks
      modifies `checks, `open, `cancelled
      ensures Valid() && checks.Keys == old(checks).Keys - {fd}
    {
      CancelledOk(Books(), fd);
      hide WardOk;
      ghost var b := checks[fd].backendIndex;
      cancelled := cancelled[b := cancelled[b] + 1];
      open := open - {fd};
      checks := checks - {fd};
      assert Books() == Dropped(old(Books()), fd);
    }

    method HandleRound(round: Round)
      requires Valid()
      modifies this
      ensures Valid()
    {
      hide WardOk, Openings, Served, Applied;
      match round
      case Starts(openings, now) => if |openings| >= |backends| && Openings(open, openings) { Start(openings, now); }
      case Happens(fd, event, answers, now) => HandleEvent(fd, event, answers, now);
      case Expires(now) => Expire(now);
    }

    /** Whatever happens, each backend's counter and verdict are those of its history of outcomes, and each attempt has
        had exactly one outcome or has been cancelled at the end. */
    method Run(rounds: seq<Round>)
      requires Valid()
      modifies this
      ensures Valid() && checks == map[] && open == {}
      ensures |history| == |attempts| == |cancelled| == |backends|
      ensures forall b :: 0 <= b < |backends| ==> HealthOk(backends[b], history[b]) && attempts[b] == |history[b]| + cancelled[b]
    {
      hide WardOk;
      for k := 0 to |rounds|
        invariant Valid()
      {
        HandleRound(rounds[k]);
      }
      CancelAll();
      AllResolved(Books());
    }
  }
}
