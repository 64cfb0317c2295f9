/** The worker pool (src/worker/WorkerPool.cpp) as atomic steps of publishers, workers, reactors and the stopping thread. */
module WorkerPool {
  import opened Collections

  const MAX_QUEUED_JOBS: nat := 4096

  /** A job; tickets number the accepted jobs in the order of their acceptance. */
  datatype Job = Job(ticket: nat, reactor: nat)

  /** Where a worker is: asleep on the condition, about to look at the queue, at work, about to push
      a completion, about to write to the eventfd, or gone. */
  datatype Worker = Blocked | Ready | Running(job: Job) | Publishing(job: Job) | Signalling(reactor: nat) | Exited

  /** The completions of one reactor and the counter of its eventfd. */
  datatype Channel = Channel(completions: seq<nat>, counter: nat)

  /** The largest value of an eventfd; a write that would pass it fails. */
  const MAX_COUNTER: nat := 0xffff_ffff_ffff_fffe

  function Raised(counter: nat): nat { if counter < MAX_COUNTER then counter + 1 else counter }

  /** Where a reactor is: waiting for events, emptying the counter, or taking completions. */
  datatype Taker = Waiting | Consuming | Popping

  /** One atomic step of one of the threads; numbers choose the reactor or the worker. */
  datatype Step =
    | Submits(reactor: nat, hasWork: bool, woken: nat)
    | Wakes(worker: nat)
    | Works(worker: nat, publishes: bool)
    | Reports(reactor: nat)
    | Consumes(reactor: nat, fails: bool)
    | Pops(reactor: nat)
    | Flags
    | Notifies
    | Joins
    | Clears

  datatype Stopper = Serving | Flagged | Notified | Joined | Cleared

  predicate Holds(w: Worker) { w.Running? || w.Publishing? }

  // ----- the queue -----

  /** The queue is the accepted jobs that have not been taken, in order. */
  predicate JobsOk(jobs: seq<Job>, accepted: seq<nat>, taken: nat, reactors: nat) {
    && |jobs| <= MAX_QUEUED_JOBS && taken + |jobs| == |accepted|
    && (forall k :: 0 <= k < |jobs| ==> jobs[k] == Job(taken + k, accepted[taken + k]))
    && (forall t :: 0 <= t < |accepted| ==> accepted[t] < reactors)
  }

  /** Each job that was taken is in exactly one worker's hands until its outcome is known, once. */
  predicate HandsOk(workers: seq<Worker>, accepted: seq<nat>, taken: nat, outcome: map<nat, bool>) {
    && taken <= |accepted|
    && (forall i :: 0 <= i < |workers| && Holds(workers[i]) ==>
          var job := workers[i].job; job.ticket < taken && job.ticket !in outcome && job.reactor == accepted[job.ticket])
    && (forall i, j :: 0 <= i < j < |workers| && Holds(workers[i]) && Holds(workers[j]) ==> workers[i].job.ticket != workers[j].job.ticket)
    && (forall t :: t in outcome ==> t < taken)
    && (forall t: nat :: t < taken ==> t in outcome || InHand(workers, t))
  }

  predicate InHand(workers: seq<Worker>, t: nat) {
    exists i :: 0 <= i < |workers| && Holds(workers[i]) && workers[i].job.ticket == t
  }

  // ----- waking workers -----

  function ReadyCount(workers: seq<Worker>): nat {
    if workers == [] then 0 else (if workers[0].Ready? then 1 else 0) + ReadyCount(workers[1..])
  }

  lemma {:induction false} ReadyCountUpdate(workers: seq<Worker>, i: nat, w: Worker)
    requires i < |workers|
    ensures ReadyCount(workers[i := w]) == ReadyCount(workers) - (if workers[i].Ready? then 1 else 0) + (if w.Ready? then 1 else 0)
  {
    if i == 0 {
      assert workers[0 := w][1..] == workers[1..];
    } else {
      assert workers[i := w][1..] == workers[1..][i - 1 := w];
      ReadyCountUpdate(workers[1..], i - 1, w);
    }
  }

  predicate NoneIs(workers: seq<Worker>, w: Worker) { forall i :: 0 <= i < |workers| ==> workers[i] != w }

  /** No job waits while a worker sleeps, unless another worker is on its way to take it. */
  predicate WakeOk(jobs: seq<Job>, workers: seq<Worker>) {
    NoneIs(workers, Blocked) || |jobs| <= ReadyCount(workers)
  }

  // ----- stopping -----

  predicate StopOk(jobs: seq<Job>, workers: seq<Worker>, accepted: seq<nat>, stopping: bool, stopper: Stopper) {
    && (stopping <==> stopper != Serving)
    && (NoneIs(workers, Exited) || (stopping && jobs == []))
    && (stopper == Notified || stopper == Joined || stopper == Cleared ==> NoneIs(workers, Blocked))
    && (stopper == Joined || stopper == Cleared ==> forall i :: 0 <= i < |workers| ==> workers[i] == Exited)
    && (workers == [] ==> accepted == [])
  }

  // ----- the channels -----

  /** What was sent to reactor `r` was sent by jobs of reactor `r` that produced a completion, each once, and is
      what the reactor has got, followed by what waits for it, followed by what the stop threw away. */
  predicate ChannelOk(r: nat, c: Channel, sent: seq<nat>, got: seq<nat>, dropped: seq<nat>, accepted: seq<nat>, outcome: map<nat, bool>) {
    && sent == got + c.completions + dropped && Distinct(sent)
    && forall t :: t in sent ==> t < |accepted| && accepted[t] == r && t in outcome && outcome[t]
  }

  /** A completion never waits unnoticed: the counter is up, or a worker is about to raise it, or the reactor is still taking. */
  predicate NoLostWakeup(r: nat, c: Channel, workers: seq<Worker>, taker: Taker) {
    c.completions != [] ==> c.counter > 0 || !NoneIs(workers, Signalling(r)) || taker != Waiting
  }

  // ----- one step's effect on the workers -----

  lemma UpdateNone(workers: seq<Worker>, i: nat, w: Worker, v: Worker)
    requires i < |workers|
    ensures NoneIs(workers, v) && w != v ==> NoneIs(workers[i := w], v)
    ensures workers[i] != v && w != v ==> (NoneIs(workers, v) <==> NoneIs(workers[i := w], v))
    ensures w == v ==> !NoneIs(workers[i := w], v)
  {
    var workers' := workers[i := w];
    assert forall k :: 0 <= k < |workers| && k != i ==> workers'[k] == workers[k];
    assert workers'[i] == w;
    if !NoneIs(workers, v) && workers[i] != v {
      var k :| 0 <= k < |workers| && workers[k] == v;
      assert workers'[k] == v;
    }
  }

  /** A worker that holds no job changes to one that holds none. */
  lemma IdleHands(workers: seq<Worker>, i: nat, w: Worker, accepted: seq<nat>, taken: nat, outcome: map<nat, bool>)
    requires HandsOk(workers, accepted, taken, outcome) && i < |workers| && !Holds(workers[i]) && !Holds(w)
    ensures HandsOk(workers[i := w], accepted, taken, outcome)
  {
    forall t: nat | t < taken && t !in outcome ensures InHand(workers[i := w], t) {
      assert InHand(workers, t);
      var k :| 0 <= k < |workers| && Holds(workers[k]) && workers[k].job.ticket == t;
      assert workers[i := w][k] == workers[k];
    }
  }

  /** A worker takes the first job of the queue. */
  lemma TakenHands(workers: seq<Worker>, i: nat, accepted: seq<nat>, taken: nat, outcome: map<nat, bool>)
    requires HandsOk(workers, accepted, taken, outcome) && i < |workers| && !Holds(workers[i]) && taken < |accepted|
    ensures HandsOk(workers[i := Running(Job(taken, accepted[taken]))], accepted, taken + 1, outcome)
  {
    var workers' := workers[i := Running(Job(taken, accepted[taken]))];
    forall t: nat | t < taken + 1 && t !in outcome ensures InHand(workers', t) {
      if t == taken {
        assert workers'[i].job.ticket == t;
      } else {
        assert InHand(workers, t);
        var k :| 0 <= k < |workers| && Holds(workers[k]) && workers[k].job.ticket == t;
        assert workers'[k] == workers[k];
      }
    }
  }

  /** The work of a job is done and publishes a completion. */
  lemma DoneHands(workers: seq<Worker>, i: nat, accepted: seq<nat>, taken: nat, outcome: map<nat, bool>)
    requires HandsOk(workers, accepted, taken, outcome) && i < |workers| && workers[i].Running?
    ensures HandsOk(workers[i := Publishing(workers[i].job)], accepted, taken, outcome)
  {
    var workers' := workers[i := Publishing(workers[i].job)];
    forall t: nat | t < taken && t !in outcome ensures InHand(workers', t) {
      assert InHand(workers, t);
      var k :| 0 <= k < |workers| && Holds(workers[k]) && workers[k].job.ticket == t;
      assert Holds(workers'[k]) && workers'[k].job.ticket == t;
    }
  }

  /** A job leaves its worker's hands with its outcome. */
  lemma FinishedHands(workers: seq<Worker>, i: nat, w: Worker, accepted: seq<nat>, taken: nat, outcome: map<nat, bool>, published: bool)
    requires HandsOk(workers, accepted, taken, outcome) && i < |workers| && Holds(workers[i]) && !Holds(w)
    ensures HandsOk(workers[i := w], accepted, taken, outcome[workers[i].job.ticket := published])
  {
    var workers', t0 := workers[i := w], workers[i].job.ticket;
    forall t: nat | t < taken && t !in outcome && t != t0 ensures InHand(workers', t) {
      assert InHand(workers, t);
      var k :| 0 <= k < |workers| && Holds(workers[k]) && workers[k].job.ticket == t;
      assert workers'[k] == workers[k];
    }
    forall k | 0 <= k < |workers'| && Holds(workers'[k]) ensures workers'[k] == workers[k] && workers[k].job.ticket != t0 {
    }
  }

  // ----- how much is left to do once the pool is stopping -----

  function Rank(w: Worker): nat {
    if w.Exited? then 0 else if w.Ready? || w.Blocked? then 1 else if w.Signalling? then 2 else if w.Publishing? then 3 else 4
  }

  function Ranks(workers: seq<Worker>): nat {
    if workers == [] then 0 else Rank(workers[0]) + Ranks(workers[1..])
  }

  lemma {:induction false} RanksUpdate(workers: seq<Worker>, i: nat, w: Worker)
    requires i < |workers|
    ensures Ranks(workers[i := w]) == Ranks(workers) - Rank(workers[i]) + Rank(w)
  {
    hide Rank;
    if i == 0 {
      assert workers[0 := w][1..] == workers[1..];
    } else {
      assert workers[i := w][1..] == workers[1..][i - 1 := w];
      RanksUpdate(workers[1..], i - 1, w);
    }
  }

  /** The steps that the workers can still make after the stop. */
  function Left(jobs: seq<Job>, workers: seq<Worker>): nat { 4 * |jobs| + Ranks(workers) }

  /** Nothing is left exactly when every worker is gone. */
  lemma {:induction false} NothingLeft(workers: seq<Worker>)
    ensures Ranks(workers) == 0 <==> forall i :: 0 <= i < |workers| ==> workers[i] == Exited
  {
    if workers != [] {
      NothingLeft(workers[1..]);
      if Ranks(workers) == 0 {
        forall i | 0 < i < |workers| ensures workers[i] == Exited {
          assert workers[i] == workers[1..][i - 1];
        }
      }
      if forall i :: 0 <= i < |workers| ==> workers[i] == Exited {
        forall i | 0 <= i < |workers[1..]| ensures workers[1..][i] == Exited {
          assert workers[1..][i] == workers[i + 1];
        }
      }
    }
  }

  // ----- all channels together -----

  predicate ChannelsOk(channels: seq<Channel>, sent: seq<seq<nat>>, got: seq<seq<nat>>, dropped: seq<seq<nat>>,
                       accepted: seq<nat>, outcome: map<nat, bool>)
  {
    && |sent| == |got| == |dropped| == |channels|
    && forall r :: 0 <= r < |channels| ==> ChannelOk(r, channels[r], sent[r], got[r], dropped[r], accepted, outcome)
  }

  predicate WakeupsOk(channels: seq<Channel>, workers: seq<Worker>, takers: seq<Taker>) {
    && |takers| == |channels|
    && (forall i :: 0 <= i < |workers| && workers[i].Signalling? ==> workers[i].reactor < |channels|)
    && forall r :: 0 <= r < |channels| ==> NoLostWakeup(r, channels[r], workers, takers[r])
  }

  /** More jobs and more outcomes change nothing for what was sent before. */
  lemma ChannelsKeep(channels: seq<Channel>, sent: seq<seq<nat>>, got: seq<seq<nat>>, dropped: seq<seq<nat>>,
                     accepted: seq<nat>, outcome: map<nat, bool>, accepted': seq<nat>, outcome': map<nat, bool>)
    requires ChannelsOk(channels, sent, got, dropped, accepted, outcome) && accepted <= accepted'
    requires forall t :: t in outcome ==> t in outcome' && outcome'[t] == outcome[t]
    ensures ChannelsOk(channels, sent, got, dropped, accepted', outcome')
  {
    forall r | 0 <= r < |channels| ensures ChannelOk(r, channels[r], sent[r], got[r], dropped[r], accepted', outcome') {
      assert ChannelOk(r, channels[r], sent[r], got[r], dropped[r], accepted, outcome);
    }
  }

  /** A worker's step that is not about signalling disturbs no wakeup. */
  lemma WakeupsKeep(channels: seq<Channel>, workers: seq<Worker>, takers: seq<Taker>, i: nat, w: Worker)
    requires WakeupsOk(channels, workers, takers) && i < |workers| && !workers[i].Signalling? && !w.Signalling?
    ensures WakeupsOk(channels, workers[i := w], takers)
  {
    forall r: nat | r < |channels| ensures NoLostWakeup(r, channels[r], workers[i := w], takers[r]) {
      assert NoLostWakeup(r, channels[r], workers, takers[r]);
      UpdateNone(workers, i, w, Signalling(r));
    }
  }

  lemma PushedChannel(r: nat, c: Channel, sent: seq<nat>, got: seq<nat>, accepted: seq<nat>, outcome: map<nat, bool>, t: nat)
    requires ChannelOk(r, c, sent, got, [], accepted, outcome) && t < |accepted| && accepted[t] == r && t !in outcome
    ensures ChannelOk(r, c.(completions := c.completions + [t]), sent + [t], got, [], accepted, outcome[t := true])
  {
    assert t !in sent;
    assert got + (c.completions + [t]) + [] == got + c.completions + [] + [t];
    assert forall k :: 0 <= k < |sent| ==> sent[k] in sent;
  }

  lemma PoppedChannel(r: nat, c: Channel, sent: seq<nat>, got: seq<nat>, dropped: seq<nat>, accepted: seq<nat>, outcome: map<nat, bool>)
    requires ChannelOk(r, c, sent, got, dropped, accepted, outcome) && c.completions != []
    ensures ChannelOk(r, c.(completions := c.completions[1..]), sent, got + [c.completions[0]], dropped, accepted, outcome)
  {
    assert got + [c.completions[0]] + c.completions[1..] == got + c.completions;
  }

  lemma FirstCompletion(r: nat, c: Channel, sent: seq<nat>, got: seq<nat>, dropped: seq<nat>, accepted: seq<nat>, outcome: map<nat, bool>)
    requires ChannelOk(r, c, sent, got, dropped, accepted, outcome) && c.completions != []
    ensures var t := c.completions[0]; t < |accepted| && accepted[t] == r && t in outcome && t !in got
  {
    var k := |got|;
    assert sent[k] == c.completions[0] && sent[k] in sent;
    assert forall j :: 0 <= j < k ==> got[j] == sent[j];
  }

  lemma ClearedChannel(r: nat, c: Channel, sent: seq<nat>, got: seq<nat>, accepted: seq<nat>, outcome: map<nat, bool>)
    requires ChannelOk(r, c, sent, got, [], accepted, outcome)
    ensures ChannelOk(r, c.(completions := []), sent, got, c.completions, accepted, outcome)
  {
    assert got + [] + c.completions == got + c.completions + [];
  }

  /** A completion is pushed to the channel of reactor `r` by worker `i`, which is about to raise the counter. */
  lemma WakeupsPush(channels: seq<Channel>, workers: seq<Worker>, takers: seq<Taker>, i: nat, r: nat, c: Channel)
    requires WakeupsOk(channels, workers, takers) && i < |workers| && !workers[i].Signalling? && r < |channels|
    ensures WakeupsOk(channels[r := c], workers[i := Signalling(r)], takers)
  {
    var channels' := channels[r := c];
    forall q: nat | q < |channels| ensures NoLostWakeup(q, channels'[q], workers[i := Signalling(r)], takers[q]) {
      assert NoLostWakeup(q, channels[q], workers, takers[q]);
      UpdateNone(workers, i, Signalling(r), Signalling(q));
    }
  }

  lemma WakeupsSignal(channels: seq<Channel>, workers: seq<Worker>, takers: seq<Taker>, i: nat, r: nat, c: Channel)
    requires WakeupsOk(channels, workers, takers) && i < |workers| && workers[i] == Signalling(r) && r < |channels| && c.counter > 0
    ensures WakeupsOk(channels[r := c], workers[i := Ready], takers)
  {
    var channels' := channels[r := c];
    forall q: nat | q < |channels| ensures NoLostWakeup(q, channels'[q], workers[i := Ready], takers[q]) {
      assert NoLostWakeup(q, channels[q], workers, takers[q]);
      UpdateNone(workers, i, Ready, Signalling(q));
    }
  }

  /** A reactor moves on: it may go back to waiting only when its channel is empty or its counter is up. */
  lemma WakeupsTake(channels: seq<Channel>, workers: seq<Worker>, takers: seq<Taker>, r: nat, c: Channel, taker: Taker)
    requires WakeupsOk(channels, workers, takers) && r < |channels| && (taker == Waiting ==> c.completions == [])
    ensures WakeupsOk(channels[r := c], workers, takers[r := taker])
  {
    var channels', takers' := channels[r := c], takers[r := taker];
    forall q: nat | q < |channels| ensures NoLostWakeup(q, channels'[q], workers, takers'[q]) {
      assert NoLostWakeup(q, channels[q], workers, takers[q]);
    }
  }

  // ----- the pool -----

  class WorkerPool {
    var jobs: seq<Job>
    var stopping: bool
    var workers: seq<Worker>
    var channels: seq<Channel>
    var takers: seq<Taker>
    var stopper: Stopper
    /** The reactor of every accepted job, by ticket. */
    var accepted: seq<nat>

    ghost var taken: nat
    /** Whether a job that has run published a completion. */
    ghost var outcome: map<nat, bool>
    ghost var sent: seq<seq<nat>>
    ghost var got: seq<seq<nat>>
    ghost var dropped: seq<seq<nat>>

    ghost predicate Valid()
      reads this
    {
      && JobsOk(jobs, accepted, taken, |channels|)
      && HandsOk(workers, accepted, taken, outcome)
      && WakeOk(jobs, workers)
      && StopOk(jobs, workers, accepted, stopping, stopper)
      && ChannelsOk(channels, sent, got, dropped, accepted, outcome)
      && WakeupsOk(channels, workers, takers)
      && (stopper != Cleared ==> forall r :: 0 <= r < |dropped| ==> dropped[r] == [])
    }

    /** `workerCount` 0 asks for half the hardware threads, at least one; without eventfds there is nothing at all. */
    constructor (reactorCount: nat, workerCount: nat, hardware: nat, eventfds: bool)
      ensures Valid() && accepted == [] && stopper == Serving
      ensures |channels| == if eventfds then reactorCount else 0
      ensures |workers| == if !eventfds then 0 else if workerCount > 0 then workerCount else if hardware < 4 then 1 else hardware / 2
    {
      var count := if workerCount > 0 then workerCount else if hardware == 0 || hardware / 2 < 1 then 1 else hardware / 2;
      jobs, stopping, stopper, accepted := [], false, Serving, [];
      channels := if eventfds then seq(reactorCount, i => Channel([], 0)) else [];
      takers := if eventfds then seq(reactorCount, i => Waiting) else [];
      workers := if eventfds then seq(count, i => Ready) else [];
      taken, outcome := 0, map[];
      var n := if eventfds then reactorCount else 0;
      sent, got, dropped := seq(n, i => []), seq(n, i => []), seq(n, i => []);
    }

    /** A job is accepted exactly when it can be queued; one sleeping worker, if any, is woken. */
    method Submit(reactor: nat, hasWork: bool, woken: nat) returns (ok: bool)
      requires Valid() && (NoneIs(workers, Blocked) || (woken < |workers| && workers[woken] == Blocked))
      modifies `jobs, `accepted, `workers
      ensures Valid()
      ensures ok <==> hasWork && reactor < |channels| && !stopping && workers != [] && |old(jobs)| < MAX_QUEUED_JOBS
      ensures ok ==> accepted == old(accepted) + [reactor] && jobs == old(jobs) + [Job(|old(accepted)|, reactor)]
      ensures ok ==> workers == if NoneIs(old(workers), Blocked) then old(workers) else old(workers)[woken := Ready]
      ensures !ok ==> jobs == old(jobs) && accepted == old(accepted) && workers == old(workers)
    {
      hide ChannelOk, NoLostWakeup, JobsOk, HandsOk, ChannelsOk, WakeupsOk;
      if !hasWork || reactor >= |channels| || stopping || workers == [] || |jobs| >= MAX_QUEUED_JOBS {
        return false;
      }
      ChannelsKeep(channels, sent, got, dropped, accepted, outcome, accepted + [reactor], outcome);
      QueuedJobs(jobs, accepted, taken, |channels|, reactor);
      MoreHands(workers, accepted, accepted + [reactor], taken, outcome);
      jobs := jobs + [Job(|accepted|, reactor)];
      accepted := accepted + [reactor];
      if !NoneIs(workers, Blocked) {
        IdleHands(workers, woken, Ready, accepted, taken, outcome);
        WakeupsKeep(channels, workers, takers, woken, Ready);
        ReadyCountUpdate(workers, woken, Ready);
        UpdateNone(workers, woken, Ready, Exited);
        workers := workers[woken := Ready];
      }
      ok := true;
    }

    /** A worker wakes up without having been told to. */
    method WakeSpuriously(i: nat)
      requires Valid() && i < |workers| && workers[i] == Blocked
      modifies `workers
      ensures Valid() && workers == old(workers)[i := Ready]
    {
      hide ChannelOk, NoLostWakeup, JobsOk;
      IdleHands(workers, i, Ready, accepted, taken, outcome);
      WakeupsKeep(channels, workers, takers, i, Ready);
      ReadyCountUpdate(workers, i, Ready);
      UpdateNone(workers, i, Ready, Exited);
      workers := workers[i := Ready];
    }

    /** A worker looks at the queue: it takes the first job, sleeps, or leaves when the pool stops and no job is left. */
    method Look(i: nat)
      requires Valid() && i < |workers| && workers[i] == Ready
      modifies `jobs, `workers, `taken
      ensures Valid()
      ensures old(jobs) != [] ==> workers == old(workers)[i := Running(old(jobs)[0])] && jobs == old(jobs)[1..] && taken == old(taken) + 1
      ensures old(jobs) == [] ==> workers == old(workers)[i := if stopping then Exited else Blocked] && jobs == [] && taken == old(taken)
      ensures stopping ==> Left(jobs, workers) < Left(old(jobs), old(workers))
    {
      if jobs == [] { Leave(i); } else { Take(i); }
    }

    method Take(i: nat)
      requires Valid() && i < |workers| && workers[i] == Ready && jobs != []
      modifies `jobs, `workers, `taken
      ensures Valid() && taken == old(taken) + 1
      ensures workers == old(workers)[i := Running(old(jobs)[0])] && jobs == old(jobs)[1..]
      ensures Left(jobs, workers) < Left(old(jobs), old(workers))
    {
      hide ChannelOk, NoLostWakeup, JobsOk, HandsOk;
      var w := Running(jobs[0]);
      TakenJobs(jobs, accepted, taken, |channels|);
      RanksUpdate(workers, i, w);
      TakenHands(workers, i, accepted, taken, outcome);
      WakeupsKeep(channels, workers, takers, i, w);
      ReadyCountUpdate(workers, i, w);
      UpdateNone(workers, i, w, Exited);
      UpdateNone(workers, i, w, Blocked);
      workers := workers[i := w];
      jobs := jobs[1..];
      taken := taken + 1;
    }

    method Leave(i: nat)
      requires Valid() && i < |workers| && workers[i] == Ready && jobs == []
      modifies `workers
      ensures Valid() && workers == old(workers)[i := if stopping then Exited else Blocked]
      ensures stopping ==> Left(jobs, workers) < Left(jobs, old(workers))
    {
      hide ChannelOk, NoLostWakeup;
      var w := if stopping then Exited else Blocked;
      RanksUpdate(workers, i, w);
      IdleHands(workers, i, w, accepted, taken, outcome);
      WakeupsKeep(channels, workers, takers, i, w);
      ReadyCountUpdate(workers, i, w);
      UpdateNone(workers, i, w, Exited);
      UpdateNone(workers, i, w, Blocked);
      workers := workers[i := w];
    }

    /** The work of a job ends: with a completion to publish, or, after an exception or an empty result, without one. */
    method Finish(i: nat, publishes: bool)
      requires Valid() && i < |workers| && workers[i].Running?
      modifies `workers, `outcome
      ensures Valid()
      ensures workers == old(workers)[i := if publishes then Publishing(old(workers)[i].job) else Ready]
      ensures outcome == if publishes then old(outcome) else old(outcome)[old(workers)[i].job.ticket := false]
      ensures Left(jobs, workers) < Left(jobs, old(workers))
    {
      hide ChannelOk, NoLostWakeup, JobsOk;
      var w := if publishes then Publishing(workers[i].job) else Ready;
      RanksUpdate(workers, i, w);
      if publishes {
        DoneHands(workers, i, accepted, taken, outcome);
      } else {
        FinishedHands(workers, i, Ready, accepted, taken, outcome, false);
        ChannelsKeep(channels, sent, got, dropped, accepted, outcome, accepted, outcome[workers[i].job.ticket := false]);
        outcome := outcome[workers[i].job.ticket := false];
      }
      WakeupsKeep(channels, workers, takers, i, w);
      ReadyCountUpdate(workers, i, w);
      UpdateNone(workers, i, w, Exited);
      UpdateNone(workers, i, w, Blocked);
      workers := workers[i := w];
    }

    /** The completion is put into the channel of the reactor that submitted the job. */
    method Push(i: nat)
      requires Valid() && i < |workers| && workers[i].Publishing?
      modifies `workers, `channels, `outcome, `sent
      ensures Valid()
      ensures var (t, r) := (old(workers)[i].job.ticket, old(workers)[i].job.reactor);
              && r < |old(channels)| && r < |old(sent)|
              && workers == old(workers)[i := Signalling(r)]
              && channels == old(channels)[r := old(channels)[r].(completions := old(channels)[r].completions + [t])]
              && sent == old(sent)[r := old(sent)[r] + [t]] && outcome == old(outcome)[t := true]
      ensures Left(jobs, workers) < Left(jobs, old(workers))
    {
      hide NoLostWakeup, ChannelOk;
      ghost var t := workers[i].job.ticket;
      var r := workers[i].job.reactor;
      var c := channels[r].(completions := channels[r].completions + [workers[i].job.ticket]);
      SoundChannel(r);
      RanksUpdate(workers, i, Signalling(r));
      PushedChannel(r, channels[r], sent[r], got[r], accepted, outcome, t);
      FinishedHands(workers, i, Signalling(r), accepted, taken, outcome, true);
      ChannelsKeep(channels, sent, got, dropped, accepted, outcome, accepted, outcome[t := true]);
      WakeupsPush(channels, workers, takers, i, r, c);
      ReadyCountUpdate(workers, i, Signalling(r));
      UpdateNone(workers, i, Signalling(r), Exited);
      UpdateNone(workers, i, Signalling(r), Blocked);
      workers := workers[i := Signalling(r)];
      channels := channels[r := c];
      outcome := outcome[t := true];
      sent := sent[r := sent[r] + [t]];
    }

    /** While workers are left, nothing has been thrown away. */
    lemma SoundChannel(r: nat)
      requires Valid() && r < |channels| && (exists i :: 0 <= i < |workers| && workers[i] != Exited)
      ensures ChannelOk(r, channels[r], sent[r], got[r], [], accepted, outcome) && dropped[r] == []
    {
      hide ChannelOk, NoLostWakeup;
    }

    /** The worker raises the counter of the eventfd, unless it is full, and looks for the next job. */
    method Signal(i: nat)
      requires Valid() && i < |workers| && workers[i].Signalling?
      modifies `workers, `channels
      ensures Valid()
      ensures var r := old(workers)[i].reactor;
              && r < |old(channels)| && workers == old(workers)[i := Ready]
              && channels == old(channels)[r := old(channels)[r].(counter := Raised(old(channels)[r].counter))]
      ensures Left(jobs, workers) < Left(jobs, old(workers))
    {
      hide NoLostWakeup, JobsOk;
      var r := workers[i].reactor;
      var c := channels[r].(counter := Raised(channels[r].counter));
      RanksUpdate(workers, i, Ready);
      IdleHands(workers, i, Ready, accepted, taken, outcome);
      WakeupsSignal(channels, workers, takers, i, r, c);
      ReadyCountUpdate(workers, i, Ready);
      UpdateNone(workers, i, Ready, Exited);
      UpdateNone(workers, i, Ready, Blocked);
      workers := workers[i := Ready];
      channels := channels[r := c];
    }

    // ----- the reactors -----

    /** The event loop reports the eventfd, whose counter is up. */
    method Report(r: nat)
      requires Valid() && r < |channels| && takers[r] == Waiting && channels[r].counter > 0
      modifies `takers
      ensures Valid() && takers == old(takers)[r := Consuming]
    {
      hide NoLostWakeup, JobsOk, HandsOk, ChannelOk;
      WakeupsTake(channels, workers, takers, r, channels[r], Consuming);
      assert channels[r := channels[r]] == channels;
      takers := takers[r := Consuming];
    }

    /** One read of the eventfd: it zeroes the counter; the reactor reads on until the counter is found at zero, or a read fails. */
    method Consume(r: nat, fails: bool)
      requires Valid() && r < |channels| && takers[r] == Consuming
      modifies `takers, `channels
      ensures Valid()
      ensures old(channels)[r].counter > 0 && !fails ==>
                takers == old(takers) && channels == old(channels)[r := old(channels)[r].(counter := 0)]
      ensures old(channels)[r].counter == 0 || fails ==> takers == old(takers)[r := Popping] && channels == old(channels)
    {
      hide NoLostWakeup, JobsOk, HandsOk;
      if channels[r].counter > 0 && !fails {
        WakeupsTake(channels, workers, takers, r, channels[r].(counter := 0), Consuming);
        assert takers[r := Consuming] == takers;
        channels := channels[r := channels[r].(counter := 0)];
      } else {
        WakeupsTake(channels, workers, takers, r, channels[r], Popping);
        assert channels[r := channels[r]] == channels;
        takers := takers[r := Popping];
      }
    }

    /** Takes the first completion, or goes back to waiting when there is none. */
    method Pop(r: nat) returns (some: bool, ticket: nat)
      requires Valid() && r < |channels| && takers[r] == Popping
      modifies `takers, `channels, `got
      ensures Valid() && some == (old(channels)[r].completions != [])
      ensures some ==>
                && r < |old(got)| && ticket == old(channels)[r].completions[0] && takers == old(takers)
                && channels == old(channels)[r := old(channels)[r].(completions := old(channels)[r].completions[1..])]
                && got == old(got)[r := old(got)[r] + [ticket]]
      ensures !some ==> takers == old(takers)[r := Waiting] && channels == old(channels) && got == old(got)
      ensures some ==> ticket < |accepted| && accepted[ticket] == r && ticket in outcome && ticket !in old(got)[r]
    {
      hide NoLostWakeup, JobsOk, HandsOk, ChannelOk;
      some, ticket := channels[r].completions != [], 0;
      if some {
        var c := channels[r].(completions := channels[r].completions[1..]);
        PoppedChannel(r, channels[r], sent[r], got[r], dropped[r], accepted, outcome);
        FirstCompletion(r, channels[r], sent[r], got[r], dropped[r], accepted, outcome);
        WakeupsTake(channels, workers, takers, r, c, Popping);
        assert takers[r := Popping] == takers;
        ticket := channels[r].completions[0];
        got := got[r := got[r] + [ticket]];
        channels := channels[r := c];
      } else {
        WakeupsTake(channels, workers, takers, r, channels[r], Waiting);
        assert channels[r := channels[r]] == channels;
        takers := takers[r := Waiting];
      }
    }

    // ----- stopping -----

    /** Only the first call does anything. */
    method Flag()
      requires Valid()
      modifies `stopping, `stopper
      ensures Valid() && stopping
      ensures stopper == if old(stopping) then old(stopper) else Flagged
    {
      if stopping {
        return;
      }
      stopping, stopper := true, Flagged;
    }

    /** Every sleeping worker is woken. */
    method NotifyAll()
      requires Valid() && stopper == Flagged
      modifies `workers, `stopper
      ensures Valid() && stopper == Notified && |workers| == |old(workers)|
      ensures forall k :: 0 <= k < |workers| ==> workers[k] == if old(workers)[k] == Blocked then Ready else old(workers)[k]
    {
      hide ChannelOk, NoLostWakeup, JobsOk;
      ghost var before := workers;
      var i := 0;
      while i < |workers|
        invariant 0 <= i <= |workers| == |before| && Valid()
        invariant forall k :: 0 <= k < i ==> workers[k] == if before[k] == Blocked then Ready else before[k]
        invariant forall k :: i <= k < |workers| ==> workers[k] == before[k]
      {
        if workers[i] == Blocked { WakeSpuriously(i); }
        i := i + 1;
      }
      stopper := Notified;
    }

    /** All workers are gone: every accepted job has run and its outcome is known. */
    method Join()
      requires Valid() && stopper == Notified && forall i :: 0 <= i < |workers| ==> workers[i] == Exited
      modifies `stopper
      ensures Valid() && stopper == Joined && jobs == []
      ensures forall t: nat :: t < |accepted| ==> t in outcome
    {
      hide ChannelOk, NoLostWakeup;
      stopper := Joined;
      if workers != [] { assert workers[0] == Exited; }
      forall t: nat | t < |accepted| ensures t in outcome {
        assert !InHand(workers, t);
      }
    }

    /** The queue is emptied, which removes nothing, and the completions that nobody took are thrown away. */
    method Clear()
      requires Valid() && stopper == Joined
      modifies `jobs, `channels, `stopper, `dropped
      ensures Valid() && stopper == Cleared && jobs == [] && old(jobs) == []
      ensures |channels| == |old(channels)| && forall r :: 0 <= r < |channels| ==> channels[r] == old(channels)[r].(completions := [])
    {
      hide ChannelOk, NoLostWakeup, HandsOk;
      NothingQueued();
      jobs := [];
      stopper := Cleared;
      var r := 0;
      while r < |channels|
        invariant 0 <= r <= |channels| == |old(channels)| && Valid() && stopper == Cleared
        invariant forall q :: r <= q < |channels| ==> dropped[q] == []
        invariant forall q :: 0 <= q < |channels| ==> channels[q] == if q < r then old(channels)[q].(completions := []) else old(channels)[q]
      {
        var c := channels[r].(completions := []);
        ClearedChannel(r, channels[r], sent[r], got[r], accepted, outcome);
        WakeupsTake(channels, workers, takers, r, c, takers[r]);
        assert takers[r := takers[r]] == takers;
        dropped := dropped[r := channels[r].completions];
        channels := channels[r := c];
        r := r + 1;
      }
    }

    /** One step of worker `i`, wherever it is. */
    method Work(i: nat, publishes: bool)
      requires Valid() && i < |workers| && workers[i] != Exited && workers[i] != Blocked
      modifies `jobs, `workers, `channels, `taken, `outcome, `sent
      ensures Valid() && |workers| == |old(workers)|
      ensures stopping ==> Left(jobs, workers) < Left(old(jobs), old(workers))
    {
      hide *;
      if workers[i].Ready? { Look(i); }
      else if workers[i].Running? { Finish(i, publishes); }
      else if workers[i].Publishing? { Push(i); }
      else { Signal(i); }
    }

    /** Whatever order the workers run in, once they have been told to stop they drain the queue and leave. */
    method AwaitWorkers(choices: seq<(nat, bool)>)
      requires Valid() && stopper == Notified
      modifies `jobs, `workers, `channels, `taken, `outcome, `sent
      ensures Valid() && forall i :: 0 <= i < |workers| ==> workers[i] == Exited
    {
      hide ChannelsOk, WakeupsOk, HandsOk, JobsOk, WakeOk, Left;
      var k := 0;
      while exists i :: 0 <= i < |workers| && workers[i] != Exited
        invariant Valid() && k >= 0
        decreases Left(jobs, workers)
      {
        var i :| 0 <= i < |workers| && workers[i] != Exited;
        if k < |choices| && choices[k].0 < |workers| && workers[choices[k].0] != Exited { i := choices[k].0; }
        Work(i, k < |choices| && choices[k].1);
        k := k + 1;
      }
    }

    /** Stopping always comes to an end, and then every job that was ever accepted has run; whoever calls it while another
        thread is stopping, or after that, changes nothing. */
    method Stop(choices: seq<(nat, bool)>)
      requires Valid()
      modifies this
      ensures Valid()
      ensures old(stopper) != Serving ==> unchanged(this)
      ensures old(stopper) == Serving ==>
                stopper == Cleared && accepted == old(accepted) && forall t: nat :: t < |accepted| ==> t in outcome
      ensures stopper == Cleared ==> jobs == []
    {
      hide ChannelsOk, WakeupsOk, HandsOk, JobsOk, WakeOk;
      if stopping {
        if stopper == Cleared { NothingQueued(); }
        return;
      }
      Flag();
      NotifyAll();
      AwaitWorkers(choices);
      Join();
      Clear();
    }

    lemma NothingQueued()
      requires Valid() && (stopper == Joined || stopper == Cleared)
      ensures jobs == []
    {
      hide ChannelsOk, WakeupsOk, HandsOk;
      if workers != [] { assert workers[0] == Exited; }
    }

    /** One step of the pool; a step that is not possible where its thread stands does not happen. */
    method Do(step: Step)
      requires Valid()
      modifies this
      ensures Valid() && old(accepted) <= accepted
    {
      hide ChannelsOk, WakeupsOk, HandsOk, JobsOk, WakeOk, StopOk, Left;
      match step
      case Submits(reactor, hasWork, woken) =>
        if NoneIs(workers, Blocked) || (woken < |workers| && workers[woken] == Blocked) {
          var ok := Submit(reactor, hasWork, woken);
        }
      case Wakes(i) => if i < |workers| && workers[i] == Blocked { WakeSpuriously(i); }
      case Works(i, publishes) => if i < |workers| && workers[i] != Exited && workers[i] != Blocked { Work(i, publishes); }
      case Reports(r) => if r < |channels| && r < |takers| && takers[r] == Waiting && channels[r].counter > 0 { Report(r); }
      case Consumes(r, fails) => if r < |channels| && r < |takers| && takers[r] == Consuming { Consume(r, fails); }
      case Pops(r) => if r < |channels| && r < |takers| && takers[r] == Popping { var some, ticket := Pop(r); }
      case Flags => Flag();
      case Notifies => if stopper == Flagged { NotifyAll(); }
      case Joins => if stopper == Notified && forall i :: 0 <= i < |workers| ==> workers[i] == Exited { Join(); }
      case Clears => if stopper == Joined { Clear(); }
    }

    /** In every interleaving: no completion waits unnoticed, every reactor has got completions of its own jobs only,
        each at most once, and once the workers have been joined every accepted job has run. */
    method Run(schedule: seq<Step>)
      requires Valid()
      modifies this
      ensures Valid() && |jobs| <= MAX_QUEUED_JOBS && WakeOk(jobs, workers)
      ensures forall r :: 0 <= r < |channels| && r < |takers| ==> NoLostWakeup(r, channels[r], workers, takers[r])
      ensures |got| == |channels| && forall r :: 0 <= r < |got| ==> GotOk(r, got[r], accepted, outcome)
      ensures stopper == Joined || stopper == Cleared ==> jobs == [] && forall t: nat :: t < |accepted| ==> t in outcome
    {
      for k := 0 to |schedule|
        invariant Valid()
      {
        hide Valid;
        Do(schedule[k]);
      }
      Conclude();
    }

    lemma Conclude()
      requires Valid()
      ensures |jobs| <= MAX_QUEUED_JOBS && WakeOk(jobs, workers)
      ensures forall r :: 0 <= r < |channels| && r < |takers| ==> NoLostWakeup(r, channels[r], workers, takers[r])
      ensures |got| == |channels| && forall r :: 0 <= r < |got| ==> GotOk(r, got[r], accepted, outcome)
      ensures stopper == Joined || stopper == Cleared ==> jobs == [] && forall t: nat :: t < |accepted| ==> t in outcome
    {
      hide NoLostWakeup, ChannelOk, GotOk;
      if stopper == Joined || stopper == Cleared {
        NothingQueued();
        forall t: nat | t < |accepted| ensures t in outcome {
          assert !InHand(workers, t);
        }
      }
      forall r | 0 <= r < |got| ensures GotOk(r, got[r], accepted, outcome) {
        GotIsOk(r, channels[r], sent[r], got[r], dropped[r], accepted, outcome);
      }
    }
  }

  /** What reactor `r` has got are completions that its own jobs published, each once. */
  predicate GotOk(r: nat, got: seq<nat>, accepted: seq<nat>, outcome: map<nat, bool>) {
    Distinct(got) && forall t :: t in got ==> t < |accepted| && accepted[t] == r && t in outcome && outcome[t]
  }

  lemma GotIsOk(r: nat, c: Channel, sent: seq<nat>, got: seq<nat>, dropped: seq<nat>, accepted: seq<nat>, outcome: map<nat, bool>)
    requires ChannelOk(r, c, sent, got, dropped, accepted, outcome)
    ensures GotOk(r, got, accepted, outcome)
  {
    assert forall k :: 0 <= k < |got| ==> got[k] == sent[k] && sent[k] in sent;
  }

  lemma QueuedJobs(jobs: seq<Job>, accepted: seq<nat>, taken: nat, reactors: nat, reactor: nat)
    requires JobsOk(jobs, accepted, taken, reactors) && |jobs| < MAX_QUEUED_JOBS && reactor < reactors
    ensures JobsOk(jobs + [Job(|accepted|, reactor)], accepted + [reactor], taken, reactors)
  {
  }

  lemma TakenJobs(jobs: seq<Job>, accepted: seq<nat>, taken: nat, reactors: nat)
    requires JobsOk(jobs, accepted, taken, reactors) && jobs != []
    ensures JobsOk(jobs[1..], accepted, taken + 1, reactors)
    ensures taken < |accepted| && jobs[0] == Job(taken, accepted[taken])
  {
  }

  lemma MoreHands(workers: seq<Worker>, accepted: seq<nat>, accepted': seq<nat>, taken: nat, outcome: map<nat, bool>)
    requires HandsOk(workers, accepted, taken, outcome) && accepted <= accepted'
    ensures HandsOk(workers, accepted', taken, outcome)
  {
  }
}
