/**
  One call of `submit` as a state machine: the coordinator, one worker per launched log, and the
  bounded channel between them. The environment picks every step.
 */
module Machine {
  import opened Logs
  import opened Finite
  import opened Q = Quorum
  import opened Workers
  import opened Coordinator
  import T = Trim
  import S = QuorumStates

  /** Where the coordinator is: the main loop, one of the two drain loops, or one of the three returns. */
  datatype Phase = Running | DrainingQuorum | DrainingContext | QuorumReached | QuorumMissed | ContextError

  /**
    `pending` (launched, terminal event not yet received) and `arrived` (the success events
    received by the main loop, in order) are history variables.
   */
  datatype Sys = Sys(
    phase: Phase,
    c: Coord,
    workers: seq<Worker>,
    chan: seq<Event>,
    pending: set<nat>,
    arrived: seq<Event>)

  datatype Step = Send(e: Event) | Receive | CancelContext | Return

  predicate Active(p: Phase) {
    p.Running? || p.DrainingQuorum? || p.DrainingContext?
  }

  ghost function Capacity(job: Job): nat {
    |Eligible(job.logs)|
  }

  /** The launched workers are running; nothing has been sent. */
  ghost function Launched(job: Job, c: Coord): Sys {
    Sys(Running, c,
        seq(|job.logs|, i => if i in c.began then Busy(false, false) else Idle),
        [], c.began, [])
  }

  ghost function Init(job: Job): Sys {
    Launched(job, InitialBatch(job))
  }

  /** The shape that every state has; it only makes the step functions well-defined. */
  ghost predicate Shape(job: Job, s: Sys) {
    && |s.workers| == |job.logs| == |s.c.outcome|
    && InRange(job.logs, s.c.normal)
    && InRange(job.logs, Indices(s.c.q))
    && |s.c.q.indices| == |s.c.q.responses| == |s.c.q.scts|
    && (forall k | 0 <= k < |s.c.q.indices| :: s.c.q.indices[k] < |job.logs|)
    && (forall k | 0 <= k < |s.chan| :: s.chan[k].idx < |job.logs|)
  }

  ghost predicate Enabled(job: Job, s: Sys, step: Step)
    requires Shape(job, s)
  {
    match step
    case Send(e) => e.idx < |s.workers| && MaySend(s.workers[e.idx], e) && |s.chan| < Capacity(job)
    case Receive => Active(s.phase) && s.c.inFlight > 0 && s.chan != []
    case CancelContext => s.phase.Running? && s.c.inFlight > 0
    case Return => Active(s.phase) && s.c.inFlight <= 0
  }

  /** Starting the worker of log `i`. */
  ghost function LaunchWorker(s: Sys, i: nat): Sys
    requires i < |s.workers|
  {
    s.(c := Launch(s.c, i), workers := s.workers[i := Busy(false, false)], pending := s.pending + {i})
  }

  /** The main loop takes the first event off the channel and updates its books. */
  ghost function Take(job: Job, s: Sys): (s': Sys)
    requires Shape(job, s) && s.chan != []
    ensures Shape(job, s')
  {
    var e := s.chan[0];
    var c := Absorb(job, s.c, e);
    s.(c := c,
       chan := s.chan[1..],
       pending := if e.Terminal() then s.pending - {e.idx} else s.pending,
       arrived := if e.Success? then s.arrived + [e] else s.arrived,
       phase := if e.Success? && IsQuorumMet(c.q, job.sr) then DrainingQuorum else Running)
  }

  /** A drain loop takes the first event off the channel. */
  ghost function Drain(job: Job, s: Sys): Sys
    requires Shape(job, s) && s.chan != []
  {
    var e := s.chan[0];
    var s1 := s.(chan := s.chan[1..]);
    if !e.Terminal() then s1
    else
      var outcome :=
        if s.phase.DrainingContext? && s.c.outcome[e.idx] == NoOutcome then s.c.outcome[e.idx := OutcomeOf(e)]
        else s.c.outcome;
      s1.(c := s.c.(inFlight := s.c.inFlight - 1, outcome := outcome), pending := s.pending - {e.idx})
  }

  ghost function LaunchNext(job: Job, s: Sys): Sys
    requires Shape(job, s)
  {
    var next := Candidates(job, s.c);
    if next != {} then LaunchWorker(s, MinOf(next)) else s
  }

  ghost function MaybeLaunch(job: Job, s: Sys, e: Event): Sys
    requires Shape(job, s)
  {
    if s.phase.Running? && LaunchesAfter(job, s.c, e) then LaunchNext(job, s) else s
  }

  ghost function Finish(job: Job, s: Sys): Sys
    requires Shape(job, s)
  {
    var trims := s.phase.DrainingQuorum? || (s.phase.Running? && IsQuorumMet(s.c.q, job.sr));
    var outcome := if trims then S.TrimOutcomes(s.c.outcome, s.c.q, job.logs, job.sr) else s.c.outcome;
    s.(c := s.c.(
         q := if trims then T.TrimToQuorum(s.c.q, job.logs, job.sr) else s.c.q,
         outcome := Annotate(job, outcome)),
       phase := if trims then QuorumReached else if s.phase.Running? then QuorumMissed else ContextError)
  }

  ghost function Apply(job: Job, s: Sys, step: Step): Sys
    requires Shape(job, s) && Enabled(job, s, step)
  {
    match step
    case Send(e) => s.(workers := s.workers[e.idx := AfterSend(s.workers[e.idx], e)], chan := s.chan + [e])
    case Receive =>
      if s.phase.Running? then
        MaybeLaunch(job, Take(job, s), s.chan[0])
      else Drain(job, s)
    case CancelContext => s.(phase := DrainingContext)
    case Return => Finish(job, s)
  }

  // ---- The invariant ----

  ghost function Terminals(chan: seq<Event>): set<nat> {
    set e | e in chan && e.Terminal() :: e.idx
  }

  ghost predicate SetsOk(job: Job, s: Sys) {
    && s.c.began <= Eligible(job.logs)
    && s.pending <= s.c.began
    && s.c.inFlight == |s.pending|
    && s.c.normal !! s.c.slow
    && (s.phase.Running? ==> s.c.normal + s.c.slow == s.pending && s.c.launchSeq == |s.c.began|)
    && s.pending <= s.c.normal + s.c.slow <= s.c.began
    && (!Active(s.phase) ==> s.pending == {})
  }

  /** Each worker's events are in the order and number that its protocol allows. */
  ghost predicate ChannelOk(job: Job, s: Sys) {
    && |s.chan| <= Capacity(job)
    && (forall k | 0 <= k < |s.chan| :: s.chan[k].idx in s.pending)
    && (forall j, k | 0 <= j < k < |s.chan| && s.chan[j].idx == s.chan[k].idx ::
          && !s.chan[j].Terminal()
          && !(s.chan[j].TryNext? && s.chan[k].TryNext?)
          && !(s.chan[j].Slow? && s.chan[k].Slow?))
    && (forall k | 0 <= k < |s.chan| :: s.chan[k].idx < |s.workers| && Sent(s.workers[s.chan[k].idx], s.chan[k]))
    && (s.phase.Running? ==> forall k | 0 <= k < |s.chan| :: s.chan[k].TryNext? ==> s.chan[k].idx in s.c.normal)
  }

  /** The worker is in a state after sending `e`. */
  predicate Sent(w: Worker, e: Event) {
    match e
    case TryNext(_) => w.Done? || (w.Busy? && w.tryNextSent)
    case Slow(_) => w.Done? || (w.Busy? && w.slowSent)
    case Success(_, _, _) => w.Done?
    case Failure(_, _) => w.Done?
  }

  ghost predicate WorkersOk(job: Job, s: Sys) {
    && (forall i | 0 <= i < |s.workers| :: s.workers[i].Idle? <==> i !in s.c.began)
    && (forall i | 0 <= i < |s.workers| :: s.workers[i].Done? <==> i in s.c.began - s.pending || i in Terminals(s.chan))
    && (s.phase.Running? ==> forall i | i in s.c.slow :: i < |s.workers| ==>
          s.workers[i].Done? || (s.workers[i].Busy? && s.workers[i].tryNextSent))
  }

  ghost predicate Invariant(job: Job, s: Sys) {
    && Shape(job, s)
    && SetsOk(job, s)
    && ChannelOk(job, s)
    && WorkersOk(job, s)
  }

  lemma LaunchedOk(job: Job, c: Coord)
    requires JustLaunched(job, c) && |job.initial| == |job.logs|
    ensures Invariant(job, Launched(job, c))
  {
    assert Terminals(Launched(job, c).chan) == {};
  }

  lemma InitOk(job: Job)
    requires ValidJob(job)
    ensures Invariant(job, Init(job))
  {
    InitialBatchCovers(job);
    LaunchedOk(job, InitialBatch(job));
  }

  /** The worker that sends has no terminal event in the channel. */
  lemma SenderIsPending(job: Job, s: Sys, e: Event)
    requires Invariant(job, s) && Enabled(job, s, Send(e))
    ensures e.idx in s.pending && (s.phase.Running? && e.TryNext? ==> e.idx in s.c.normal)
    ensures forall k | 0 <= k < |s.chan| && s.chan[k].idx == e.idx :: !s.chan[k].Terminal()
  {
    assert e.idx !in Terminals(s.chan);
    forall k | 0 <= k < |s.chan| && s.chan[k].idx == e.idx ensures !s.chan[k].Terminal() {
      assert s.chan[k] in s.chan;
    }
  }

  lemma SendChannelOk(job: Job, s: Sys, e: Event)
    requires Shape(job, s) && ChannelOk(job, s) && Enabled(job, s, Send(e)) && e.idx in s.pending
    requires forall k | 0 <= k < |s.chan| && s.chan[k].idx == e.idx :: !s.chan[k].Terminal()
    requires s.phase.Running? && e.TryNext? ==> e.idx in s.c.normal
    ensures ChannelOk(job, Apply(job, s, Send(e)))
  {
  }

  lemma SendWorkersOk(job: Job, s: Sys, e: Event)
    requires Invariant(job, s) && Enabled(job, s, Send(e))
    ensures WorkersOk(job, Apply(job, s, Send(e)))
  {
    var s' := Apply(job, s, Send(e));
    assert e.idx in s.pending;
    SnocTerminals(s.chan, e);
  }

  lemma SnocTerminals(chan: seq<Event>, e: Event)
    ensures Terminals(chan + [e]) == Terminals(chan) + if e.Terminal() then {e.idx} else {}
  {
  }

  lemma SendOk(job: Job, s: Sys, e: Event)
    requires Invariant(job, s) && Enabled(job, s, Send(e))
    ensures Invariant(job, Apply(job, s, Send(e)))
  {
    SenderIsPending(job, s, e);
    SendChannelOk(job, s, e);
    SendWorkersOk(job, s, e);
  }

  // ---- Receiving ----

  lemma TailTerminals(job: Job, s: Sys)
    requires ChannelOk(job, s) && s.chan != []
    ensures var e := s.chan[0];
            Terminals(s.chan[1..]) == if e.Terminal() then Terminals(s.chan) - {e.idx} else Terminals(s.chan)
  {
    var e, tail := s.chan[0], s.chan[1..];
    assert s.chan == [e] + tail;
    forall k | 0 <= k < |tail| && e.Terminal() ensures tail[k].idx != e.idx {
      assert tail[k] == s.chan[k + 1];
    }
  }

  /** Removing the head of the channel, and its log from `pending` if it is terminal, keeps the channel protocol. */
  lemma PopChannelOk(job: Job, s: Sys, s': Sys)
    requires ChannelOk(job, s) && s.chan != []
    requires s'.workers == s.workers && s'.chan == s.chan[1..]
    requires s'.pending == if s.chan[0].Terminal() then s.pending - {s.chan[0].idx} else s.pending
    requires s'.phase.Running? ==> s.phase.Running?
    requires s'.phase.Running? && s.chan[0].TryNext? ==> s.c.normal - {s.chan[0].idx} <= s'.c.normal
    requires s'.phase.Running? && s.chan[0].Terminal() ==> s.c.normal - {s.chan[0].idx} <= s'.c.normal
    requires s'.phase.Running? && s.chan[0].Slow? ==> s.c.normal <= s'.c.normal
    ensures ChannelOk(job, s')
  {
    assert forall k | 0 <= k < |s'.chan| :: s'.chan[k] == s.chan[k + 1];
  }

  lemma PopWorkersOk(job: Job, s: Sys, s': Sys)
    requires Shape(job, s) && ChannelOk(job, s) && WorkersOk(job, s) && s.chan != []
    requires s.pending <= s.c.began
    requires s'.workers == s.workers && s'.chan == s.chan[1..] && s'.c.began == s.c.began
    requires s'.pending == if s.chan[0].Terminal() then s.pending - {s.chan[0].idx} else s.pending
    requires s'.phase.Running? ==> s.phase.Running?
    requires s'.phase.Running? ==> s'.c.slow <= if s.chan[0].TryNext? then s.c.slow + {s.chan[0].idx} else s.c.slow
    ensures WorkersOk(job, s')
  {
    TailTerminals(job, s);
    var e := s.chan[0];
    if e.Terminal() {
      assert e in s.chan;
    }
  }

  lemma TakeSetsOk(job: Job, s: Sys)
    requires Invariant(job, s) && s.phase.Running? && s.chan != []
    ensures SetsOk(job, Take(job, s))
  {
    AbsorbSets(job, s.c, s.chan[0]);
    MoveSetsOk(job, s, Take(job, s), s.chan[0]);
  }

  /** The set changes of one event, apart from everything else that the event changes. */
  lemma MoveSetsOk(job: Job, s: Sys, s': Sys, e: Event)
    requires SetsOk(job, s) && s.phase.Running? && Active(s'.phase)
    requires e.idx in s.pending && (e.TryNext? ==> e.idx in s.c.normal)
    requires s'.c.began == s.c.began && s'.c.launchSeq == s.c.launchSeq
    requires s'.pending == if e.Terminal() then s.pending - {e.idx} else s.pending
    requires s'.c.inFlight == if e.Terminal() then s.c.inFlight - 1 else s.c.inFlight
    requires s'.c.normal == if e.Slow? then s.c.normal else s.c.normal - {e.idx}
    requires s'.c.slow == if e.Slow? then s.c.slow else if e.TryNext? then s.c.slow + {e.idx} else s.c.slow - {e.idx}
    ensures SetsOk(job, s')
  {
    match e
    case TryNext(i) => SlowSets(s.pending, s.c.normal, s.c.slow, i);
    case Slow(_) =>
    case Success(i, _, _) => LandSets(s.pending, s.c.normal, s.c.slow, i);
    case Failure(i, _) => LandSets(s.pending, s.c.normal, s.c.slow, i);
  }

  lemma LandSets(pending: set<nat>, normal: set<nat>, slow: set<nat>, i: nat)
    requires normal + slow == pending && normal !! slow && i in pending
    ensures (normal - {i}) + (slow - {i}) == pending - {i} && (normal - {i}) !! (slow - {i})
    ensures |pending - {i}| == |pending| - 1
  {
  }

  lemma SlowSets(pending: set<nat>, normal: set<nat>, slow: set<nat>, i: nat)
    requires normal + slow == pending && normal !! slow && i in normal
    ensures (normal - {i}) + (slow + {i}) == pending && (normal - {i}) !! (slow + {i})
  {
  }

  lemma TakeOk(job: Job, s: Sys)
    requires Invariant(job, s) && s.phase.Running? && s.chan != []
    ensures Invariant(job, Take(job, s))
  {
    var s' := Take(job, s);
    assert SetsOk(job, s') by { TakeSetsOk(job, s); }
    AbsorbSets(job, s.c, s.chan[0]);
    assert ChannelOk(job, s') by { PopChannelOk(job, s, s'); }
    assert WorkersOk(job, s') by { PopWorkersOk(job, s, s'); }
  }

  lemma LaunchOk(job: Job, s: Sys, i: nat)
    requires Invariant(job, s) && s.phase.Running? && i in Unattempted(job, s.c)
    ensures Invariant(job, LaunchWorker(s, i))
  {
    var s' := LaunchWorker(s, i);
    assert SetsOk(job, s') by {
      LaunchSets(s.pending, s.c.normal, s.c.slow, s.c.began, i);
    }
    assert ChannelOk(job, s') by { LaunchChannelOk(job, s, i); }
    assert WorkersOk(job, s') by {
      TerminalsArePending(job, s);
      LaunchWorkersOk(job, s, i);
    }
  }

  lemma LaunchSets(pending: set<nat>, normal: set<nat>, slow: set<nat>, began: set<nat>, i: nat)
    requires normal + slow == pending <= began && normal !! slow && i !in began
    ensures (normal + {i}) + slow == pending + {i} && (normal + {i}) !! slow
    ensures |pending + {i}| == |pending| + 1 && |began + {i}| == |began| + 1
  {
  }

  lemma TerminalsArePending(job: Job, s: Sys)
    requires ChannelOk(job, s)
    ensures Terminals(s.chan) <= s.pending
  {
  }

  lemma LaunchWorkersOk(job: Job, s: Sys, i: nat)
    requires WorkersOk(job, s) && i < |s.workers| && i !in s.c.began
    requires Terminals(s.chan) <= s.pending <= s.c.began && s.c.slow <= s.c.began
    ensures WorkersOk(job, LaunchWorker(s, i))
  {
  }

  lemma LaunchChannelOk(job: Job, s: Sys, i: nat)
    requires Invariant(job, s) && s.phase.Running? && i in Unattempted(job, s.c)
    ensures ChannelOk(job, LaunchWorker(s, i))
  {
    assert i !in s.pending;
  }

  lemma MaybeLaunchOk(job: Job, s: Sys, e: Event)
    requires Invariant(job, s)
    ensures Invariant(job, MaybeLaunch(job, s, e))
  {
    var next := Candidates(job, s.c);
    if next != {} && s.phase.Running? {
      LaunchOk(job, s, MinOf(next));
    }
  }

  lemma DrainOk(job: Job, s: Sys)
    requires Invariant(job, s) && !s.phase.Running? && s.chan != []
    ensures Invariant(job, Drain(job, s))
  {
    PopChannelOk(job, s, Drain(job, s));
    PopWorkersOk(job, s, Drain(job, s));
  }

  lemma StepOk(job: Job, s: Sys, step: Step)
    requires Invariant(job, s) && Enabled(job, s, step)
    ensures Invariant(job, Apply(job, s, step))
  {
    match step
    case Send(e) => SendOk(job, s, e);
    case Receive =>
      if s.phase.Running? {
        TakeOk(job, s);
        MaybeLaunchOk(job, Take(job, s), s.chan[0]);
      } else {
        DrainOk(job, s);
      }
    case CancelContext =>
    case Return => FinishOk(job, s);
  }

  lemma FinishOk(job: Job, s: Sys)
    requires Invariant(job, s) && Enabled(job, s, Return)
    ensures Invariant(job, Finish(job, s))
  {
    var s' := Finish(job, s);
    TrimKeepsIndices(s.c.q, job.logs, job.sr);
    forall k | 0 <= k < |s'.c.q.indices| ensures s'.c.q.indices[k] < |job.logs| {
      assert s'.c.q.indices[k] in Indices(s'.c.q);
    }
  }

  lemma TrimKeepsIndices(q: Quorum, logs: seq<Log>, sr: Request)
    requires InRange(logs, Indices(q)) && |q.indices| == |q.responses| == |q.scts|
    ensures var q' := T.TrimToQuorum(q, logs, sr);
            Indices(q') <= Indices(q) && |q'.indices| == |q'.responses| == |q'.scts|
  {
    if |q.responses| > sr.scts {
      var c := T.Selection(T.Entries(q, logs), sr);
      T.KeepElements(q.indices, c);
      T.KeepSize(q.indices, c);
      T.KeepSize(q.responses, c);
      T.KeepSize(q.scts, c);
    }
  }
}
