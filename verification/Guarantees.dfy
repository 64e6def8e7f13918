/** What `submit` guarantees on every run: quorum, failure and outcome accounting. */
module Guarantees {
  import opened Logs
  import opened Finite
  import opened Q = Quorum
  import opened Coordinator
  import opened Machine
  import opened Collection
  import opened Liveness
  import T = Trim

  predicate Collecting(p: Phase) {
    p.Running? || p.DrainingQuorum? || p.QuorumMissed?
  }

  ghost predicate CollectOk(job: Job, s: Sys) {
    Collecting(s.phase) ==>
      && Collected(job.logs, job.sr, s.c.q, s.arrived)
      && s.c.q == Collect(job.logs, job.sr, s.arrived)
      && Senders(s.arrived) <= s.c.began
      && Senders(s.arrived) !! (s.c.normal + s.c.slow)
      && (s.phase.DrainingQuorum? <==> IsQuorumMet(s.c.q, job.sr))
  }

  /** The main loop only runs dry when no unattempted log could help. */
  ghost predicate ExhaustedOk(job: Job, s: Sys) {
    (s.phase.Running? && s.c.inFlight <= 0) || s.phase.QuorumMissed? ==>
      forall i | i in Unattempted(job, s.c) :: !HelpsQuorum(s.c.q, job.sr, job.logs[i])
  }

  /** The outcome `o` of member `i` while events are being collected. */
  ghost predicate BookedAs(o: Outcome, initial: Outcome, i: nat, running: bool,
                           began: set<nat>, live: set<nat>, accepted: set<nat>, senders: set<nat>) {
    if i !in began then o == initial
    else if i in live then o == if running then NoOutcome else CancelledQuorumMet
    else if i in accepted then o == Successful
    else if i in senders then o == NotHelping
    else o.Failed?
  }

  ghost predicate Booked(job: Job, s: Sys, i: nat)
    requires i < |job.logs| == |s.c.outcome| == |job.initial|
  {
    BookedAs(s.c.outcome[i], job.initial[i], i, s.phase.Running?,
             s.c.began, s.c.normal + s.c.slow, Indices(s.c.q), Senders(s.arrived))
  }

  /** The outcome of member `i` once `submit` has returned without a context error. */
  ghost predicate Settled(job: Job, s: Sys, i: nat)
    requires i < |s.c.outcome|
  {
    var o := s.c.outcome[i];
    if i !in s.c.began then o == NotAttempted
    else if i in s.c.normal + s.c.slow then o == CancelledQuorumMet
    else if i in Indices(s.c.q) then o == Successful
    else if i in Indices(Collect(job.logs, job.sr, s.arrived)) then o == NotNeeded
    else if i in Senders(s.arrived) then o == NotHelping
    else o.Failed?
  }

  ghost predicate LedgerOk(job: Job, s: Sys)
    requires |job.logs| == |s.c.outcome| == |job.initial|
  {
    && (s.phase.Running? || s.phase.DrainingQuorum? ==> forall i: nat | i < |job.logs| :: Booked(job, s, i))
    && (s.phase.QuorumMissed? || s.phase.QuorumReached? ==> forall i | i in Eligible(job.logs) :: Settled(job, s, i))
    && (s.phase.DrainingContext? ==>
          forall i | i in s.c.began - s.pending :: i < |s.c.outcome| && s.c.outcome[i] != NoOutcome)
    && (s.phase.ContextError? ==> forall i | i in Eligible(job.logs) :: s.c.outcome[i] != NoOutcome)
  }

  /** The value returned on success. */
  ghost predicate ReachedOk(job: Job, s: Sys) {
    s.phase.QuorumReached? ==>
      && Delivered(job, s.c.q, s.arrived)
      && TrimmedFrom(job, s.c.q, Collect(job.logs, job.sr, s.arrived))
      && Senders(s.arrived) <= s.c.began
      && Senders(s.arrived) !! (s.c.normal + s.c.slow)
  }

  /** The delivery is what trimming leaves of the collected successes: those that have to be kept. */
  ghost predicate TrimmedFrom(job: Job, q: Quorum, collected: Quorum) {
    && InRange(job.logs, Indices(collected))
    && q == T.TrimToQuorum(collected, job.logs, job.sr) && Indices(q) <= Indices(collected)
    && T.TrimsRight(collected, q, job.logs, job.sr)
  }

  ghost predicate Delivered(job: Job, q: Quorum, arrived: seq<Event>) {
    && |q.indices| == |q.responses| == |q.scts|
    && Distinct(q.indices)
    && DistinctSuccesses(arrived) && InRange(job.logs, Senders(arrived))
    && Indices(q) <= Senders(arrived)
    && Zip(q) == FilterBy(arrived, Indices(q))
    && Satisfies(job.logs, Indices(q), job.sr)
    && (job.sr.preferStatic && HasType(job.logs, Senders(arrived), Static) ==> HasType(job.logs, Indices(q), Static))
    && (|q.indices| == if KeepsTwo(job, arrived) then 2 else job.sr.scts)
  }

  /** One SCT was requested, of both types, and a Static one arrived: the only case in which two are delivered. */
  ghost predicate KeepsTwo(job: Job, arrived: seq<Event>)
    requires InRange(job.logs, Senders(arrived))
  {
    && job.sr.scts == 1 && job.sr.requireRFC6962 && job.sr.preferStatic
    && HasType(job.logs, Senders(arrived), Static)
  }

  ghost predicate Promises(job: Job, s: Sys) {
    && Shape(job, s)
    && |job.initial| == |job.logs|
    && CollectOk(job, s)
    && ExhaustedOk(job, s)
    && LedgerOk(job, s)
    && ReachedOk(job, s)
  }

  ghost predicate Guaranteed(job: Job, s: Sys) {
    Invariant(job, s) && Promises(job, s)
  }

  lemma InitGuaranteed(job: Job)
    requires ValidJob(job)
    ensures Guaranteed(job, Init(job))
  {
    InitOk(job);
    InitialBatchCovers(job);
    NothingCollected(job.logs, job.sr);
    forall i: nat | i < |job.logs| ensures Booked(job, Init(job), i) {
      assert i in Init(job).c.began ==> i in Eligible(job.logs);
    }
  }

  lemma NothingCollected(logs: seq<Log>, sr: Request)
    requires 1 <= sr.operators <= sr.scts
    ensures Senders([]) == {} && Indices(EMPTY) == {} && !IsQuorumMet(EMPTY, sr)
    ensures Collected(logs, sr, EMPTY, [])
  {
    assert Operators(logs, {}) == {};
  }

  // ---- The main loop ----

  lemma HeadIsInFlight(job: Job, s: Sys)
    requires Invariant(job, s) && s.phase.Running? && s.chan != []
    ensures var e := s.chan[0];
            && e.idx in s.c.normal + s.c.slow && e.idx in s.c.began && e.idx < |job.logs|
            && (e.TryNext? ==> e.idx in s.c.normal) && s.c.normal !! s.c.slow
  {
    assert s.chan[0].idx in s.pending;
  }

  /** Only the log of a terminal event leaves the in-flight sets. */
  lemma TakeEffect(job: Job, s: Sys)
    requires Invariant(job, s) && s.phase.Running? && s.chan != []
    ensures var e, c, c' := s.chan[0], s.c, Take(job, s).c;
            && e.idx in c.normal + c.slow && e.idx in c.began && e.idx < |job.logs|
            && c'.began == c.began
            && c'.normal + c'.slow == (if e.Terminal() then c.normal + c.slow - {e.idx} else c.normal + c.slow)
            && c'.q == Absorbed(job.logs, job.sr, c.q, e)
  {
    HeadIsInFlight(job, s);
    AbsorbInFlight(job, s.c, s.chan[0]);
  }

  lemma AbsorbInFlight(job: Job, c: Coord, e: Event)
    requires e.idx < |job.logs| == |c.outcome| && c.normal !! c.slow && e.idx in c.normal + c.slow
    requires e.TryNext? ==> e.idx in c.normal
    ensures var c' := Absorb(job, c, e);
            && c'.began == c.began
            && c'.normal + c'.slow == (if e.Terminal() then c.normal + c.slow - {e.idx} else c.normal + c.slow)
            && c'.q == Absorbed(job.logs, job.sr, c.q, e)
  {
    AbsorbSets(job, c, e);
  }

  lemma TakeCollectOk(job: Job, s: Sys)
    requires Invariant(job, s) && s.phase.Running? && s.chan != []
    requires ValidJob(job) && CollectOk(job, s)
    ensures CollectOk(job, Take(job, s))
  {
    TakeEffect(job, s);
    CollectAfter(job, s, Take(job, s));
  }

  lemma CollectAfter(job: Job, s: Sys, s': Sys)
    requires 1 <= job.sr.operators <= job.sr.scts && s.phase.Running? && s.chan != [] && CollectOk(job, s)
    requires var e, live := s.chan[0], s.c.normal + s.c.slow;
            && e.idx in live && e.idx in s.c.began && e.idx < |job.logs|
            && s'.c.normal + s'.c.slow == (if e.Terminal() then live - {e.idx} else live)
            && s'.c.q == Absorbed(job.logs, job.sr, s.c.q, e) && s'.arrived == Arrived(s.arrived, e)
            && s'.phase == if e.Success? && IsQuorumMet(s'.c.q, job.sr) then DrainingQuorum else Running
    requires s'.c.began == s.c.began
    ensures CollectOk(job, s')
  {
    CollectEvent(job.logs, job.sr, s.c.q, s.arrived, s.chan[0]);
    CollectNext(job.logs, job.sr, s.arrived, s.chan[0]);
    EventSets(job.logs, job.sr, s.c.q, s.arrived, s.chan[0]);
  }

  lemma AbsorbOutcome(job: Job, c: Coord, e: Event, i: nat)
    requires e.idx < |job.logs| == |c.outcome| && i < |c.outcome|
    ensures var c' := Absorb(job, c, e);
            c'.outcome[i] ==
              if e.Success? && IsQuorumMet(c'.q, job.sr) && i in c'.normal + c'.slow then CancelledQuorumMet
              else if i == e.idx && e.Success? then
                (if HelpsQuorum(c.q, job.sr, job.logs[i]) then Successful else NotHelping)
              else if i == e.idx && e.Failure? then Failed(e.reason)
              else c.outcome[i]
  {
  }

  lemma TakeLedgerOk(job: Job, s: Sys)
    requires Invariant(job, s) && s.phase.Running? && s.chan != []
    requires ValidJob(job) && CollectOk(job, s) && LedgerOk(job, s)
    ensures LedgerOk(job, Take(job, s))
  {
    TakeEffect(job, s);
    EventSets(job.logs, job.sr, s.c.q, s.arrived, s.chan[0]);
    forall i: nat | i < |job.logs| ensures Booked(job, Take(job, s), i) {
      TakeBooked(job, s, i);
    }
  }

  lemma TakeBooked(job: Job, s: Sys, i: nat)
    requires Shape(job, s) && s.phase.Running? && s.chan != [] && i < |job.logs| == |job.initial|
    requires var e, c, c' := s.chan[0], s.c, Take(job, s).c;
            && e.idx in c.normal + c.slow && e.idx in c.began
            && c'.began == c.began
            && c'.normal + c'.slow == (if e.Terminal() then c.normal + c.slow - {e.idx} else c.normal + c.slow)
            && Senders(Arrived(s.arrived, e)) == Senders(s.arrived) + (if e.Success? then {e.idx} else {})
            && Indices(c'.q) == Indices(c.q) + if e.Success?
                  && HelpsQuorum(c.q, job.sr, job.logs[e.idx]) then {e.idx} else {}
    requires Senders(s.arrived) !! (s.c.normal + s.c.slow) && Indices(s.c.q) <= Senders(s.arrived)
    requires s.c.normal + s.c.slow <= s.c.began
    requires Booked(job, s, i)
    ensures Booked(job, Take(job, s), i)
  {
    AbsorbOutcome(job, s.c, s.chan[0], i);
  }

  /** After a receipt that empties the in-flight sets, either a log is launched or none helps. */
  lemma LoopExhausted(job: Job, s: Sys, e: Event)
    requires Invariant(job, s) && s.phase.Running? && !IsQuorumMet(s.c.q, job.sr)
    requires s.c.inFlight > 0 || e.Terminal()
    ensures ExhaustedOk(job, MaybeLaunch(job, s, e))
  {
    if s.c.inFlight <= 0 {
      assert s.pending == {} && s.c.normal == {};
      assert LaunchesAfter(job, s.c, e);
      if Candidates(job, s.c) == {} {
        NoCandidateHelps(job, s.c);
      }
    }
  }

  /** A receipt leaves the main loop's promises in place, before the coordinator may launch another log. */
  lemma TakeGuaranteed(job: Job, s: Sys)
    requires ValidJob(job) && Guaranteed(job, s) && s.phase.Running? && s.chan != []
    ensures var s1 := Take(job, s);
            && Invariant(job, s1) && Shape(job, s1) && CollectOk(job, s1) && LedgerOk(job, s1)
            && (s1.phase.Running? ==> s1.c.inFlight > 0 || s.chan[0].Terminal())
            && (!s1.phase.Running? ==> s1.phase.DrainingQuorum?)
  {
    TakeOk(job, s);
    TakeCollectOk(job, s);
    TakeLedgerOk(job, s);
    AbsorbSets(job, s.c, s.chan[0]);
  }

  lemma ReceiveGuaranteed(job: Job, s: Sys)
    requires ValidJob(job) && Guaranteed(job, s) && s.phase.Running? && Enabled(job, s, Receive)
    ensures Guaranteed(job, Apply(job, s, Receive))
  {
    TakeGuaranteed(job, s);
    var s1, e := Take(job, s), s.chan[0];
    if s1.phase.Running? {
      LoopExhausted(job, s1, e);
      LaunchKeeps(job, s1, e);
    }
  }

  /** Launching touches neither what was collected nor any settled outcome. */
  lemma LaunchKeeps(job: Job, s: Sys, e: Event)
    requires ValidJob(job) && Invariant(job, s) && s.phase.Running? && CollectOk(job, s) && LedgerOk(job, s)
    requires ExhaustedOk(job, MaybeLaunch(job, s, e))
    ensures Guaranteed(job, MaybeLaunch(job, s, e))
  {
    MaybeLaunchOk(job, s, e);
    var next := Candidates(job, s.c);
    if LaunchesAfter(job, s.c, e) && next != {} {
      LaunchLedgerOk(job, s, MinOf(next));
    }
  }

  lemma LaunchLedgerOk(job: Job, s: Sys, i: nat)
    requires ValidJob(job) && Invariant(job, s) && s.phase.Running? && CollectOk(job, s) && LedgerOk(job, s)
    requires i in Unattempted(job, s.c)
    ensures LedgerOk(job, LaunchWorker(s, i)) && CollectOk(job, LaunchWorker(s, i))
  {
    assert Booked(job, s, i);
    forall j: nat | j < |job.logs| ensures Booked(job, LaunchWorker(s, i), j) {
      assert Booked(job, s, j);
    }
  }

  // ---- The drain loops and the returns ----

  lemma DrainGuaranteed(job: Job, s: Sys)
    requires ValidJob(job) && Guaranteed(job, s) && !s.phase.Running? && Enabled(job, s, Receive)
    ensures Guaranteed(job, Apply(job, s, Receive))
  {
    DrainOk(job, s);
    var s' := Drain(job, s);
    if s.phase.DrainingQuorum? {
      forall i: nat | i < |job.logs| ensures Booked(job, s', i) {
        assert Booked(job, s, i);
      }
    }
  }

  lemma CancelGuaranteed(job: Job, s: Sys)
    requires ValidJob(job) && Guaranteed(job, s) && Enabled(job, s, CancelContext)
    ensures Guaranteed(job, Apply(job, s, CancelContext))
  {
    StepOk(job, s, CancelContext);
    forall i | i in s.c.began - s.pending ensures s.c.outcome[i] != NoOutcome {
      assert i < |job.logs|;
      assert Booked(job, s, i);
    }
  }

  lemma FinishSettlesOne(job: Job, s: Sys, i: nat)
    requires ValidJob(job) && Guaranteed(job, s) && Enabled(job, s, Return) && !s.phase.DrainingContext?
    requires i in Eligible(job.logs)
    ensures i < |Finish(job, s).c.outcome| && Settled(job, Finish(job, s), i)
  {
    assert s.pending == {};
    assert Booked(job, s, i);
    FinishSettles(job, s, i);
  }

  lemma FinishLedgerOk(job: Job, s: Sys)
    requires ValidJob(job) && Guaranteed(job, s) && Enabled(job, s, Return)
    ensures LedgerOk(job, Finish(job, s))
  {
    assert s.pending == {};
    if !s.phase.DrainingContext? {
      forall i | i in Eligible(job.logs) ensures Settled(job, Finish(job, s), i) {
        FinishSettlesOne(job, s, i);
      }
    }
  }

  /** Trimming and annotating turn the running outcome of an eligible member into its final one. */
  lemma FinishSettles(job: Job, s: Sys, i: nat)
    requires Shape(job, s) && |job.initial| == |job.logs| && i in Eligible(job.logs)
    requires (s.phase.Running? && !IsQuorumMet(s.c.q, job.sr)) || s.phase.DrainingQuorum?
    requires Valid(s.c.q, job.logs) && Indices(s.c.q) <= Senders(s.arrived) <= s.c.began
    requires Senders(s.arrived) !! s.c.normal + s.c.slow
    requires s.phase.Running? ==> s.c.normal + s.c.slow == {}
    requires Booked(job, s, i) && job.initial[i] == NoOutcome && s.c.q == Collect(job.logs, job.sr, s.arrived)
    ensures Settled(job, Finish(job, s), i)
  {
    if s.phase.DrainingQuorum? {
      TrimMarksDropped(s.c.outcome, s.c.q, job.logs, job.sr, i);
      TrimKeepsIndices(s.c.q, job.logs, job.sr);
    }
  }

  lemma FinishGuaranteed(job: Job, s: Sys)
    requires ValidJob(job) && Guaranteed(job, s) && Enabled(job, s, Return)
    ensures Guaranteed(job, Finish(job, s))
  {
    FinishOk(job, s);
    FinishLedgerOk(job, s);
    if s.phase.DrainingQuorum? {
      TrimDelivers(job, s.c.q, s.arrived);
      T.TrimIsRight(s.c.q, job.logs, job.sr);
      TrimKeepsIndices(s.c.q, job.logs, job.sr);
    }
  }

  lemma TrimDelivers(job: Job, q: Quorum, arrived: seq<Event>)
    requires ValidJob(job) && Collected(job.logs, job.sr, q, arrived) && IsQuorumMet(q, job.sr)
    ensures Delivered(job, T.TrimToQuorum(q, job.logs, job.sr), arrived)
  {
    TrimYieldsQuorum(job, q);
    TrimKeepsOrder(job.logs, job.sr, q, arrived);
    if job.sr.preferStatic {
      StaticWasKept(job, q, arrived);
    }
  }

  lemma TrimYieldsQuorum(job: Job, q: Quorum)
    requires ValidJob(job) && Valid(q, job.logs) && IsQuorumMet(q, job.sr)
    ensures var q' := T.TrimToQuorum(q, job.logs, job.sr);
            && Distinct(q'.indices) && Indices(q') <= Indices(q) && q'.hasStatic == q.hasStatic
            && Satisfies(job.logs, Indices(q'), job.sr)
            && (job.sr.preferStatic && q.hasStatic ==> HasType(job.logs, Indices(q'), Static))
            && (|q'.indices| ==
                  if job.sr.scts == 1 && job.sr.requireRFC6962 && job.sr.preferStatic && q.hasStatic then 2
                  else job.sr.scts)
  {
    T.TrimmedIsQuorum(q, job.logs, job.sr);
  }

  /** A Static success is never discarded while Static is preferred and none was collected. */
  lemma StaticWasKept(job: Job, q: Quorum, arrived: seq<Event>)
    requires Collected(job.logs, job.sr, q, arrived) && job.sr.preferStatic
    ensures q.hasStatic <==> HasType(job.logs, Senders(arrived), Static)
  {
    if HasType(job.logs, Senders(arrived), Static) {
      var i :| i in Senders(arrived) && job.logs[i].logType == Static;
      var k: nat :| k < |arrived| && arrived[k].idx == i;
    }
  }

  lemma StepGuaranteed(job: Job, s: Sys, step: Step)
    requires ValidJob(job) && Guaranteed(job, s) && Enabled(job, s, step)
    ensures Guaranteed(job, Apply(job, s, step))
  {
    match step
    case Send(e) => SendGuaranteed(job, s, e);
    case Receive =>
      if s.phase.Running? { ReceiveGuaranteed(job, s); } else { DrainGuaranteed(job, s); }
    case CancelContext => CancelGuaranteed(job, s);
    case Return => FinishGuaranteed(job, s);
  }

  lemma SendGuaranteed(job: Job, s: Sys, e: Event)
    requires ValidJob(job) && Guaranteed(job, s) && Enabled(job, s, Send(e))
    ensures Guaranteed(job, Apply(job, s, Send(e)))
  {
    SendOk(job, s, e);
    forall i: nat | i < |job.logs| && Booked(job, s, i) ensures Booked(job, Apply(job, s, Send(e)), i) {}
  }

  lemma NextGuaranteed(job: Job, s: Sys, step: Step, s': Sys)
    requires ValidJob(job) && Guaranteed(job, s) && Next(job, s, step, s')
    ensures Guaranteed(job, s')
  {
    StepGuaranteed(job, s, step);
  }

  /** Every state of every run is guaranteed. */
  lemma RunGuaranteed(job: Job, states: seq<Sys>, steps: seq<Step>, k: nat)
    requires ValidJob(job) && Run(job, states, steps) && k < |states|
    ensures Guaranteed(job, states[k])
  {
    InitGuaranteed(job);
    forall s, step, s' | Guaranteed(job, s) && Next(job, s, step, s') ensures Guaranteed(job, s') {
      NextGuaranteed(job, s, step, s');
    }
    RunInduction(job, states, steps, k, s => Guaranteed(job, s), (s, step) => true);
  }
}
