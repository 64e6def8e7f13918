/** The results about whole runs of `submit`. */
module Theorems {
  import opened Logs
  import opened Q = Quorum
  import opened Coordinator
  import opened Machine
  import opened Collection
  import opened Liveness
  import opened Guarantees
  import S = QuorumStates
  import T = Trim

  /** `submit` has returned without a context error. */
  predicate Decided(p: Phase) {
    p.QuorumMissed? || p.QuorumReached?
  }

  /** Every log that succeeded, accepted or discarded, and every eligible log never attempted. */
  ghost function Possible(job: Job, s: Sys): set<nat> {
    Senders(s.arrived) + Unattempted(job, s.c)
  }

  // ---- Failure ----

  /** The verdict in a guaranteed state. */
  lemma VerdictIsRight(job: Job, s: Sys)
    requires ValidJob(job) && Guaranteed(job, s) && Decided(s.phase)
    ensures InRange(job.logs, Possible(job, s))
    ensures s.phase.QuorumMissed? <==> !Satisfies(job.logs, Possible(job, s), job.sr)
  {
    if s.phase.QuorumMissed? {
      MissedIsImpossible(job, s);
    } else {
      SatisfiesMonotone(job.logs, Indices(s.c.q), Possible(job, s), job.sr);
    }
  }

  lemma MissedIsImpossible(job: Job, s: Sys)
    requires ValidJob(job) && Guaranteed(job, s) && s.phase.QuorumMissed?
    requires InRange(job.logs, Possible(job, s))
    ensures !Satisfies(job.logs, Possible(job, s), job.sr)
  {
    var others := Possible(job, s);
    forall i | i in others ensures i in Indices(s.c.q) || !HelpsQuorum(s.c.q, job.sr, job.logs[i]) {
      if i in Senders(s.arrived) {
        var k: nat :| k < |s.arrived| && s.arrived[k].idx == i;
        assert i in Indices(s.c.q) || !HelpsQuorum(s.c.q, job.sr, job.logs[s.arrived[k].idx]);
      }
    }
    UnhelpfulCannotComplete(s.c.q, job.logs, job.sr, others);
    assert Indices(s.c.q) + others == others;
  }

  /**
    Without a context error, every run reports failure exactly when the logs made the quorum
    impossible: all successes together with all untried logs would still miss it.
   */
  lemma FailureIffImpossible(job: Job, states: seq<Sys>, steps: seq<Step>)
    requires ValidJob(job) && Run(job, states, steps) && Decided(states[|steps|].phase)
    ensures InRange(job.logs, Possible(job, states[|steps|]))
    ensures states[|steps|].phase.QuorumMissed? <==> !Satisfies(job.logs, Possible(job, states[|steps|]), job.sr)
  {
    RunGuaranteed(job, states, steps, |steps|);
    VerdictIsRight(job, states[|steps|]);
  }

  // ---- Success ----

  ghost predicate WasSent(steps: seq<Step>, e: Event) {
    exists j :: 0 <= j < |steps| && steps[j] == Send(e)
  }

  /** Every event in the channel or received as a success was sent by its worker earlier in the run. */
  ghost predicate AllSent(s: Sys, steps: seq<Step>) {
    && (forall k | 0 <= k < |s.chan| :: WasSent(steps, s.chan[k]))
    && (forall k | 0 <= k < |s.arrived| :: WasSent(steps, s.arrived[k]))
  }

  lemma SentSnoc(s: Sys, steps: seq<Step>, step: Step)
    requires AllSent(s, steps)
    ensures AllSent(s, steps + [step])
  {
    forall e | WasSent(steps, e) ensures WasSent(steps + [step], e) {
      var j :| 0 <= j < |steps| && steps[j] == Send(e);
      assert (steps + [step])[j] == Send(e);
    }
  }

  lemma StepSends(job: Job, s: Sys, steps: seq<Step>, step: Step, s': Sys)
    requires AllSent(s, steps) && Next(job, s, step, s')
    ensures AllSent(s', steps + [step])
  {
    SentSnoc(s, steps, step);
    assert (steps + [step])[|steps|] == step;
  }

  lemma NothingSent(job: Job)
    ensures AllSent(Init(job), [])
  {
  }

  lemma RunSends(job: Job, states: seq<Sys>, steps: seq<Step>, k: nat)
    requires Run(job, states, steps) && k < |steps| && AllSent(states[k], steps[..k])
    ensures AllSent(states[k + 1], steps[..k + 1])
  {
    RunNext(job, states, steps, k);
    StepSends(job, states[k], steps[..k], steps[k], states[k + 1]);
    assert steps[..k + 1] == steps[..k] + [steps[k]];
  }

  lemma {:induction false} ArrivedWereSent(job: Job, states: seq<Sys>, steps: seq<Step>, k: nat)
    requires Run(job, states, steps) && k < |states|
    ensures AllSent(states[k], steps[..k])
  {
    if k == 0 {
      NothingSent(job);
    } else {
      ArrivedWereSent(job, states, steps, k - 1);
      RunSends(job, states, steps, k - 1);
    }
  }

  // ---- Reasons for failures ----

  /** A member that is marked as failed has the reason that its worker reported. */
  ghost predicate ReasonSent(o: Outcome, steps: seq<Step>, i: nat) {
    o.Failed? ==> WasSent(steps, Failure(i, o.reason))
  }

  ghost predicate ReasonsSent(job: Job, s: Sys, steps: seq<Step>) {
    forall i | i in Eligible(job.logs) :: i < |s.c.outcome| && ReasonSent(s.c.outcome[i], steps, i)
  }

  /** A failed member was failed before, or has the reason of the event that is received. */
  ghost predicate ReasonFrom(s: Sys, s': Sys, i: nat)
    requires i < |s.c.outcome| == |s'.c.outcome|
  {
    var o := s'.c.outcome[i];
    o.Failed? ==> o == s.c.outcome[i] || (s.chan != [] && s.chan[0] == Failure(i, o.reason))
  }

  lemma ReceiptReason(job: Job, s: Sys, i: nat)
    requires Shape(job, s) && Enabled(job, s, Receive) && i < |job.logs|
    ensures |Apply(job, s, Receive).c.outcome| == |job.logs| && ReasonFrom(s, Apply(job, s, Receive), i)
  {
    if s.phase.Running? {
      assert Apply(job, s, Receive).c.outcome == Take(job, s).c.outcome;
    }
  }

  /** Trimming marks members as not needed, and no others. */
  lemma {:induction false} DroppedHaveNotFailed(outcome: seq<Outcome>, indices: seq<nat>, c: set<nat>, i: nat)
    requires i < |outcome| && forall k | 0 <= k < |indices| :: indices[k] < |outcome|
    ensures S.MarkDropped(outcome, indices, c)[i] in {outcome[i], NotNeeded}
  {
    if indices != [] {
      DroppedHaveNotFailed(outcome, indices[..|indices| - 1], c, i);
    }
  }

  lemma ReturnReason(job: Job, s: Sys, i: nat)
    requires Shape(job, s) && Enabled(job, s, Return) && i < |job.logs|
    ensures |Apply(job, s, Return).c.outcome| == |job.logs| && ReasonFrom(s, Apply(job, s, Return), i)
  {
    var q := s.c.q;
    DroppedHaveNotFailed(s.c.outcome, q.indices, T.Selection(T.Entries(q, job.logs), job.sr), i);
  }

  lemma StepReason(job: Job, s: Sys, steps: seq<Step>, step: Step, s': Sys, i: nat)
    requires AllSent(s, steps) && Next(job, s, step, s') && i < |job.logs| && ReasonSent(s.c.outcome[i], steps, i)
    ensures |s'.c.outcome| == |job.logs| && ReasonSent(s'.c.outcome[i], steps + [step], i)
  {
    match step {
      case Receive => ReceiptReason(job, s, i);
      case Return => ReturnReason(job, s, i);
      case Send(_) =>
      case CancelContext =>
    }
    SentSnoc(s, steps, step);
    if s'.c.outcome[i].Failed? {
      var e := Failure(i, s'.c.outcome[i].reason);
      assert WasSent(steps, e);
      var j :| 0 <= j < |steps| && steps[j] == Send(e);
      assert (steps + [step])[j] == Send(e);
    }
  }

  /** In every state of every run, an eligible member is marked as failed only with the reason its worker sent. */
  lemma {:induction false} FailedAsReported(job: Job, states: seq<Sys>, steps: seq<Step>, k: nat)
    requires ValidJob(job) && Run(job, states, steps) && k < |states|
    ensures ReasonsSent(job, states[k], steps[..k])
  {
    if k == 0 {
      InitialBatchCovers(job);
    } else {
      FailedAsReported(job, states, steps, k - 1);
      ArrivedWereSent(job, states, steps, k - 1);
      RunNext(job, states, steps, k - 1);
      assert steps[..k] == steps[..k - 1] + [steps[k - 1]];
      forall i | i in Eligible(job.logs)
        ensures i < |states[k].c.outcome| && ReasonSent(states[k].c.outcome[i], steps[..k], i)
      {
        StepReason(job, states[k - 1], steps[..k - 1], steps[k - 1], states[k], i);
      }
    }
  }

  /** Each delivered entry is one of the success events that arrived. */
  lemma {:induction false} DeliveredArrived(arrived: seq<Event>, ids: set<nat>)
    ensures forall e | e in FilterBy(arrived, ids) :: e in arrived && e.idx in ids
  {
    if arrived != [] {
      DeliveredArrived(arrived[..|arrived| - 1], ids);
    }
  }

  /**
    What a successful call returns: what trimming leaves of the collected successes. Entry k of both lists is
    the reply that log `indices[k]` sent; the logs are distinct, launched, in order of arrival, and satisfy the
    policy; and their number is exact.
   */
  ghost predicate Returns(job: Job, s: Sys, steps: seq<Step>, responses: seq<Response>, scts: seq<Sct>) {
    var indices := s.c.q.indices;
    && |responses| == |scts| == |indices|
    && Distinct(indices) && Elements(indices) <= s.c.began <= Eligible(job.logs)
    && TrimmedFrom(job, s.c.q, Collect(job.logs, job.sr, s.arrived))
    && (forall k | 0 <= k < |indices| :: WasSent(steps, Success(indices[k], responses[k], scts[k])))
    && ZipLists(indices, responses, scts) == FilterBy(s.arrived, Elements(indices))
    && InRange(job.logs, Elements(indices)) && Satisfies(job.logs, Elements(indices), job.sr)
    && InRange(job.logs, Senders(s.arrived))
    && (job.sr.preferStatic && HasType(job.logs, Senders(s.arrived), Static) ==>
          HasType(job.logs, Elements(indices), Static))
    && |scts| == if KeepsTwo(job, s.arrived) then 2 else job.sr.scts
  }

  lemma EntryWasSent(job: Job, s: Sys, steps: seq<Step>, k: nat)
    requires Delivered(job, s.c.q, s.arrived) && AllSent(s, steps) && k < |s.c.q.indices|
    ensures WasSent(steps, Success(s.c.q.indices[k], s.c.q.responses[k], s.c.q.scts[k]))
  {
    var e := Zip(s.c.q)[k];
    assert e in FilterBy(s.arrived, Indices(s.c.q));
    DeliveredArrived(s.arrived, Indices(s.c.q));
    var j :| 0 <= j < |s.arrived| && s.arrived[j] == e;
  }

  /** Every run that reaches quorum delivers the replies of distinct logs that satisfy the policy. */
  lemma SuccessDelivers(job: Job, states: seq<Sys>, steps: seq<Step>)
    requires ValidJob(job) && Run(job, states, steps) && states[|steps|].phase.QuorumReached?
    ensures var s := states[|steps|]; Returns(job, s, steps, s.c.q.responses, s.c.q.scts)
  {
    var s := states[|steps|];
    RunGuaranteed(job, states, steps, |steps|);
    ArrivedWereSent(job, states, steps, |steps|);
    assert steps[..|steps|] == steps;
    forall k | 0 <= k < |s.c.q.indices|
      ensures WasSent(steps, Success(s.c.q.indices[k], s.c.q.responses[k], s.c.q.scts[k]))
    {
      EntryWasSent(job, s, steps, k);
    }
  }

  // ---- Outcomes ----

  /** What the outcome of an eligible member says about its log. */
  ghost predicate Accounted(job: Job, s: Sys, i: nat) {
    i < |s.c.outcome| &&
    var o := s.c.outcome[i];
    && o != NoOutcome
    && (o == Successful <==> i in Indices(s.c.q))
    && (o == NotNeeded <==> i in Indices(Collect(job.logs, job.sr, s.arrived)) - Indices(s.c.q))
    && (o == NotHelping <==> i in Senders(s.arrived) - Indices(Collect(job.logs, job.sr, s.arrived)))
    && (o == CancelledQuorumMet <==> i in s.c.normal + s.c.slow)
    && (o.Failed? <==> i in s.c.began - Senders(s.arrived) - (s.c.normal + s.c.slow))
    && (o == NotAttempted <==> i !in s.c.began)
  }

  /** The sets that the outcomes are read off from, from the delivered entries to the launched members. */
  lemma DecidedSets(job: Job, s: Sys)
    requires Guaranteed(job, s) && Decided(s.phase)
    ensures Indices(s.c.q) <= Indices(Collect(job.logs, job.sr, s.arrived)) <= Senders(s.arrived) <= s.c.began
    ensures Senders(s.arrived) !! s.c.normal + s.c.slow && s.c.normal + s.c.slow <= s.c.began
  {
    CollectFrom(job.logs, job.sr, s.arrived);
  }

  lemma SettledIsAccounted(job: Job, s: Sys, i: nat)
    requires Indices(s.c.q) <= Indices(Collect(job.logs, job.sr, s.arrived)) <= Senders(s.arrived) <= s.c.began
    requires Senders(s.arrived) !! s.c.normal + s.c.slow && s.c.normal + s.c.slow <= s.c.began
    requires i < |s.c.outcome| && Settled(job, s, i)
    ensures Accounted(job, s, i)
  {
  }

  /**
    When a run returns without a context error, every eligible member has an outcome, and the outcomes
    split the members exactly: behind a returned SCT; collected but trimmed; succeeded but discarded;
    cancelled because the quorum was met; failed; never attempted.
   */
  lemma OutcomesAccountForAll(job: Job, states: seq<Sys>, steps: seq<Step>)
    requires ValidJob(job) && Run(job, states, steps) && Decided(states[|steps|].phase)
    ensures var s := states[|steps|];
            forall i | i in Eligible(job.logs) :: Accounted(job, s, i)
  {
    RunGuaranteed(job, states, steps, |steps|);
    var s := states[|steps|];
    DecidedSets(job, s);
    forall i | i in Eligible(job.logs) ensures Accounted(job, s, i) {
      assert Settled(job, s, i);
      SettledIsAccounted(job, s, i);
    }
  }

  /** A success is marked as not helping exactly if it did not help what had been collected when it arrived. */
  lemma DiscardedDidNotHelp(job: Job, states: seq<Sys>, steps: seq<Step>, k: nat)
    requires ValidJob(job) && Run(job, states, steps) && Decided(states[|steps|].phase)
    requires k < |states[|steps|].arrived|
    ensures var s, e := states[|steps|], states[|steps|].arrived[k];
            && e.idx < |job.logs| == |s.c.outcome|
            && (s.c.outcome[e.idx] == NotHelping <==>
                  !HelpsQuorum(Collect(job.logs, job.sr, s.arrived[..k]), job.sr, job.logs[e.idx]))
  {
    var s := states[|steps|];
    RunGuaranteed(job, states, steps, |steps|);
    forall j | 0 <= j < |s.arrived| ensures s.arrived[j].idx < |job.logs| {
      assert s.arrived[j].idx in Senders(s.arrived);
    }
    KeptIfItHelped(job.logs, job.sr, s.arrived, k);
    assert s.arrived[k].idx in Senders(s.arrived);
    ArrivedIsAccounted(job, s, s.arrived[k].idx);
  }

  lemma ArrivedIsAccounted(job: Job, s: Sys, i: nat)
    requires Guaranteed(job, s) && Decided(s.phase) && i in Senders(s.arrived)
    ensures i < |s.c.outcome| && Accounted(job, s, i)
  {
    DecidedSets(job, s);
    assert i in Eligible(job.logs) && Settled(job, s, i);
    SettledIsAccounted(job, s, i);
  }

  // ---- The bound on what is held ----

  /**
    In every state of every run, while events are handled or a quorum is being drained, at most SCTs +
    operators responses are held; and between events of the main loop the quorum is never met, so that
    the re-check after the loop cannot find it.
   */
  lemma CollectionBound(job: Job, states: seq<Sys>, steps: seq<Step>, k: nat)
    requires ValidJob(job) && Run(job, states, steps) && k < |states|
    ensures states[k].phase.Running? || states[k].phase.DrainingQuorum? ==>
              |states[k].c.q.responses| <= job.sr.scts + job.sr.operators
    ensures states[k].phase.Running? ==> !IsQuorumMet(states[k].c.q, job.sr)
  {
    RunGuaranteed(job, states, steps, k);
    var s := states[k];
    if s.phase.Running? || s.phase.DrainingQuorum? {
      CollectionIsBounded(job.logs, job.sr, s.c.q, s.arrived);
    }
  }

  /**
    Every run without a context error either can go on, or has ended with the channel empty and
    the right verdict. Together with the bound on its length: every maximal run decides.
   */
  lemma EveryRunDecides(job: Job, states: seq<Sys>, steps: seq<Step>)
    requires ValidJob(job) && Run(job, states, steps)
    ensures var s := states[|steps|];
            && Invariant(job, s)
            && |steps| <= 6 * |Eligible(job.logs)| + 2
            && (Active(s.phase) ==> exists step :: Enabled(job, s, step) && step != CancelContext)
            && (!Active(s.phase) ==> s.chan == [])
            && (Decided(s.phase) ==>
                  && InRange(job.logs, Possible(job, s))
                  && (s.phase.QuorumReached? <==> Satisfies(job.logs, Possible(job, s), job.sr)))
  {
    var s := states[|steps|];
    RunGuaranteed(job, states, steps, |steps|);
    RunsAreBounded(job, states, steps);
    if Active(s.phase) {
      var step := NeverStuck(job, s, {});
    } else {
      ReturnLeavesNothing(job, s);
      if Decided(s.phase) {
        VerdictIsRight(job, s);
      }
    }
  }
}
