/**
  The verdict does not depend on the schedule: once it is fixed which logs would succeed, every
  order of events and every timer leads to the same one.
 */
module Schedules {
  import opened Logs
  import opened Finite
  import opened Q = Quorum
  import opened Coordinator
  import opened Machine
  import opened Collection
  import opened Liveness
  import opened Guarantees
  import opened Theorems

  /** The step neither cancels the context nor, while the main loop runs, lets a log reply other than `good` says. */
  ghost predicate Obeys(good: set<nat>, s: Sys, step: Step) {
    && step != CancelContext
    && (step.Send? && s.phase.Running? && step.e.Terminal() ==> (step.e.Success? <==> step.e.idx in good))
  }

  ghost predicate Replies(good: set<nat>, states: seq<Sys>, steps: seq<Step>)
    requires |states| == |steps| + 1
  {
    forall k | 0 <= k < |steps| :: Obeys(good, states[k], steps[k])
  }

  /** What is on its way, and what was received, is as `good` says. */
  ghost predicate AsPlanned(good: set<nat>, s: Sys) {
    && !s.phase.DrainingContext? && !s.phase.ContextError?
    && Senders(s.arrived) <= good
    && (s.phase.Running? ==>
          forall k | 0 <= k < |s.chan| :: s.chan[k].Terminal() ==> (s.chan[k].Success? <==> s.chan[k].idx in good))
    && (s.phase.Running? || s.phase.QuorumMissed? ==> good * (s.c.began - s.pending) <= Senders(s.arrived))
  }

  lemma TakeAsPlanned(job: Job, good: set<nat>, s: Sys)
    requires Shape(job, s) && s.phase.Running? && AsPlanned(good, s) && s.chan != []
    ensures AsPlanned(good, Take(job, s))
  {
    var e := s.chan[0];
    EventSets(job.logs, job.sr, s.c.q, s.arrived, e);
    AbsorbSets(job, s.c, e);
    assert forall k | 0 <= k < |s.chan| - 1 :: s.chan[1..][k] == s.chan[k + 1];
  }

  lemma LaunchAsPlanned(job: Job, good: set<nat>, s: Sys, e: Event)
    requires Shape(job, s) && AsPlanned(good, s)
    ensures AsPlanned(good, MaybeLaunch(job, s, e))
  {
  }

  lemma StepAsPlanned(job: Job, good: set<nat>, s: Sys, step: Step, s': Sys)
    requires AsPlanned(good, s) && Next(job, s, step, s') && Obeys(good, s, step)
    ensures AsPlanned(good, s')
  {
    if step.Receive? && s.phase.Running? {
      TakeAsPlanned(job, good, s);
      LaunchAsPlanned(job, good, Take(job, s), s.chan[0]);
    }
  }

  lemma RunAsPlanned(job: Job, good: set<nat>, states: seq<Sys>, steps: seq<Step>, k: nat)
    requires Run(job, states, steps) && Replies(good, states, steps) && k < |states|
    ensures AsPlanned(good, states[k])
  {
    forall s, step, s' | AsPlanned(good, s) && Obeys(good, s, step) && Next(job, s, step, s')
      ensures AsPlanned(good, s')
    {
      StepAsPlanned(job, good, s, step, s');
    }
    RunInduction(job, states, steps, k, s => AsPlanned(good, s), (s, step) => Obeys(good, s, step));
  }

  /** The logs that could still matter are at least those of `good`. */
  lemma GoodIsPossible(job: Job, good: set<nat>, s: Sys)
    requires Invariant(job, s) && AsPlanned(good, s) && s.phase.QuorumMissed? && good <= Eligible(job.logs)
    ensures good <= Possible(job, s)
  {
    assert s.c.began - s.pending == s.c.began;
  }

  lemma VerdictIsFixed(job: Job, good: set<nat>, s: Sys)
    requires ValidJob(job) && Guaranteed(job, s) && AsPlanned(good, s) && good <= Eligible(job.logs)
    requires !Active(s.phase)
    ensures Decided(s.phase)
    ensures s.phase.QuorumReached? <==> Satisfies(job.logs, good, job.sr)
  {
    VerdictIsRight(job, s);
    if s.phase.QuorumReached? {
      SatisfiesMonotone(job.logs, Indices(s.c.q), good, job.sr);
    } else {
      GoodIsPossible(job, good, s);
      if Satisfies(job.logs, good, job.sr) {
        SatisfiesMonotone(job.logs, good, Possible(job, s), job.sr);
      }
    }
  }

  lemma SenderIsEligible(job: Job, s: Sys, e: Event)
    requires Invariant(job, s) && Enabled(job, s, Send(e))
    ensures e.idx in Eligible(job.logs)
  {
  }

  lemma NextExists(job: Job, good: set<nat>, s: Sys) returns (step: Step)
    requires Invariant(job, s) && Active(s.phase)
    ensures Enabled(job, s, step) && Plain(good, s, step)
    ensures step.Send? ==> step.e.idx in Eligible(job.logs)
  {
    step := NeverStuck(job, s, good);
    if step.Send? { SenderIsEligible(job, s, step.e); }
  }

  /** Of the workers' events only terminal ones: as `good` says in the main loop, failures of the cancelled after it. */
  ghost predicate Plain(good: set<nat>, s: Sys, step: Step) {
    && step != CancelContext
    && (step.Send? ==> step.e.Terminal() && (step.e.Success? <==> s.phase.Running? && step.e.idx in good))
  }

  /**
    Fix the eligible logs that would succeed while the main loop runs. Every run in which the logs reply
    so and nobody cancels is bounded; it can go on in the same way until it has returned; and once it has
    returned, it has reached quorum exactly if those logs satisfy the policy.
   */
  lemma VerdictIgnoresSchedule(job: Job, good: set<nat>, states: seq<Sys>, steps: seq<Step>)
    requires ValidJob(job) && Run(job, states, steps)
    requires good <= Eligible(job.logs) && Replies(good, states, steps)
    ensures |steps| <= 6 * |Eligible(job.logs)| + 2
    ensures Shape(job, states[|steps|])
    ensures Active(states[|steps|].phase) ==>
              exists step :: Enabled(job, states[|steps|], step) && Obeys(good, states[|steps|], step)
    ensures !Active(states[|steps|].phase) ==>
              && Decided(states[|steps|].phase)
              && (states[|steps|].phase.QuorumReached? <==> Satisfies(job.logs, good, job.sr))
  {
    RunsAreBounded(job, states, steps);
    RunGuaranteed(job, states, steps, |steps|);
    RunAsPlanned(job, good, states, steps, |steps|);
    if Active(states[|steps|].phase) {
      var step := NextExists(job, good, states[|steps|]);
      assert Obeys(good, states[|steps|], step);
    } else {
      VerdictIsFixed(job, good, states[|steps|]);
    }
  }

  /**
    Every run can be completed by steps of which none cancels, with each reply in the main loop as `good` says
    and with a failure of each worker that a drain waits for.
   */
  lemma {:induction false} RunCompletes(job: Job, good: set<nat>, states: seq<Sys>, steps: seq<Step>)
    returns (states': seq<Sys>, steps': seq<Step>)
    requires ValidJob(job) && Run(job, states, steps)
    ensures Run(job, states', steps') && !Active(states'[|steps'|].phase)
    ensures steps <= steps' && states <= states'
    ensures forall k | |steps| <= k < |steps'| :: Completing(job, good, states'[k], steps'[k])
    decreases 6 * |Eligible(job.logs)| + 3 - |steps|
  {
    var s := states[|steps|];
    RunInvariant(job, states, steps, |steps|);
    if !Active(s.phase) {
      states', steps' := states, steps;
    } else {
      var step := NextExists(job, good, s);
      var s' := Apply(job, s, step);
      RunSnoc(job, states, steps, step, s');
      RunsAreBounded(job, states + [s'], steps + [step]);
      states', steps' := RunCompletes(job, good, states + [s'], steps + [step]);
      assert steps'[|steps|] == step && states'[|steps|] == (states + [s'])[|steps|] == s;
    }
  }

  ghost predicate Completing(job: Job, good: set<nat>, s: Sys, step: Step) {
    Plain(good, s, step) && (step.Send? ==> step.e.idx in Eligible(job.logs))
  }

  /** A run in which the logs reply as `good` says can be completed so; the verdict is then that on `good`. */
  lemma PlanCompletes(job: Job, good: set<nat>, states: seq<Sys>, steps: seq<Step>)
    returns (states': seq<Sys>, steps': seq<Step>)
    requires ValidJob(job) && Run(job, states, steps)
    requires good <= Eligible(job.logs) && Replies(good, states, steps)
    ensures Run(job, states', steps') && steps <= steps' && states <= states'
    ensures Replies(good, states', steps') && Decided(states'[|steps'|].phase)
    ensures states'[|steps'|].phase.QuorumReached? <==> Satisfies(job.logs, good, job.sr)
  {
    states', steps' := RunCompletes(job, good, states, steps);
    forall k | 0 <= k < |steps'| ensures Obeys(good, states'[k], steps'[k]) {
      if k < |steps| {
        assert states'[k] == states[k] && steps'[k] == steps[k] && Obeys(good, states[k], steps[k]);
      } else {
        assert Completing(job, good, states'[k], steps'[k]);
      }
    }
    VerdictIgnoresSchedule(job, good, states', steps');
  }

  // ---- Runs in which no log fails ----

  /** Nobody cancels the context, and while the main loop runs no log fails; workers cancelled after it may. */
  predicate Harmless(s: Sys, step: Step) {
    step != CancelContext && (step.Send? && s.phase.Running? ==> !step.e.Failure?)
  }

  ghost predicate NoFailures(states: seq<Sys>, steps: seq<Step>)
    requires |states| == |steps| + 1
  {
    forall k | 0 <= k < |steps| :: Harmless(states[k], steps[k])
  }

  lemma HarmlessObeys(job: Job, s: Sys, step: Step)
    requires Invariant(job, s) && Enabled(job, s, step)
    ensures Harmless(s, step) <==> Obeys(Eligible(job.logs), s, step)
  {
    if step.Send? { SenderIsEligible(job, s, step.e); }
  }

  /** Such runs are those in which every eligible log would succeed. */
  lemma NoFailureIsAPlan(job: Job, states: seq<Sys>, steps: seq<Step>)
    requires ValidJob(job) && Run(job, states, steps)
    ensures NoFailures(states, steps) <==> Replies(Eligible(job.logs), states, steps)
  {
    forall k | 0 <= k < |steps|
      ensures Harmless(states[k], steps[k]) <==> Obeys(Eligible(job.logs), states[k], steps[k])
    {
      RunStep(job, states, steps, k);
      HarmlessObeys(job, states[k], steps[k]);
    }
  }

  /**
    If no log fails before the quorum is met, the context is not cancelled, and the eligible logs satisfy the
    policy, then every run is bounded, goes on in the same way until it has returned, and has then reached quorum.
   */
  lemma NoFailureMeansQuorum(job: Job, states: seq<Sys>, steps: seq<Step>)
    requires ValidJob(job) && Run(job, states, steps) && NoFailures(states, steps)
    requires Satisfies(job.logs, Eligible(job.logs), job.sr)
    ensures |steps| <= 6 * |Eligible(job.logs)| + 2
    ensures Shape(job, states[|steps|])
    ensures var s := states[|steps|]; Active(s.phase) ==> exists step :: Enabled(job, s, step) && Harmless(s, step)
    ensures !Active(states[|steps|].phase) ==> states[|steps|].phase.QuorumReached?
  {
    NoFailureIsAPlan(job, states, steps);
    VerdictIgnoresSchedule(job, Eligible(job.logs), states, steps);
    var s := states[|steps|];
    if Active(s.phase) {
      RunInvariant(job, states, steps, |steps|);
      var step :| Enabled(job, s, step) && Obeys(Eligible(job.logs), s, step);
      HarmlessObeys(job, s, step);
    }
  }

  /** A returned run without failures and cancellation has reached quorum exactly if the eligible logs suffice. */
  lemma NoFailureVerdict(job: Job, states: seq<Sys>, steps: seq<Step>)
    requires ValidJob(job) && Run(job, states, steps) && NoFailures(states, steps) && !Active(states[|steps|].phase)
    ensures Decided(states[|steps|].phase)
    ensures states[|steps|].phase.QuorumReached? <==> Satisfies(job.logs, Eligible(job.logs), job.sr)
  {
    NoFailureIsAPlan(job, states, steps);
    VerdictIgnoresSchedule(job, Eligible(job.logs), states, steps);
  }

  /** In particular every such run can be completed in the same way, and reaches quorum exactly if they do. */
  lemma NoFailureReachesQuorum(job: Job, states: seq<Sys>, steps: seq<Step>)
    returns (states': seq<Sys>, steps': seq<Step>)
    requires ValidJob(job) && Run(job, states, steps) && NoFailures(states, steps)
    ensures Run(job, states', steps') && NoFailures(states', steps') && steps <= steps' && states <= states'
    ensures Decided(states'[|steps'|].phase)
    ensures states'[|steps'|].phase.QuorumReached? <==> Satisfies(job.logs, Eligible(job.logs), job.sr)
  {
    NoFailureIsAPlan(job, states, steps);
    states', steps' := PlanCompletes(job, Eligible(job.logs), states, steps);
    NoFailureIsAPlan(job, states', steps');
  }

  // ---- The Static preference ----

  /** A harmless step that no try-next timer has caused in the main loop. */
  predicate Prompt(s: Sys, step: Step) {
    Harmless(s, step) && (step.Send? && s.phase.Running? ==> !step.e.TryNext?)
  }

  /** Until the whole initial batch has succeeded nothing else is launched, and no quorum is met. */
  ghost predicate BatchFirst(batch: set<nat>, s: Sys) {
    && (s.phase.Running? ==> forall k | 0 <= k < |s.chan| :: !s.chan[k].Failure? && !s.chan[k].TryNext?)
    && (s.phase.Running? ==> s.c.began == batch || batch <= Senders(s.arrived))
    && (s.phase.DrainingQuorum? || s.phase.QuorumReached? ==> batch <= Senders(s.arrived))
  }

  lemma QuorumNeedsBatch(job: Job, batch: set<nat>, s: Sys)
    requires ValidJob(job) && CollectOk(job, s) && s.phase.DrainingQuorum? && s.c.began == batch
    requires |batch| <= job.sr.scts
    ensures batch <= Senders(s.arrived)
  {
    SubsetSize(Indices(s.c.q), Senders(s.arrived));
    SubsetSize(Senders(s.arrived), batch);
  }

  lemma BatchFirstAfter(job: Job, batch: set<nat>, s: Sys, s': Sys)
    requires ValidJob(job) && |batch| <= job.sr.scts && CollectOk(job, s')
    requires BatchFirst(batch, s) && s.phase.Running? && s.chan != []
    requires s'.chan == s.chan[1..] && s'.c.began == s.c.began && Senders(s.arrived) <= Senders(s'.arrived)
    requires s'.phase.Running? || s'.phase.DrainingQuorum?
    ensures BatchFirst(batch, s')
  {
    forall k | 0 <= k < |s'.chan| ensures !s'.chan[k].Failure? && !s'.chan[k].TryNext? {
      assert s'.chan[k] == s.chan[k + 1];
    }
    if s'.phase.DrainingQuorum? && s.c.began == batch {
      QuorumNeedsBatch(job, batch, s');
    }
  }

  lemma TakeBatchFirst(job: Job, batch: set<nat>, s: Sys)
    requires ValidJob(job) && Shape(job, s) && BatchFirst(batch, s) && |batch| <= job.sr.scts
    requires s.phase.Running? && s.chan != [] && CollectOk(job, Take(job, s))
    ensures BatchFirst(batch, Take(job, s))
  {
    AbsorbSets(job, s.c, s.chan[0]);
    EventSets(job.logs, job.sr, s.c.q, s.arrived, s.chan[0]);
    BatchFirstAfter(job, batch, s, Take(job, s));
  }

  lemma LaunchBatchFirst(job: Job, batch: set<nat>, s: Sys, e: Event)
    requires Invariant(job, s) && BatchFirst(batch, s) && AsPlanned(Eligible(job.logs), s)
    requires !e.Failure? && !e.TryNext?
    ensures BatchFirst(batch, MaybeLaunch(job, s, e))
  {
    if s.phase.Running? && LaunchesAfter(job, s.c, e) {
      assert s.pending == {} && Eligible(job.logs) * (s.c.began - s.pending) == s.c.began;
    }
  }

  lemma ReceiveBatchFirst(job: Job, batch: set<nat>, s: Sys)
    requires ValidJob(job) && Guaranteed(job, s) && AsPlanned(Eligible(job.logs), s) && BatchFirst(batch, s)
    requires |batch| <= job.sr.scts && s.phase.Running? && Enabled(job, s, Receive)
    ensures BatchFirst(batch, Apply(job, s, Receive))
  {
    TakeCollectOk(job, s);
    TakeBatchFirst(job, batch, s);
    TakeOk(job, s);
    TakeAsPlanned(job, Eligible(job.logs), s);
    LaunchBatchFirst(job, batch, Take(job, s), s.chan[0]);
  }

  /** The other steps neither receive in the main loop nor launch. */
  lemma OtherBatchFirst(job: Job, batch: set<nat>, s: Sys, step: Step)
    requires Shape(job, s) && BatchFirst(batch, s) && Enabled(job, s, step) && Prompt(s, step)
    requires s.phase.Running? ==> !IsQuorumMet(s.c.q, job.sr)
    requires step.Receive? ==> !s.phase.Running?
    ensures BatchFirst(batch, Apply(job, s, step))
  {
  }

  lemma StepBatchFirst(job: Job, batch: set<nat>, s: Sys, step: Step, s': Sys)
    requires ValidJob(job) && Guaranteed(job, s) && AsPlanned(Eligible(job.logs), s) && BatchFirst(batch, s)
    requires |batch| <= job.sr.scts && Next(job, s, step, s') && Prompt(s, step)
    ensures BatchFirst(batch, s')
  {
    if step.Receive? && s.phase.Running? {
      ReceiveBatchFirst(job, batch, s);
    } else {
      OtherBatchFirst(job, batch, s, step);
    }
  }

  ghost predicate Orderly(job: Job, batch: set<nat>, s: Sys) {
    Guaranteed(job, s) && AsPlanned(Eligible(job.logs), s) && BatchFirst(batch, s)
  }

  lemma StepOrderly(job: Job, batch: set<nat>, s: Sys, step: Step, s': Sys)
    requires ValidJob(job) && Orderly(job, batch, s) && |batch| <= job.sr.scts
    requires Next(job, s, step, s') && Prompt(s, step)
    ensures Orderly(job, batch, s')
  {
    NextGuaranteed(job, s, step, s');
    HarmlessObeys(job, s, step);
    StepAsPlanned(job, Eligible(job.logs), s, step, s');
    StepBatchFirst(job, batch, s, step, s');
  }

  lemma InitOrderly(job: Job)
    requires ValidJob(job)
    ensures Orderly(job, InitialBatch(job).began, Init(job)) && |InitialBatch(job).began| <= job.sr.scts
  {
    InitGuaranteed(job);
    InitialBatchCovers(job);
    assert Init(job).arrived == [] && Senders([]) == {};
  }

  lemma RunOrderly(job: Job, states: seq<Sys>, steps: seq<Step>)
    requires ValidJob(job) && Run(job, states, steps)
    requires forall k | 0 <= k < |steps| :: Prompt(states[k], steps[k])
    ensures Orderly(job, InitialBatch(job).began, states[|steps|])
  {
    var batch := InitialBatch(job).began;
    InitOrderly(job);
    forall s, step, s' | Orderly(job, batch, s) && Prompt(s, step) && Next(job, s, step, s')
      ensures Orderly(job, batch, s')
    {
      StepOrderly(job, batch, s, step, s');
    }
    RunInduction(job, states, steps, |steps|, s => Orderly(job, batch, s), (s, step) => Prompt(s, step));
  }

  /**
    The Static preference is met: without failures, cancellation and try-next timers, a delivery holds a
    Static SCT if Static is preferred, such a log is eligible and the initial batch has a slot for it.
   */
  lemma PreferenceIsMet(job: Job, states: seq<Sys>, steps: seq<Step>)
    requires ValidJob(job) && Run(job, states, steps)
    requires forall k | 0 <= k < |steps| :: Prompt(states[k], steps[k])
    requires states[|steps|].phase.QuorumReached?
    requires job.sr.preferStatic && HasType(job.logs, Eligible(job.logs), Static)
    requires BatchSize(job) >= 2 || !job.sr.requireRFC6962 || !HasType(job.logs, Eligible(job.logs), RFC6962)
    ensures var ids := Elements(states[|steps|].c.q.indices);
            InRange(job.logs, ids) && HasType(job.logs, ids, Static)
  {
    InitialBatchCovers(job);
    RunOrderly(job, states, steps);
    SuccessDelivers(job, states, steps);
    GrowKeepsTypes(job.logs, InitialBatch(job).began, Senders(states[|steps|].arrived));
  }
}
