/** Every run of `submit` is finite, never gets stuck, and leaves no worker behind. */
module Liveness {
  import opened Logs
  import opened Finite
  import opened Workers
  import opened Coordinator
  import opened Machine

  /** A run: a sequence of steps from the initial state, and the states between them. */
  ghost predicate Run(job: Job, states: seq<Sys>, steps: seq<Step>) {
    && |states| == |steps| + 1
    && states[0] == Init(job)
    && forall k | 0 <= k < |steps| :: Next(job, states[k], steps[k], states[k + 1])
  }

  ghost predicate Next(job: Job, s: Sys, step: Step, s': Sys) {
    Shape(job, s) && Enabled(job, s, step) && s' == Apply(job, s, step)
  }

  /** Whatever holds initially and is kept by every step that is allowed holds in every state of a run of such steps. */
  lemma {:induction false} RunInduction(job: Job, states: seq<Sys>, steps: seq<Step>, k: nat,
      holds: Sys -> bool, allowed: (Sys, Step) -> bool)
    requires Run(job, states, steps) && k < |states|
    requires forall j | 0 <= j < |steps| :: allowed(states[j], steps[j])
    requires holds(Init(job))
    requires forall s, step, s' | holds(s) && allowed(s, step) && Next(job, s, step, s') :: holds(s')
    ensures holds(states[k])
  {
    if k > 0 {
      RunInduction(job, states, steps, k - 1, holds, allowed);
      assert Next(job, states[k - 1], steps[k - 1], states[k]);
    }
  }

  lemma RunNext(job: Job, states: seq<Sys>, steps: seq<Step>, k: nat)
    requires Run(job, states, steps) && k < |steps|
    ensures Next(job, states[k], steps[k], states[k + 1])
  {
  }

  /** A run followed by a step is a run. */
  lemma RunSnoc(job: Job, states: seq<Sys>, steps: seq<Step>, step: Step, s': Sys)
    requires Run(job, states, steps) && Next(job, states[|steps|], step, s')
    ensures Run(job, states + [s'], steps + [step])
  {
    forall k | 0 <= k < |steps| + 1
      ensures Next(job, (states + [s'])[k], (steps + [step])[k], (states + [s'])[k + 1])
    {
      if k < |steps| {
        assert Next(job, states[k], steps[k], states[k + 1]);
      }
    }
  }

  lemma NextOk(job: Job, s: Sys, step: Step, s': Sys)
    requires Invariant(job, s) && Next(job, s, step, s')
    ensures Invariant(job, s')
  {
    StepOk(job, s, step);
  }

  lemma RunInvariant(job: Job, states: seq<Sys>, steps: seq<Step>, k: nat)
    requires ValidJob(job) && Run(job, states, steps) && k < |states|
    ensures Invariant(job, states[k])
  {
    InitOk(job);
    forall s, step, s' | Invariant(job, s) && Next(job, s, step, s') ensures Invariant(job, s') {
      NextOk(job, s, step, s');
    }
    RunInduction(job, states, steps, k, s => Invariant(job, s), (s, step) => true);
  }

  // ---- Termination ----

  /** The events that the workers of the first `n` logs, launched or not, may still send. */
  ghost function TotalOwed(logs: seq<Log>, workers: seq<Worker>, n: nat): nat
    requires n <= |logs| == |workers|
  {
    if n == 0 then 0
    else TotalOwed(logs, workers, n - 1) + if logs[n - 1].bucket == Excluded then 0 else Owed(workers[n - 1])
  }

  ghost function EligibleBelow(logs: seq<Log>, n: nat): set<nat>
    requires n <= |logs|
  {
    set i | i in Eligible(logs) && i < n
  }

  lemma {:induction false} OneWorkerChanges(logs: seq<Log>, before: seq<Worker>, after: seq<Worker>, i: nat, n: nat)
    requires n <= |logs| == |before| == |after| && i in Eligible(logs)
    requires forall j | 0 <= j < |before| && j != i :: after[j] == before[j]
    ensures TotalOwed(logs, after, n) ==
            TotalOwed(logs, before, n) + if i < n then Owed(after[i]) - Owed(before[i]) else 0
  {
    if n > 0 {
      OneWorkerChanges(logs, before, after, i, n - 1);
    }
  }

  lemma {:induction false} FreshWorkersOweThree(logs: seq<Log>, workers: seq<Worker>, n: nat)
    requires n <= |logs| == |workers|
    requires forall i | 0 <= i < |workers| :: workers[i] == Idle || workers[i] == Busy(false, false)
    ensures TotalOwed(logs, workers, n) == 3 * |EligibleBelow(logs, n)|
  {
    if n == 0 {
      assert EligibleBelow(logs, 0) == {};
    } else {
      FreshWorkersOweThree(logs, workers, n - 1);
      if logs[n - 1].bucket == Excluded {
        assert EligibleBelow(logs, n) == EligibleBelow(logs, n - 1);
      } else {
        assert EligibleBelow(logs, n) == EligibleBelow(logs, n - 1) + {n - 1};
      }
    }
  }

  /** Events that are still to be received. Launching a log does not change it. */
  ghost function EventsLeft(job: Job, s: Sys): nat
    requires |s.workers| == |job.logs|
  {
    TotalOwed(job.logs, s.workers, |job.logs|) + |s.chan|
  }

  function Rank(p: Phase): nat {
    if p.Running? then 2 else if Active(p) then 1 else 0
  }

  ghost function Measure(job: Job, s: Sys): nat
    requires |s.workers| == |job.logs|
  {
    2 * TotalOwed(job.logs, s.workers, |job.logs|) + |s.chan| + Rank(s.phase)
  }

  lemma InitMeasure(job: Job)
    requires ValidJob(job)
    ensures EventsLeft(job, Init(job)) == 3 * |Eligible(job.logs)|
    ensures Measure(job, Init(job)) == 6 * |Eligible(job.logs)| + 2
  {
    FreshWorkersOweThree(job.logs, Init(job).workers, |job.logs|);
    assert EligibleBelow(job.logs, |job.logs|) == Eligible(job.logs);
  }

  /** The fresh worker of an unattempted log owes what the log was already charged. */
  lemma LaunchOwesNothing(job: Job, s: Sys, e: Event)
    requires Invariant(job, s)
    ensures var s' := MaybeLaunch(job, s, e);
            |s'.workers| == |s.workers| && s'.chan == s.chan && s'.phase == s.phase
            && TotalOwed(job.logs, s'.workers, |job.logs|) == TotalOwed(job.logs, s.workers, |job.logs|)
  {
    var next := Candidates(job, s.c);
    if next != {} {
      var i := MinOf(next);
      assert i in Unattempted(job, s.c) && s.workers[i].Idle?;
      OneWorkerChanges(job.logs, s.workers, s.workers[i := Busy(false, false)], i, |job.logs|);
    }
  }

  /** The measure falls from `s` to `s'`, and so do the events that are left, by at least `received`. */
  ghost predicate Falls(job: Job, s: Sys, s': Sys, received: nat) {
    && |s.workers| == |s'.workers| == |job.logs|
    && Measure(job, s') < Measure(job, s)
    && EventsLeft(job, s') <= EventsLeft(job, s) - received
  }

  /**
    Every step makes the measure fall; sending creates no events out of nothing, and every
    receipt uses one up, even when it launches another log.
   */
  lemma StepDecreases(job: Job, s: Sys, step: Step)
    requires Invariant(job, s) && Enabled(job, s, step)
    ensures Falls(job, s, Apply(job, s, step), if step.Receive? then 1 else 0)
  {
    match step
    case Send(e) => SendDecreases(job, s, e);
    case Receive => ReceiveDecreases(job, s);
    case CancelContext => CancelDecreases(job, s);
    case Return => ReturnDecreases(job, s);
  }

  lemma SendDecreases(job: Job, s: Sys, e: Event)
    requires Invariant(job, s) && Enabled(job, s, Send(e))
    ensures Falls(job, s, Apply(job, s, Send(e)), 0)
  {
    var s' := Apply(job, s, Send(e));
    assert e.idx in s.c.began;
    OneWorkerChanges(job.logs, s.workers, s'.workers, e.idx, |job.logs|);
  }

  lemma ReceiveDecreases(job: Job, s: Sys)
    requires Invariant(job, s) && Enabled(job, s, Receive)
    ensures Falls(job, s, Apply(job, s, Receive), 1)
  {
    if s.phase.Running? {
      TakeOk(job, s);
      LaunchOwesNothing(job, Take(job, s), s.chan[0]);
    }
  }

  lemma CancelDecreases(job: Job, s: Sys)
    requires Shape(job, s) && Enabled(job, s, CancelContext)
    ensures Falls(job, s, Apply(job, s, CancelContext), 0)
  {
  }

  lemma ReturnDecreases(job: Job, s: Sys)
    requires Shape(job, s) && Enabled(job, s, Return)
    ensures Falls(job, s, Apply(job, s, Return), 0)
  {
  }

  function Receipts(steps: seq<Step>): nat {
    if steps == [] then 0
    else Receipts(steps[..|steps| - 1]) + if steps[|steps| - 1].Receive? then 1 else 0
  }

  /**
    No run is longer than 6 steps per eligible log and 2 more, and no run handles more than
    3 events per eligible log.
   */
  lemma RunsAreBounded(job: Job, states: seq<Sys>, steps: seq<Step>)
    requires ValidJob(job) && Run(job, states, steps)
    ensures |steps| <= 6 * |Eligible(job.logs)| + 2
    ensures Receipts(steps) <= 3 * |Eligible(job.logs)|
  {
    BoundedPrefix(job, states, steps, |steps|);
    RunInvariant(job, states, steps, |steps|);
    assert steps[..|steps|] == steps;
  }

  ghost predicate WithinBudget(job: Job, s: Sys, taken: nat, received: nat) {
    && |s.workers| == |job.logs|
    && taken + Measure(job, s) <= 6 * |Eligible(job.logs)| + 2
    && received + EventsLeft(job, s) <= 3 * |Eligible(job.logs)|
  }

  lemma BoundedNext(job: Job, s: Sys, step: Step, s': Sys, taken: nat, received: nat)
    requires Invariant(job, s) && Next(job, s, step, s') && WithinBudget(job, s, taken, received)
    ensures WithinBudget(job, s', taken + 1, received + if step.Receive? then 1 else 0)
  {
    StepDecreases(job, s, step);
  }

  lemma InitBounded(job: Job)
    requires ValidJob(job)
    ensures WithinBudget(job, Init(job), 0, 0)
  {
    InitMeasure(job);
  }

  lemma RunStep(job: Job, states: seq<Sys>, steps: seq<Step>, k: nat)
    requires ValidJob(job) && Run(job, states, steps) && k < |steps|
    ensures Invariant(job, states[k]) && Next(job, states[k], steps[k], states[k + 1])
    ensures Receipts(steps[..k + 1]) == Receipts(steps[..k]) + if steps[k].Receive? then 1 else 0
  {
    RunInvariant(job, states, steps, k);
    assert steps[..k + 1][..k] == steps[..k];
  }

  lemma {:induction false} BoundedPrefix(job: Job, states: seq<Sys>, steps: seq<Step>, k: nat)
    requires ValidJob(job) && Run(job, states, steps) && k <= |steps|
    ensures WithinBudget(job, states[k], k, Receipts(steps[..k]))
  {
    if k == 0 {
      InitBounded(job);
    } else {
      var j := k - 1;
      BoundedPrefix(job, states, steps, j);
      RunStep(job, states, steps, j);
      BoundedNext(job, states[j], steps[j], states[k], j, Receipts(steps[..j]));
    }
  }

  // ---- No deadlock, and nothing left behind ----

  /**
    Until `submit` has returned, some step is always possible. It needs no cancellation and, while the main
    loop runs, no failure of any log of `good`, whichever logs these are. In a drain the workers that are
    left have been cancelled, and it needs no success of theirs.
   */
  lemma NeverStuck(job: Job, s: Sys, good: set<nat>) returns (step: Step)
    requires Invariant(job, s) && Active(s.phase)
    ensures Enabled(job, s, step) && step != CancelContext
    ensures step.Send? ==> step.e.Terminal() && (step.e.Success? <==> s.phase.Running? && step.e.idx in good)
  {
    if s.c.inFlight <= 0 {
      step := Return;
    } else if s.chan != [] {
      step := Receive;
    } else {
      var i :| i in s.pending;
      assert Terminals(s.chan) == {};
      assert s.workers[i].Busy?;
      SubsetSize({i}, Eligible(job.logs));
      step := Send(if s.phase.Running? && i in good then Success(i, "any", "any") else Failure(i, "any"));
    }
  }

  /** A sender that finds the channel full is never stuck for good: the coordinator can receive. */
  lemma FullChannelIsDrained(job: Job, s: Sys, i: nat)
    requires Invariant(job, s) && i < |s.workers| && s.workers[i].Busy? && |s.chan| >= Capacity(job)
    ensures Enabled(job, s, Receive)
  {
    SubsetSize({i}, Eligible(job.logs));
    assert i in s.pending;
  }

  /** When `submit` has returned, the channel is empty and every launched worker has finished. */
  lemma ReturnLeavesNothing(job: Job, s: Sys)
    requires Invariant(job, s) && !Active(s.phase)
    ensures s.chan == [] && s.pending == {}
    ensures forall i | 0 <= i < |s.workers| :: s.workers[i] == if i in s.c.began then Done else Idle
  {
    QueuedIsPending(job, s);
  }

  lemma QueuedIsPending(job: Job, s: Sys)
    requires ChannelOk(job, s)
    ensures s.chan != [] ==> s.pending != {}
  {
    if s.chan != [] {
      assert s.chan[0].idx in s.pending;
    }
  }
}
