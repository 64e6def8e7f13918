/** What the outcomes of the strategy's members say after the caller's context has ended a submission. */
module Interruption {
  import opened Logs
  import opened Coordinator
  import opened Machine
  import opened Liveness
  import opened Guarantees
  import opened Theorems

  /** A success makes the member successful, and a failure gives it the reason reported. */
  predicate Tells(e: Event, o: Outcome) {
    (e.Success? && o == Successful) || (e.Failure? && o == Failed(e.reason))
  }

  /** The outcome is that of a terminal event which the worker of member `i` sent. */
  ghost predicate TakesReply(steps: seq<Step>, i: nat, o: Outcome) {
    exists e :: WasSent(steps, e) && e.idx == i && Tells(e, o)
  }

  /**
    The final outcome of an eligible member, where `s0` is the state in which the context ended: a member
    still in flight then takes that of its terminal event, any other launched member keeps the one it had.
   */
  ghost predicate AfterCancel(s0: Sys, s: Sys, steps: seq<Step>, i: nat) {
    i < |s.c.outcome| == |s0.c.outcome| &&
    var o := s.c.outcome[i];
    if i !in s.c.began then o == NotAttempted
    else if i in s0.c.normal + s0.c.slow then TakesReply(steps, i, o)
    else o == s0.c.outcome[i] && o != NoOutcome
  }

  /** The context ended before step `k + 1`; nothing was launched after it, and every member is accounted for. */
  ghost predicate Interrupted(job: Job, states: seq<Sys>, steps: seq<Step>, k: nat)
    requires |states| == |steps| + 1
  {
    && k < |steps| && steps[k] == CancelContext
    && states[|steps|].c.began == states[k].c.began
    && forall i | i in Eligible(job.logs) :: AfterCancel(states[k], states[|steps|], steps, i)
  }

  // ---- The drain ----

  ghost predicate Midway(s0: Sys, s: Sys, steps: seq<Step>, i: nat)
    requires i < |s.c.outcome| == |s0.c.outcome|
  {
    if i in s0.pending && i !in s.pending then TakesReply(steps, i, s.c.outcome[i])
    else s.c.outcome[i] == s0.c.outcome[i]
  }

  /** `s` is a state of the drain that began in `s0`. */
  ghost predicate DrainsFrom(job: Job, s0: Sys, s: Sys, steps: seq<Step>) {
    && s.phase.DrainingContext?
    && s.c.began == s0.c.began && s.pending <= s0.pending
    && |s.c.outcome| == |s0.c.outcome| == |job.logs|
    && forall i: nat | i < |job.logs| :: Midway(s0, s, steps, i)
  }

  /** Of the launched members those in flight have no outcome, and only they. */
  ghost predicate Open(s0: Sys, i: nat) {
    && i < |s0.c.outcome|
    && (i in s0.c.normal + s0.c.slow <==> i in s0.pending)
    && (i in s0.pending ==> i in s0.c.began)
    && (s0.c.outcome[i] == NoOutcome <==> i in s0.pending || i !in s0.c.began)
  }

  ghost predicate AllOpen(job: Job, s0: Sys) {
    forall i | i in Eligible(job.logs) :: Open(s0, i)
  }

  /** So it is in the main loop. */
  lemma RunsOpen(job: Job, states: seq<Sys>, steps: seq<Step>, k: nat)
    requires ValidJob(job) && Run(job, states, steps) && k < |states| && states[k].phase.Running?
    ensures AllOpen(job, states[k])
  {
    RunGuaranteed(job, states, steps, k);
    forall i | i in Eligible(job.logs) ensures Open(states[k], i) {
      InFlightIsOpen(job, states[k], i);
    }
  }

  lemma InFlightIsOpen(job: Job, s0: Sys, i: nat)
    requires ValidJob(job) && Guaranteed(job, s0) && s0.phase.Running? && i in Eligible(job.logs)
    ensures Open(s0, i)
  {
    assert Booked(job, s0, i);
  }

  lemma ReplyStays(steps: seq<Step>, step: Step, i: nat, o: Outcome)
    requires TakesReply(steps, i, o)
    ensures TakesReply(steps + [step], i, o)
  {
    var e :| WasSent(steps, e) && e.idx == i && Tells(e, o);
    var j :| 0 <= j < |steps| && steps[j] == Send(e);
    assert (steps + [step])[j] == Send(e);
    assert WasSent(steps + [step], e);
  }

  lemma MidwayStays(s0: Sys, s: Sys, s': Sys, steps: seq<Step>, step: Step, i: nat)
    requires i < |s.c.outcome| == |s0.c.outcome| == |s'.c.outcome| && Midway(s0, s, steps, i)
    requires s'.c.outcome[i] == s.c.outcome[i] && (i in s'.pending <==> i in s.pending)
    ensures Midway(s0, s', steps + [step], i)
  {
    if i in s0.pending && i !in s.pending { ReplyStays(steps, step, i, s.c.outcome[i]); }
  }

  /** A terminal event gives its log the outcome that the log still lacks. */
  lemma DrainTakesReply(job: Job, s0: Sys, s: Sys, steps: seq<Step>, step: Step)
    requires Shape(job, s) && s.chan != [] && s.chan[0].Terminal() && s.phase.DrainingContext?
    requires s.chan[0].idx < |s.c.outcome| == |s0.c.outcome| && WasSent(steps, s.chan[0])
    requires s.c.outcome[s.chan[0].idx] == NoOutcome && s.chan[0].idx in s0.pending
    ensures Midway(s0, Drain(job, s), steps + [step], s.chan[0].idx)
  {
    var e, s' := s.chan[0], Drain(job, s);
    assert Tells(e, s'.c.outcome[e.idx]);
    assert TakesReply(steps, e.idx, OutcomeOf(e));
    ReplyStays(steps, step, e.idx, OutcomeOf(e));
  }

  lemma DrainOne(job: Job, s0: Sys, s: Sys, steps: seq<Step>, i: nat)
    requires Shape(job, s) && s.chan != [] && s.chan[0].idx in s.pending && WasSent(steps, s.chan[0])
    requires DrainsFrom(job, s0, s, steps) && i < |job.logs|
    requires s0.c.outcome[s.chan[0].idx] == NoOutcome
    ensures Midway(s0, Drain(job, s), steps + [Receive], i)
  {
    var e := s.chan[0];
    assert Midway(s0, s, steps, e.idx) && Midway(s0, s, steps, i);
    if e.Terminal() && i == e.idx {
      DrainTakesReply(job, s0, s, steps, Receive);
    } else {
      MidwayStays(s0, s, Drain(job, s), steps, Receive, i);
    }
  }

  lemma DrainGoesOn(job: Job, s0: Sys, s: Sys, steps: seq<Step>)
    requires Shape(job, s) && s.chan != [] && s.chan[0].idx in s.pending && WasSent(steps, s.chan[0])
    requires DrainsFrom(job, s0, s, steps) && s0.c.outcome[s.chan[0].idx] == NoOutcome
    ensures DrainsFrom(job, s0, Drain(job, s), steps + [Receive])
  {
    forall i: nat | i < |job.logs| ensures Midway(s0, Drain(job, s), steps + [Receive], i) {
      DrainOne(job, s0, s, steps, i);
    }
  }

  lemma ReceiveInDrain(job: Job, s0: Sys, s: Sys, steps: seq<Step>)
    requires AllOpen(job, s0) && Invariant(job, s)
    requires DrainsFrom(job, s0, s, steps) && AllSent(s, steps) && Enabled(job, s, Receive)
    ensures DrainsFrom(job, s0, Apply(job, s, Receive), steps + [Receive])
  {
    assert s.chan[0].idx in s.pending && s.chan[0].idx in Eligible(job.logs);
    assert Open(s0, s.chan[0].idx);
    DrainGoesOn(job, s0, s, steps);
  }

  lemma SendInDrain(job: Job, s0: Sys, s: Sys, steps: seq<Step>, e: Event)
    requires Shape(job, s) && Enabled(job, s, Send(e)) && DrainsFrom(job, s0, s, steps)
    ensures DrainsFrom(job, s0, Apply(job, s, Send(e)), steps + [Send(e)])
  {
    forall i: nat | i < |job.logs| ensures Midway(s0, Apply(job, s, Send(e)), steps + [Send(e)], i) {
      assert Midway(s0, s, steps, i);
      MidwayStays(s0, s, Apply(job, s, Send(e)), steps, Send(e), i);
    }
  }

  lemma CancelStartsDrain(job: Job, s0: Sys, steps: seq<Step>)
    requires Shape(job, s0) && Enabled(job, s0, CancelContext)
    ensures DrainsFrom(job, s0, Apply(job, s0, CancelContext), steps)
  {
    forall i: nat | i < |job.logs| ensures Midway(s0, Apply(job, s0, CancelContext), steps, i) {
    }
  }

  // ---- Whole runs ----

  /** Which steps lead into a drain of the context. */
  lemma IntoDrain(job: Job, s: Sys, step: Step, s': Sys)
    requires Next(job, s, step, s') && s'.phase.DrainingContext?
    ensures step == CancelContext || ((step.Send? || step.Receive?) && s.phase.DrainingContext?)
  {
  }

  lemma {:induction false} DrainHasBegun(job: Job, states: seq<Sys>, steps: seq<Step>, n: nat) returns (k: nat)
    requires ValidJob(job) && Run(job, states, steps) && n < |states| && states[n].phase.DrainingContext?
    ensures k < n && steps[k] == CancelContext && states[k].phase.Running?
    ensures DrainsFrom(job, states[k], states[n], steps[..n])
  {
    assert n > 0 by { assert states[0] == Init(job); }
    var m := n - 1;
    RunNext(job, states, steps, m);
    IntoDrain(job, states[m], steps[m], states[n]);
    assert steps[..n] == steps[..m] + [steps[m]];
    if steps[m] == CancelContext {
      k := m;
      CancelStartsDrain(job, states[m], steps[..n]);
    } else {
      k := DrainHasBegun(job, states, steps, m);
      DrainStep(job, states, steps, k, m);
    }
  }

  lemma DrainStep(job: Job, states: seq<Sys>, steps: seq<Step>, k: nat, m: nat)
    requires ValidJob(job) && Run(job, states, steps) && k < m < |steps| && states[k].phase.Running?
    requires DrainsFrom(job, states[k], states[m], steps[..m]) && (steps[m].Send? || steps[m].Receive?)
    ensures DrainsFrom(job, states[k], states[m + 1], steps[..m] + [steps[m]])
  {
    RunNext(job, states, steps, m);
    if steps[m].Send? {
      SendInDrain(job, states[k], states[m], steps[..m], steps[m].e);
    } else {
      RunsOpen(job, states, steps, k);
      RunInvariant(job, states, steps, m);
      ArrivedWereSent(job, states, steps, m);
      ReceiveInDrain(job, states[k], states[m], steps[..m]);
    }
  }

  /** Once `submit` has returned, nothing more happens. */
  lemma ReturnIsFinal(job: Job, s: Sys, step: Step)
    requires Invariant(job, s) && !Active(s.phase)
    ensures !Enabled(job, s, step)
  {
    ReturnLeavesNothing(job, s);
  }

  /** The drain of the context ends in `s`, and `submit` returns in `s'`. */
  ghost predicate Concludes(job: Job, s: Sys, s': Sys) {
    && s.phase.DrainingContext? && s.pending == {} && s'.c.began == s.c.began
    && |s.c.outcome| == |job.logs| && s'.c.outcome == Annotate(job, s.c.outcome)
  }

  lemma ReturnFromDrain(job: Job, s: Sys, step: Step, s': Sys)
    requires Invariant(job, s) && Next(job, s, step, s') && s'.phase.ContextError?
    ensures step == Return && Concludes(job, s, s')
  {
    if !Active(s.phase) { ReturnIsFinal(job, s, step); }
  }

  /** The final annotation of a member. */
  lemma AnnotatedAfterCancel(job: Job, s0: Sys, s: Sys, s': Sys, steps: seq<Step>, i: nat)
    requires Open(s0, i) && i in Eligible(job.logs)
    requires DrainsFrom(job, s0, s, steps) && Concludes(job, s, s')
    ensures AfterCancel(s0, s', steps + [Return], i)
  {
    assert Midway(s0, s, steps, i);
    if i in s0.pending {
      ReplyStays(steps, Return, i, s.c.outcome[i]);
    }
  }

  lemma AllAfterCancel(job: Job, s0: Sys, s: Sys, s': Sys, steps: seq<Step>)
    requires AllOpen(job, s0) && DrainsFrom(job, s0, s, steps) && Concludes(job, s, s')
    ensures s'.c.began == s0.c.began
    ensures forall i | i in Eligible(job.logs) :: AfterCancel(s0, s', steps + [Return], i)
  {
    forall i | i in Eligible(job.logs) ensures AfterCancel(s0, s', steps + [Return], i) {
      assert Open(s0, i);
      AnnotatedAfterCancel(job, s0, s, s', steps, i);
    }
  }

  lemma LastIsReturn(job: Job, states: seq<Sys>, steps: seq<Step>, m: nat)
    requires ValidJob(job) && Run(job, states, steps) && |steps| == m + 1 && states[m + 1].phase.ContextError?
    ensures steps[m] == Return && Concludes(job, states[m], states[m + 1])
  {
    RunNext(job, states, steps, m);
    RunInvariant(job, states, steps, m);
    ReturnFromDrain(job, states[m], steps[m], states[m + 1]);
  }

  lemma TakesTime(job: Job, states: seq<Sys>, steps: seq<Step>)
    requires Run(job, states, steps) && !states[|steps|].phase.Running?
    ensures |steps| > 0
  {
    assert states[0] == Init(job);
  }

  lemma DrainedIsInterrupted(job: Job, states: seq<Sys>, steps: seq<Step>, k: nat, m: nat)
    requires |states| == |steps| + 1 == m + 2 && k < m
    requires steps[k] == CancelContext && steps[m] == Return && AllOpen(job, states[k])
    requires DrainsFrom(job, states[k], states[m], steps[..m]) && Concludes(job, states[m], states[m + 1])
    ensures Interrupted(job, states, steps, k)
  {
    assert steps == steps[..m] + [Return];
    AllAfterCancel(job, states[k], states[m], states[m + 1], steps[..m]);
  }

  /**
    Every run that ends with a context error: nothing was launched after the context had ended; each member in
    flight then has the outcome of a terminal event that its worker sent, each other launched member kept the
    outcome it had, and each eligible member that was not launched is marked as not attempted.
   */
  lemma ContextErrorAccountsForAll(job: Job, states: seq<Sys>, steps: seq<Step>) returns (k: nat)
    requires ValidJob(job) && Run(job, states, steps) && states[|steps|].phase.ContextError?
    ensures Interrupted(job, states, steps, k)
  {
    TakesTime(job, states, steps);
    var m := |steps| - 1;
    LastIsReturn(job, states, steps, m);
    k := DrainHasBegun(job, states, steps, m);
    RunsOpen(job, states, steps, k);
    DrainedIsInterrupted(job, states, steps, k, m);
  }
}
