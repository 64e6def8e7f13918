/** In which order every run of `submit` launches its logs, and when it looks for another one. */
module Launches {
  import opened Logs
  import opened Finite
  import opened Q = Quorum
  import opened Coordinator
  import opened Machine
  import opened Liveness

  /** Events after which another log is looked for: a try-next, or the last terminal event outstanding. */
  ghost predicate CallsForNext(s: Sys, e: Event) {
    e.TryNext? || (e.Terminal() && s.pending == {e.idx})
  }

  /** The coordinator after the event that led from `s` to `s'`, and before the launch that followed it. */
  ghost function BeforeLaunch(s: Sys, s': Sys): Coord {
    s'.c.(began := s.c.began, normal := s'.c.normal - (s'.c.began - s.c.began))
  }

  /**
    One step: only a receipt in the main loop launches, at most one log, after an event that calls for one. It
    is the log that strategy order calls for; and if none is launched then, none would have helped.
   */
  ghost predicate LaunchesRight(job: Job, s: Sys, step: Step, s': Sys) {
    && s.c.began <= s'.c.began && |s'.c.began - s.c.began| <= 1
    && InRange(job.logs, BeforeLaunch(s, s').normal)
    && (forall i | i in s'.c.began - s.c.began ::
          && step.Receive? && s.phase.Running? && s'.phase.Running? && s.chan != [] && CallsForNext(s, s.chan[0])
          && i in s'.c.normal && IsNext(job, BeforeLaunch(s, s'), i))
    && (step.Receive? && s.phase.Running? && s'.phase.Running? && s.chan != [] && CallsForNext(s, s.chan[0])
        && s'.c.began == s.c.began ==>
          forall j | j in Unattempted(job, s'.c) :: !Helps(job, BeforeLaunch(s, s'), j))
  }

  lemma CallsAreLaunches(job: Job, s: Sys)
    requires Shape(job, s) && SetsOk(job, s) && s.phase.Running? && s.chan != [] && s.chan[0].idx in s.pending
    ensures var s1 := Take(job, s);
            s1.phase.Running? ==> (LaunchesAfter(job, s1.c, s.chan[0]) <==> CallsForNext(s, s.chan[0]))
  {
    var e := s.chan[0];
    AbsorbSets(job, s.c, e);
    assert |s.pending| == 1 ==> s.pending == {e.idx} by { SubsetSize({e.idx}, s.pending); }
  }

  /** Only `began` and `normal` tell the state after a launch from the one before it, as far as candidates go. */
  lemma SameCandidates(job: Job, c: Coord, d: Coord, i: nat)
    requires c.q == d.q && c.began == d.began && c.normal == d.normal && InRange(job.logs, c.normal)
    requires IsNext(job, c, i)
    ensures IsNext(job, d, i)
  {
    forall j | j in Unattempted(job, d)
      ensures Helps(job, d, j) == Helps(job, c, j) && IsNeeded(job, d, j) == IsNeeded(job, c, j)
    {
    }
  }

  lemma LaunchIsRight(job: Job, s: Sys, s1: Sys, i: nat)
    requires s.phase.Running? && s1.phase.Running? && s.chan != [] && CallsForNext(s, s.chan[0])
    requires s1.c.began == s.c.began && InRange(job.logs, s1.c.normal) && i !in s1.c.normal && i < |s1.workers|
    requires IsNext(job, s1.c, i)
    ensures LaunchesRight(job, s, Receive, LaunchWorker(s1, i))
  {
    var s' := LaunchWorker(s1, i);
    assert s'.c.began - s.c.began == {i} && s'.c.normal - {i} == s1.c.normal;
    SameCandidates(job, s1.c, BeforeLaunch(s, s'), i);
  }

  lemma NoLaunchIsRight(job: Job, s: Sys, s1: Sys)
    requires s1.c.began == s.c.began && InRange(job.logs, s1.c.normal)
    requires s.phase.Running? && s1.phase.Running? && s.chan != [] && CallsForNext(s, s.chan[0]) ==>
               forall j | j in Unattempted(job, s1.c) :: !Helps(job, s1.c, j)
    ensures LaunchesRight(job, s, Receive, s1)
  {
    assert s1.c.began - s.c.began == {} && s1.c.normal - {} == s1.c.normal;
    assert BeforeLaunch(s, s1) == s1.c;
  }

  lemma ReceiptLaunchesRight(job: Job, s: Sys)
    requires Invariant(job, s) && s.phase.Running? && Enabled(job, s, Receive)
    ensures LaunchesRight(job, s, Receive, Apply(job, s, Receive))
  {
    var s1, e := Take(job, s), s.chan[0];
    assert e.idx in s.pending;
    AbsorbSets(job, s.c, e);
    CallsAreLaunches(job, s);
    CandidateIsNext(job, s1.c);
    var next := Candidates(job, s1.c);
    if s1.phase.Running? && LaunchesAfter(job, s1.c, e) && next != {} {
      UntriedIsNotInFlight(job, s, MinOf(next));
      LaunchIsRight(job, s, s1, MinOf(next));
    } else {
      NoLaunchIsRight(job, s, s1);
    }
  }

  lemma UntriedIsNotInFlight(job: Job, s: Sys, i: nat)
    requires Invariant(job, s) && s.phase.Running? && s.chan != [] && i in Unattempted(job, Take(job, s).c)
    ensures i !in Take(job, s).c.normal
  {
    TakeOk(job, s);
  }

  lemma OthersLaunchNothing(job: Job, s: Sys, step: Step)
    requires Shape(job, s) && Enabled(job, s, step) && !(step.Receive? && s.phase.Running?)
    ensures LaunchesRight(job, s, step, Apply(job, s, step))
  {
    assert Apply(job, s, step).c.began - s.c.began == {};
    assert Apply(job, s, step).c.normal - {} == s.c.normal;
  }

  /** Every step of every run launches in strategy order, and exactly when it is called for. */
  lemma RunLaunchesRight(job: Job, states: seq<Sys>, steps: seq<Step>, k: nat)
    requires ValidJob(job) && Run(job, states, steps) && k < |steps|
    ensures LaunchesRight(job, states[k], steps[k], states[k + 1])
  {
    RunStep(job, states, steps, k);
    if steps[k].Receive? && states[k].phase.Running? {
      ReceiptLaunchesRight(job, states[k]);
    } else {
      OthersLaunchNothing(job, states[k], steps[k]);
    }
  }

  /**
    Type coverage over runs: if log `i` is launched while some untried log is of a needed type, then `i` is the
    first such log. The helpfulness guard never turns it down.
   */
  lemma NeededTypeIsLaunched(job: Job, states: seq<Sys>, steps: seq<Step>, k: nat, i: nat, j: nat)
    requires ValidJob(job) && Run(job, states, steps) && k < |steps|
    requires i in states[k + 1].c.began - states[k].c.began && j in Eligible(job.logs) - states[k].c.began
    ensures var c := BeforeLaunch(states[k], states[k + 1]);
            InRange(job.logs, c.normal) && (IsNeeded(job, c, j) ==> IsNeeded(job, c, i) && i <= j)
  {
    RunLaunchesRight(job, states, steps, k);
    var c := BeforeLaunch(states[k], states[k + 1]);
    if IsNeeded(job, c, j) { NeededHelps(job, c, j); }
  }
}
