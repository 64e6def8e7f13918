/** Which logs a failed submission leaves untried, and for which requests it can leave any. */
module Untried {
  import opened Logs
  import opened Q = Quorum
  import opened Coordinator
  import opened Machine
  import opened Collection
  import opened Liveness
  import opened Guarantees

  /** Neither a missing operator nor a missing wanted type, nor the count, could be had from the log. */
  predicate HasNothingMissing(q: Quorum, sr: Request, log: Log) {
    && |q.responses| >= sr.scts
    && (|q.operators| < sr.operators ==> log.operator in q.operators)
    && (sr.requireRFC6962 && !q.hasRFC6962 ==> log.logType != RFC6962)
    && (sr.preferStatic && !q.hasStatic ==> log.logType != Static)
  }

  /** After a failure every untried log has nothing that was missing; while SCTs are missing no log is untried. */
  lemma UntriedLacks(job: Job, states: seq<Sys>, steps: seq<Step>)
    requires ValidJob(job) && Run(job, states, steps) && states[|steps|].phase.QuorumMissed?
    ensures var s := states[|steps|];
            && (forall i | i in Unattempted(job, s.c) :: HasNothingMissing(s.c.q, job.sr, job.logs[i]))
            && (|s.c.q.responses| < job.sr.scts ==> Unattempted(job, s.c) == {})
  {
    RunGuaranteed(job, states, steps, |steps|);
    var s := states[|steps|];
    forall i | i in Unattempted(job, s.c) ensures HasNothingMissing(s.c.q, job.sr, job.logs[i]) {
      assert !HelpsQuorum(s.c.q, job.sr, job.logs[i]);
    }
    if i :| i in Unattempted(job, s.c) {
      assert HasNothingMissing(s.c.q, job.sr, job.logs[i]);
    }
  }

  /** The request can be missed for want of SCTs only. */
  predicate CountsOnly(sr: Request) {
    sr.operators <= 1 && !sr.requireRFC6962
  }

  /** For such a request, failure does mean that every eligible log was attempted. */
  lemma FailureTriesAll(job: Job, states: seq<Sys>, steps: seq<Step>)
    requires ValidJob(job) && Run(job, states, steps) && states[|steps|].phase.QuorumMissed?
    requires CountsOnly(job.sr)
    ensures Unattempted(job, states[|steps|].c) == {}
  {
    RunGuaranteed(job, states, steps, |steps|);
    UntriedLacks(job, states, steps);
    SomethingCollected(states[|steps|].c.q, job.logs);
  }
}
