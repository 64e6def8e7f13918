/**
  The one case in which `submit` delivers more SCTs than were requested does occur: the required
  RFC 6962 log is slow, so that the preferred Static log is tried too and replies first.
 */
module Surplus {
  import opened Logs
  import opened Q = Quorum
  import opened Workers
  import opened Coordinator
  import opened Machine
  import opened Collection
  import opened Liveness
  import opened Theorems
  import T = Trim

  const JOB := Job(T.STATIC_FIRST, T.BOTH_TYPES, [NoOutcome, NoOutcome])

  lemma JobIsValid()
    ensures ValidJob(JOB) && Eligible(JOB.logs) == {0, 1}
  {
    assert 0 in Eligible(JOB.logs);
  }

  /** The initial batch is the RFC 6962 log. */
  lemma StartsWithRFC6962()
    ensures InitialBatch(JOB) == Launch(Start(JOB), 1)
  {
    JobIsValid();
    assert OfType(JOB.logs, Unattempted(JOB, Start(JOB)), RFC6962) == {1};
    assert |{0, 1}| == 2;
  }

  /** When it is slow, the Static log is launched. */
  lemma SlowLaunchesStatic(c: Coord)
    requires c.q == EMPTY && c.began == {1} && c.normal == {}
    ensures Candidates(JOB, c) == {0}
  {
    JobIsValid();
    assert Unattempted(JOB, c) == {0};
    assert Helpful(JOB, c) == {0};
  }

  /** The main loop is waiting for the logs of `normal` and `slow`. */
  ghost predicate Waiting(s: Sys, normal: set<nat>, slow: set<nat>, q: Quorum, w0: Worker, w1: Worker,
      arrived: seq<Event>) {
    && s.phase.Running? && s.chan == [] && s.workers == [w0, w1] && |s.c.outcome| == 2
    && s.c.normal == normal && s.c.slow == slow && normal <= {0, 1}
    && s.c.inFlight == |normal| + |slow| && s.c.q == q && s.arrived == arrived
    && Shape(JOB, s)
  }

  lemma StartsWaiting()
    ensures Waiting(Init(JOB), {1}, {}, EMPTY, Idle, Busy(false, false), []) && Init(JOB).c.began == {1}
  {
    StartsWithRFC6962();
  }

  /** The two steps that bring an event of worker `e.idx` to the coordinator. */
  ghost function Sending(s: Sys, e: Event): Sys
    requires Shape(JOB, s) && e.idx < |s.workers| && MaySend(s.workers[e.idx], e)
  {
    s.(workers := s.workers[e.idx := AfterSend(s.workers[e.idx], e)], chan := s.chan + [e])
  }

  lemma SendIsNext(s: Sys, e: Event)
    requires Shape(JOB, s) && s.chan == [] && e.idx < |s.workers| && MaySend(s.workers[e.idx], e)
    ensures Next(JOB, s, Send(e), Sending(s, e)) && Shape(JOB, Sending(s, e)) && Sending(s, e).chan == [e]
  {
    JobIsValid();
    assert |{0, 1}| == 2;
  }

  lemma RFC6962IsSlow(s: Sys) returns (s1: Sys, s2: Sys)
    requires Waiting(s, {1}, {}, EMPTY, Idle, Busy(false, false), []) && s.c.began == {1}
    ensures Next(JOB, s, Send(TryNext(1)), s1) && Next(JOB, s1, Receive, s2)
    ensures Waiting(s2, {0}, {1}, EMPTY, Busy(false, false), Busy(true, false), [])
  {
    s1 := Sending(s, TryNext(1));
    SendIsNext(s, TryNext(1));
    s2 := Apply(JOB, s1, Receive);
    SlowLaunchesStatic(Take(JOB, s1).c);
    assert Take(JOB, s1).c.normal == {} && {} + {0} == {0};
  }

  lemma StaticReplies(s: Sys) returns (s1: Sys, s2: Sys)
    requires Waiting(s, {0}, {1}, EMPTY, Busy(false, false), Busy(true, false), [])
    ensures Next(JOB, s, Send(Success(0, "r0", "s0")), s1) && Next(JOB, s1, Receive, s2)
    ensures Waiting(s2, {}, {1}, AddSuccess(EMPTY, JOB.logs, 0, "r0", "s0"), Done, Busy(true, false),
                    [Success(0, "r0", "s0")])
  {
    var e := Success(0, "r0", "s0");
    s1 := Sending(s, e);
    SendIsNext(s, e);
    s2 := Apply(JOB, s1, Receive);
    assert {0} - {0} == {} && {1} - {0} == {1};
  }

  lemma RFC6962Replies(s: Sys) returns (s1: Sys, s2: Sys, s3: Sys)
    requires Waiting(s, {}, {1}, AddSuccess(EMPTY, JOB.logs, 0, "r0", "s0"), Done, Busy(true, false),
                     [Success(0, "r0", "s0")])
    ensures Next(JOB, s, Send(Success(1, "r1", "s1")), s1) && Next(JOB, s1, Receive, s2) && Next(JOB, s2, Return, s3)
    ensures s3.phase.QuorumReached? && 0 in Senders(s3.arrived)
  {
    var e := Success(1, "r1", "s1");
    s1 := Sending(s, e);
    SendIsNext(s, e);
    s2 := Apply(JOB, s1, Receive);
    T.BothAreAccepted("r0", "s0", "r1", "s1");
    assert s2.phase.DrainingQuorum? && s2.c.inFlight == 0;
    s3 := Apply(JOB, s2, Return);
    assert s3.arrived[0].idx == 0;
  }

  /** A run that goes on from its last state. */
  ghost predicate Reaches(states: seq<Sys>, steps: seq<Step>, s: Sys) {
    Run(JOB, states, steps) && states[|steps|] == s
  }

  lemma OneMore(states: seq<Sys>, steps: seq<Step>, s: Sys, step: Step, s': Sys)
    requires Reaches(states, steps, s) && Next(JOB, s, step, s')
    ensures Reaches(states + [s'], steps + [step], s')
  {
    RunSnoc(JOB, states, steps, step, s');
  }

  lemma ReachedWithStatic(states: seq<Sys>, steps: seq<Step>, s: Sys)
    requires Reaches(states, steps, s) && s.phase.QuorumReached? && 0 in Senders(s.arrived)
    ensures ValidJob(JOB) && |s.c.q.scts| == 2
  {
    JobIsValid();
    SuccessDelivers(JOB, states, steps);
    assert JOB.logs[0].logType == Static;
  }

  lemma BothReply(states0: seq<Sys>, steps0: seq<Step>, s2: Sys) returns (states: seq<Sys>, steps: seq<Step>, s: Sys)
    requires Reaches(states0, steps0, s2)
    requires Waiting(s2, {0}, {1}, EMPTY, Busy(false, false), Busy(true, false), [])
    ensures Reaches(states, steps, s) && s.phase.QuorumReached? && 0 in Senders(s.arrived)
  {
    var s3, s4 := StaticReplies(s2);
    var s5, s6, s7 := RFC6962Replies(s4);
    var e0, e1 := Success(0, "r0", "s0"), Success(1, "r1", "s1");
    OneMore(states0, steps0, s2, Send(e0), s3);
    states, steps := states0 + [s3], steps0 + [Send(e0)];
    OneMore(states, steps, s3, Receive, s4);
    states, steps := states + [s4], steps + [Receive];
    OneMore(states, steps, s4, Send(e1), s5);
    states, steps := states + [s5], steps + [Send(e1)];
    OneMore(states, steps, s5, Receive, s6);
    states, steps := states + [s6], steps + [Receive];
    OneMore(states, steps, s6, Return, s7);
    states, steps, s := states + [s7], steps + [Return], s7;
  }

  /** A run of `submit` that delivers two SCTs although one was requested. */
  lemma TwoAreDelivered() returns (states: seq<Sys>, steps: seq<Step>)
    ensures ValidJob(JOB) && Run(JOB, states, steps) && states[|steps|].phase.QuorumReached?
    ensures |states[|steps|].c.q.scts| == 2 == JOB.sr.scts + 1
  {
    var s0 := Init(JOB);
    StartsWaiting();
    var s1, s2 := RFC6962IsSlow(s0);
    states, steps := [s0], [];
    OneMore(states, steps, s0, Send(TryNext(1)), s1);
    states, steps := states + [s1], steps + [Send(TryNext(1))];
    OneMore(states, steps, s1, Receive, s2);
    states, steps := states + [s2], steps + [Receive];
    var s;
    states, steps, s := BothReply(states, steps, s2);
    ReachedWithStatic(states, steps, s);
  }
}
