/**
  `submit` itself: the coordinator's variables and closures as a class, its workers and channel,
  and the event loop. The environment is consulted through nondeterministic choices; a ghost
  history shows that every execution is a run of the state machine.
 */
module Submitter {
  import opened Logs
  import opened Finite
  import opened Workers
  import opened Coordinator
  import opened M = Machine
  import opened Liveness
  import Q = Quorum
  import QS = QuorumStates
  import Theorems
  import Interruption

  datatype Result =
    | Delivered(responses: seq<Response>, scts: seq<Sct>)
    | NotAchieved(reasons: seq<Q.Reason>)
    | ContextDone
    | NoEligibleLogs

  /** The `eligible` slice: the strategy indices of the logs that are not excluded, in order. */
  ghost predicate IsEligibleList(logs: seq<Log>, eligible: seq<nat>) {
    && (forall j, k | 0 <= j < k < |eligible| :: eligible[j] < eligible[k])
    && (forall k | 0 <= k < |eligible| :: eligible[k] in Eligible(logs))
    && (forall i | i in Eligible(logs) :: i in eligible)
  }

  method EligibleList(logs: seq<Log>) returns (eligible: seq<nat>)
    ensures IsEligibleList(logs, eligible) && |eligible| == |Eligible(logs)|
  {
    eligible := [];
    for i := 0 to |logs|
      invariant forall k | 0 <= k < |eligible| :: eligible[k] < i && eligible[k] in Eligible(logs)
      invariant forall j, k | 0 <= j < k < |eligible| :: eligible[j] < eligible[k]
      invariant forall j | j in Eligible(logs) && j < i :: j in eligible
    {
      if logs[i].bucket != Excluded {
        eligible := eligible + [i];
      }
    }
    assert Q.Elements(eligible) == Eligible(logs);
    Q.DistinctSize(eligible);
  }

  class Submission {
    const logs: seq<Log>
    const sr: Request
    const eligible: seq<nat>
    const strategy: QS.Strategy
    const qs: QS.QuorumState
    ghost const initial: seq<Outcome>

    // The local variables of submit.
    var inFlight: int
    var normal: set<nat>
    var slow: set<nat>
    var launchSeq: int

    // The goroutines and the channel.
    var workers: seq<Worker>
    var chan: seq<Event>

    ghost var phase: Phase
    ghost var pending: set<nat>
    ghost var arrived: seq<Event>

    ghost function TheJob(): Job {
      Job(logs, sr, initial)
    }

    ghost function View(): Coord
      reads this, strategy, qs
    {
      Coord(strategy.outcome, strategy.began, inFlight, normal, slow, launchSeq, qs.View())
    }

    ghost function State(): Sys
      reads this, strategy, qs
    {
      Sys(phase, View(), workers, chan, pending, arrived)
    }

    ghost predicate Fixed() {
      strategy.logs == logs && IsEligibleList(logs, eligible) && |eligible| == |Eligible(logs)|
    }

    constructor (strategy: QS.Strategy, sr: Request, eligible: seq<nat>)
      requires IsEligibleList(strategy.logs, eligible) && |eligible| == |Eligible(strategy.logs)|
      requires strategy.began == {}
      ensures Fixed() && this.strategy == strategy && this.sr == sr
      ensures initial == strategy.outcome
      ensures fresh(qs)
      ensures State() == Launched(TheJob(), Start(TheJob()))
    {
      this.logs, this.sr, this.eligible, this.strategy := strategy.logs, sr, eligible, strategy;
      this.initial := strategy.outcome;
      this.qs := new QS.QuorumState();
      this.inFlight, this.normal, this.slow, this.launchSeq := 0, {}, {}, 0;
      this.workers := seq(|strategy.logs|, i => Idle);
      this.chan := [];
      this.phase, this.pending, this.arrived := Running, {}, [];
    }

    /** `launchEligible`: count the log as in flight and start its goroutine. */
    method LaunchEligible(i: nat)
      requires i < |workers|
      modifies this`inFlight, this`normal, this`launchSeq, this`workers, this`pending, strategy`began
      ensures State() == LaunchWorker(old(State()), i)
    {
      inFlight := inFlight + 1;
      normal := normal + {i};
      launchSeq := launchSeq + 1;
      strategy.began := strategy.began + {i};
      workers := workers[i := Busy(false, false)];
      pending := pending + {i};
    }

    /** `ensureLogType`: the first unattempted log of the type joins the initial batch, if there is room. */
    method EnsureLogType(t: LogType, initialBatch: int)
      requires Fixed() && initialBatch == BatchSize(TheJob())
      requires State() == Launched(TheJob(), View())
      modifies this`inFlight, this`normal, this`launchSeq, this`workers, this`pending, strategy`began
      ensures View() == Coordinator.EnsureLogType(TheJob(), old(View()), t)
      ensures State() == Launched(TheJob(), View())
    {
      if launchSeq >= initialBatch { return; }
      ghost var from := OfType(logs, Unattempted(TheJob(), View()), t);
      for k := 0 to |eligible|
        invariant State() == old(State())
        invariant forall j | 0 <= j < k :: eligible[j] !in from
      {
        var i := eligible[k];
        if i !in strategy.began && logs[i].logType == t {
          FirstInOrder(k, from);
          LaunchEligible(i);
          return;
        }
      }
      NoneInOrder(from);
    }

    /** The first listed member of `from` is its smallest. */
    lemma FirstInOrder(k: nat, from: set<nat>)
      requires Fixed() && from <= Eligible(logs)
      requires k < |eligible| && eligible[k] in from && forall j | 0 <= j < k :: eligible[j] !in from
      ensures from != {} && eligible[k] == MinOf(from)
    {
      var m := MinOf(from);
      var j :| 0 <= j < |eligible| && eligible[j] == m;
    }

    lemma NoneInOrder(from: set<nat>)
      requires Fixed() && from <= Eligible(logs)
      requires forall j | 0 <= j < |eligible| :: eligible[j] !in from
      ensures from == {}
    {
    }

    method LaunchInitialBatch()
      requires Fixed() && State() == Launched(TheJob(), Start(TheJob()))
      modifies this`inFlight, this`normal, this`launchSeq, this`workers, this`pending, strategy`began
      ensures State() == Init(TheJob())
    {
      var initialBatch := sr.scts;
      if initialBatch > |eligible| {
        initialBatch := |eligible|;
      }
      if sr.requireRFC6962 {
        EnsureLogType(RFC6962, initialBatch);
      }
      if sr.preferStatic {
        EnsureLogType(Static, initialBatch);
      }
      FillInitialBatch(initialBatch);
    }

    method FillInitialBatch(initialBatch: int)
      requires Fixed() && initialBatch == BatchSize(TheJob())
      requires State() == Launched(TheJob(), View())
      modifies this`inFlight, this`normal, this`launchSeq, this`workers, this`pending, strategy`began
      ensures View() == FillBatch(TheJob(), old(View()))
      ensures State() == Launched(TheJob(), View())
    {
      var k := 0;
      while k < |eligible| && launchSeq < initialBatch
        invariant k <= |eligible|
        invariant State() == Launched(TheJob(), View())
        invariant FillBatch(TheJob(), View()) == FillBatch(TheJob(), old(View()))
        invariant forall j | 0 <= j < k :: eligible[j] in strategy.began
      {
        var i := eligible[k];
        if i !in strategy.began {
          FirstInOrder(k, Unattempted(TheJob(), View()));
          LaunchEligible(i);
        }
        k := k + 1;
      }
      if launchSeq < initialBatch {
        NoneInOrder(Unattempted(TheJob(), View()));
      }
    }

    // ---- startNextEligible ----

    /** Is type `t` wanted, not collected, and not covered by a normal in-flight log? */
    method Needs(t: LogType) returns (needed: bool)
      requires Fixed() && Q.InRange(logs, normal)
      ensures needed == NeedsType(TheJob(), View(), t)
    {
      needed := if t == RFC6962 then sr.requireRFC6962 && !qs.hasRFC6962 else sr.preferStatic && !qs.hasStatic;
      if needed {
        var rest := normal;
        while rest != {}
          invariant rest <= normal
          invariant needed <==> forall i | i in normal - rest :: logs[i].logType != t
          decreases rest
        {
          var idx :| idx in rest;
          if logs[idx].logType == t {
            needed := false;
          }
          rest := rest - {idx};
        }
      }
    }

    /** The first unattempted log of a wanted type that would help, in strategy order. */
    method FirstHelpful(wantRFC6962: bool, wantStatic: bool) returns (i: Option<nat>)
      requires Fixed() && Q.InRange(logs, normal)
      ensures var from := WantedHelpful(TheJob(), View(), wantRFC6962, wantStatic);
              if i.None? then from == {} else from != {} && i.value == MinOf(from)
    {
      ghost var from := WantedHelpful(TheJob(), View(), wantRFC6962, wantStatic);
      for k := 0 to |eligible|
        invariant forall j | 0 <= j < k :: eligible[j] !in from
      {
        var idx := eligible[k];
        if idx !in strategy.began && Wanted(logs[idx].logType, wantRFC6962, wantStatic) {
          var helps := qs.WouldHelp(sr, logs[idx], logs, normal);
          if helps {
            FirstInOrder(k, from);
            return Some(idx);
          }
        }
      }
      NoneInOrder(from);
      return None;
    }

    /** The first helpful log of a needed type, or else the first helpful log. */
    method NextLog() returns (i: Option<nat>)
      requires Fixed() && Q.InRange(logs, normal)
      ensures var from := Candidates(TheJob(), View());
              if i.None? then from == {} else from != {} && i.value == MinOf(from)
    {
      var needRFC6962 := Needs(RFC6962);
      var needStatic := Needs(Static);
      CandidatesAreWanted(TheJob(), View());
      i := None;
      if needRFC6962 || needStatic {
        i := FirstHelpful(needRFC6962, needStatic);
      }
      if i.None? {
        i := FirstHelpful(true, true);
      }
    }

    method StartNextEligible()
      requires Fixed() && Shape(TheJob(), State())
      modifies this`inFlight, this`normal, this`launchSeq, this`workers, this`pending, strategy`began
      ensures State() == LaunchNext(TheJob(), old(State()))
      ensures LaunchedInOrder(TheJob(), old(View()), View())
    {
      var i := NextLog();
      CandidateIsNext(TheJob(), View());
      if i.Some? {
        LaunchEligible(i.value);
      }
    }

    // ---- Events ----

    method MarkCancelled(ids: set<nat>)
      requires Under(ids, |strategy.outcome|)
      modifies strategy`outcome
      ensures strategy.outcome == Mark(old(strategy.outcome), ids, CancelledQuorumMet)
    {
      var rest := ids;
      while rest != {}
        invariant rest <= ids
        invariant strategy.outcome == Mark(old(strategy.outcome), ids - rest, CancelledQuorumMet)
        decreases rest
      {
        var idx :| idx in rest;
        strategy.outcome := strategy.outcome[idx := CancelledQuorumMet];
        rest := rest - {idx};
      }
      assert ids - {} == ids;
    }

    method HandleSuccess(e: Event) returns (met: bool)
      requires e.Success? && Shape(TheJob(), State()) && e.idx < |logs|
      requires Under(normal + slow, |logs|)
      modifies this`inFlight, this`normal, this`slow, strategy`outcome, qs
      ensures View() == Absorb(TheJob(), old(View()), e)
      ensures met == Q.IsQuorumMet(qs.View(), sr)
    {
      inFlight, normal, slow := inFlight - 1, normal - {e.idx}, slow - {e.idx};
      var helps := qs.HelpsQuorum(sr, logs[e.idx]);
      if helps {
        strategy.outcome := strategy.outcome[e.idx := Successful];
        qs.AddSuccess(logs, e.idx, e.response, e.sct);
      } else {
        strategy.outcome := strategy.outcome[e.idx := NotHelping];
      }
      met := qs.IsQuorumMet(sr);
      if met {
        assert normal + slow <= old(normal + slow);
        MarkCancelled(normal + slow);
      }
    }

    /** The switch of the main loop, up to the launch of another log. */
    method Dispatch(e: Event) returns (met: bool)
      requires Shape(TheJob(), State()) && e.idx < |logs| && Under(normal + slow, |logs|)
      modifies this`inFlight, this`normal, this`slow, strategy`outcome, qs
      ensures View() == Absorb(TheJob(), old(View()), e)
      ensures met == (e.Success? && Q.IsQuorumMet(qs.View(), sr))
    {
      met := false;
      match e {
        case Success(i, _, _) =>
          met := HandleSuccess(e);
        case Failure(i, reason) =>
          inFlight, normal, slow := inFlight - 1, normal - {i}, slow - {i};
          strategy.outcome := strategy.outcome[i := Failed(reason)];
        case TryNext(i) =>
          normal, slow := normal - {i}, slow + {i};
        case Slow(_) =>
      }
    }

    /** Take the first event off the channel and deal with it. */
    method TakeEvent(e: Event) returns (met: bool)
      requires Shape(TheJob(), State()) && phase.Running? && chan != [] && e == chan[0]
      requires Under(normal + slow, |logs|)
      modifies this`inFlight, this`normal, this`slow, this`chan
      modifies this`phase, this`pending, this`arrived, strategy`outcome, qs
      ensures State() == Take(TheJob(), old(State()))
      ensures met == (e.Success? && Q.IsQuorumMet(qs.View(), sr))
    {
      met := Dispatch(e);
      chan := chan[1..];
      pending := if e.Terminal() then pending - {e.idx} else pending;
      arrived := if e.Success? then arrived + [e] else arrived;
      phase := if met then DrainingQuorum else Running;
    }

    /** One round of the main loop. */
    method HandleEvent() returns (met: bool)
      requires Fixed() && Shape(TheJob(), State()) && phase.Running? && inFlight > 0 && chan != []
      requires Under(normal + slow, |logs|)
      modifies this`inFlight, this`normal, this`slow, this`launchSeq, this`workers, this`chan
      modifies this`phase, this`pending, this`arrived, strategy`outcome, strategy`began, qs
      ensures State() == Apply(TheJob(), old(State()), Receive)
      ensures met ==> phase.DrainingQuorum?
      ensures !met ==> phase.Running?
    {
      var e := chan[0];
      met := TakeEvent(e);
      if !met && ((e.Terminal() && inFlight == 0) || e.TryNext?) {
        StartNextEligible();
      }
    }

    // ---- The goroutines ----

    predicate CanSend(e: Event)
      reads this
    {
      e.idx < |workers| && MaySend(workers[e.idx], e) && |chan| < |eligible|
    }

    method WorkerSends(e: Event, ghost states: seq<Sys>, ghost steps: seq<Step>)
      returns (ghost states': seq<Sys>, ghost steps': seq<Step>)
      requires Fixed() && CanSend(e) && Tracked(TheJob(), states, steps, State())
      modifies this`workers, this`chan
      ensures Tracked(TheJob(), states', steps', State())
      ensures State() == Apply(TheJob(), old(State()), Send(e))
      ensures Measure(TheJob(), State()) < old(Measure(TheJob(), State()))
    {
      StepDecreases(TheJob(), State(), Send(e));
      workers := workers[e.idx := AfterSend(workers[e.idx], e)];
      chan := chan + [e];
      states', steps' := Extend(TheJob(), states, steps, Send(e), State());
    }

    lemma SomeoneCanSend()
      requires Fixed() && Invariant(TheJob(), State()) && inFlight > 0 && Active(phase) && chan == []
      ensures exists e :: CanSend(e)
    {
      var step := NeverStuck(TheJob(), State(), {});
      assert CanSend(step.e);
    }

    /** Any number of workers send, until at least one event is waiting. */
    method Await(ghost states: seq<Sys>, ghost steps: seq<Step>)
      returns (ghost states': seq<Sys>, ghost steps': seq<Step>)
      requires Fixed() && Tracked(TheJob(), states, steps, State()) && inFlight > 0 && Active(phase)
      modifies this`workers, this`chan
      ensures Tracked(TheJob(), states', steps', State()) && chan != []
      ensures Measure(TheJob(), State()) <= old(Measure(TheJob(), State()))
    {
      states', steps' := states, steps;
      if chan == [] {
        SomeoneCanSend();
        var e :| CanSend(e);
        states', steps' := WorkerSends(e, states', steps');
      }
      var more: bool := *;
      while more
        invariant Tracked(TheJob(), states', steps', State()) && chan != []
        invariant Measure(TheJob(), State()) <= old(Measure(TheJob(), State()))
        decreases more, Measure(TheJob(), State())
      {
        var e: Event := *;
        if CanSend(e) {
          states', steps' := WorkerSends(e, states', steps');
          more := *;
        } else {
          more := false;
        }
      }
    }

    // ---- Draining and returning ----

    /** One round of a drain loop. Only a context error records what the workers report. */
    method DrainEvent(contextDone: bool)
      requires Shape(TheJob(), State()) && chan != [] && !phase.Running?
      requires contextDone <==> phase.DrainingContext?
      modifies this`inFlight, this`chan, this`pending, strategy`outcome
      ensures State() == M.Drain(TheJob(), old(State()))
    {
      var e := chan[0];
      chan := chan[1..];
      if e.Terminal() {
        inFlight := inFlight - 1;
        if contextDone && strategy.outcome[e.idx] == NoOutcome {
          strategy.outcome := strategy.outcome[e.idx := OutcomeOf(e)];
        }
        pending := pending - {e.idx};
      }
    }

    method Drain(contextDone: bool, ghost states: seq<Sys>, ghost steps: seq<Step>)
      returns (ghost states': seq<Sys>, ghost steps': seq<Step>)
      requires Fixed() && Tracked(TheJob(), states, steps, State())
      requires phase == if contextDone then DrainingContext else DrainingQuorum
      modifies this`workers, this`chan, this`inFlight, this`pending, strategy`outcome
      ensures Tracked(TheJob(), states', steps', State()) && inFlight <= 0
    {
      states', steps' := states, steps;
      while inFlight > 0
        invariant Tracked(TheJob(), states', steps', State())
        decreases Measure(TheJob(), State())
      {
        states', steps' := Await(states', steps');
        StepDecreases(TheJob(), State(), Receive);
        ghost var s := State();
        DrainEvent(contextDone);
        assert State() == Apply(TheJob(), s, Receive);
        states', steps' := Extend(TheJob(), states', steps', Receive, State());
      }
    }

    /** The deferred annotation of logs that were never contacted. */
    method AnnotateUnattempted()
      requires Fixed() && |strategy.outcome| == |logs|
      modifies strategy`outcome
      ensures strategy.outcome == Annotate(TheJob(), old(strategy.outcome))
    {
      for k := 0 to |eligible|
        invariant |strategy.outcome| == |logs|
        invariant forall i | 0 <= i < |logs| ::
          strategy.outcome[i] ==
            if i in eligible[..k]
                && old(strategy.outcome)[i] == NoOutcome then NotAttempted else old(strategy.outcome)[i]
      {
        var idx := eligible[k];
        if strategy.outcome[idx] == NoOutcome {
          strategy.outcome := strategy.outcome[idx := NotAttempted];
        }
      }
      assert eligible[..|eligible|] == eligible;
    }

    /** The return, once nothing is in flight any more. */
    method ReturnFrom(ghost states: seq<Sys>, ghost steps: seq<Step>, trim: bool)
      returns (ghost states': seq<Sys>, ghost steps': seq<Step>)
      requires Fixed() && Tracked(TheJob(), states, steps, State()) && Active(phase) && inFlight <= 0
      requires trim <==> phase.DrainingQuorum? || (phase.Running? && Q.IsQuorumMet(qs.View(), sr))
      modifies this`phase, strategy`outcome, qs`indices, qs`responses, qs`scts
      ensures Tracked(TheJob(), states', steps', State())
      ensures phase == if trim then QuorumReached else if old(phase).Running? then QuorumMissed else ContextError
      ensures !trim ==> qs.View() == old(qs.View())
    {
      ghost var s := State();
      if trim {
        qs.TrimToQuorum(sr, strategy);
      }
      AnnotateUnattempted();
      phase := if trim then QuorumReached else if phase.Running? then QuorumMissed else ContextError;
      assert State() == Finish(TheJob(), s);
      states', steps' := Extend(TheJob(), states, steps, Return, State());
    }

    /** Wait for an event and handle it. */
    method Round(ghost states: seq<Sys>, ghost steps: seq<Step>)
      returns (met: bool, ghost states': seq<Sys>, ghost steps': seq<Step>)
      requires Fixed() && Tracked(TheJob(), states, steps, State()) && phase.Running? && inFlight > 0
      modifies this, strategy`outcome, strategy`began, qs
      ensures Tracked(TheJob(), states', steps', State())
      ensures phase == if met then DrainingQuorum else Running
      ensures Measure(TheJob(), State()) < old(Measure(TheJob(), State()))
    {
      states', steps' := Await(states, steps);
      StepDecreases(TheJob(), State(), Receive);
      met := HandleEvent();
      states', steps' := Extend(TheJob(), states', steps', Receive, State());
    }

    /** The context is done: collect the terminal event of every worker, and return. */
    method AbortRun(ghost states: seq<Sys>, ghost steps: seq<Step>)
      returns (ghost states': seq<Sys>, ghost steps': seq<Step>)
      requires Fixed() && Tracked(TheJob(), states, steps, State()) && phase.Running? && inFlight > 0
      modifies this, strategy`outcome, qs`indices, qs`responses, qs`scts
      ensures Tracked(TheJob(), states', steps', State()) && phase.ContextError?
    {
      phase := DrainingContext;
      states', steps' := Extend(TheJob(), states, steps, CancelContext, State());
      states', steps' := Drain(true, states', steps');
      states', steps' := ReturnFrom(states', steps', false);
    }

    /** Quorum is met: collect the terminal event of every cancelled worker, trim, and return. */
    method CompleteRun(ghost states: seq<Sys>, ghost steps: seq<Step>)
      returns (ghost states': seq<Sys>, ghost steps': seq<Step>)
      requires Fixed() && Tracked(TheJob(), states, steps, State()) && phase.DrainingQuorum?
      modifies this, strategy`outcome, qs`indices, qs`responses, qs`scts
      ensures Tracked(TheJob(), states', steps', State()) && phase.QuorumReached?
    {
      states', steps' := Drain(false, states, steps);
      states', steps' := ReturnFrom(states', steps', true);
    }

    /** Nothing is in flight: re-check the quorum, and report what is missing. */
    method ConcludeRun(ghost states: seq<Sys>, ghost steps: seq<Step>)
      returns (result: Result, ghost states': seq<Sys>, ghost steps': seq<Step>)
      requires Fixed() && Tracked(TheJob(), states, steps, State()) && phase.Running? && inFlight <= 0
      modifies this, strategy`outcome, qs`indices, qs`responses, qs`scts
      ensures Tracked(TheJob(), states', steps', State())
      ensures ReturnedAs(result, phase, qs.View(), sr)
    {
      var late := qs.IsQuorumMet(sr);
      if late {
        states', steps' := ReturnFrom(states, steps, true);
        return Delivered(qs.responses, qs.scts), states', steps';
      }
      var reasons := Q.QuorumFailureReason(qs.View(), sr);
      states', steps' := ReturnFrom(states, steps, false);
      result := NotAchieved(reasons);
    }

    /** Everything after the eligibility check. */
    method Run() returns (result: Result, ghost states: seq<Sys>, ghost steps: seq<Step>)
      requires Fixed() && ValidJob(TheJob()) && State() == Launched(TheJob(), Start(TheJob()))
      modifies this, strategy`outcome, strategy`began, qs
      ensures Tracked(TheJob(), states, steps, State())
      ensures ReturnedAs(result, phase, qs.View(), sr)
    {
      LaunchInitialBatch();
      InitOk(TheJob());
      states, steps := [State()], [];
      while inFlight > 0
        invariant Tracked(TheJob(), states, steps, State()) && phase.Running?
        decreases Measure(TheJob(), State())
      {
        var contextDone: bool := *;
        if contextDone {
          states, steps := AbortRun(states, steps);
          return ContextDone, states, steps;
        }
        var met;
        met, states, steps := Round(states, steps);
        if met {
          states, steps := CompleteRun(states, steps);
          return Delivered(qs.responses, qs.scts), states, steps;
        }
      }
      result, states, steps := ConcludeRun(states, steps);
    }
  }

  /** How the returned value reflects the final phase and the collected state. */
  ghost predicate ReturnedAs(result: Result, phase: Phase, q: Q.Quorum, sr: Request) {
    match result
    case Delivered(responses, scts) => phase.QuorumReached? && responses == q.responses && scts == q.scts
    case NotAchieved(reasons) => phase.QuorumMissed? && reasons != [] && Q.Explains(reasons, q, sr)
    case ContextDone => phase.ContextError?
    case NoEligibleLogs => false
  }

  /**
    `submit`. A delivered result satisfies the policy with the replies of distinct logs; failure
    is reported only when the logs made the quorum impossible.
   */
  method Submit(strategy: QS.Strategy, sr: Request, contextDone: bool)
    returns (result: Result, ghost job: Job, ghost states: seq<Sys>, ghost steps: seq<Step>)
    requires |strategy.outcome| == |strategy.logs| && strategy.began == {}
    requires 1 <= sr.operators <= sr.scts
    requires forall i | i in Eligible(strategy.logs) :: strategy.outcome[i] == NoOutcome
    modifies strategy`outcome, strategy`began
    ensures job == Job(strategy.logs, sr, old(strategy.outcome)) && |states| == |steps| + 1
    ensures contextDone || Eligible(strategy.logs) == {} ==>
              strategy.outcome == old(strategy.outcome) && strategy.began == {}
              && result == if contextDone then ContextDone else NoEligibleLogs
    ensures !(contextDone || Eligible(strategy.logs) == {}) ==>
              var s := states[|steps|];
              && Run(job, states, steps) && !Active(s.phase) && ReturnedAs(result, s.phase, s.c.q, sr)
              && strategy.outcome == s.c.outcome && strategy.began == s.c.began
    ensures ResultOk(job, states, steps, result)
  {
    job := Job(strategy.logs, sr, strategy.outcome);
    states, steps := [Launched(job, Start(job))], [];
    if contextDone { return ContextDone, job, states, steps; }
    var eligible := EligibleList(strategy.logs);
    if |eligible| == 0 { return NoEligibleLogs, job, states, steps; }
    var submission := new Submission(strategy, sr, eligible);
    result, states, steps := submission.Run();
    ResultMeans(job, states, steps, result);
  }

  /**
    What the returned value says about the run: what was delivered, or that the logs made the quorum
    impossible; and either way what every outcome stands for.
   */
  ghost predicate ResultOk(job: Job, states: seq<Sys>, steps: seq<Step>, result: Result)
    requires |states| == |steps| + 1
  {
    var s := states[|steps|];
    && (result.Delivered? ==> Theorems.Returns(job, s, steps, result.responses, result.scts))
    && (result.NotAchieved? ==>
          && Q.InRange(job.logs, Theorems.Possible(job, s))
          && !Q.Satisfies(job.logs, Theorems.Possible(job, s), job.sr))
    && (result.Delivered? || result.NotAchieved? ==>
          forall i | i in Eligible(job.logs) :: Theorems.Accounted(job, s, i))
    && (result.ContextDone? && steps != [] ==> exists k :: Interruption.Interrupted(job, states, steps, k))
  }

  lemma ResultMeans(job: Job, states: seq<Sys>, steps: seq<Step>, result: Result)
    requires ValidJob(job) && Run(job, states, steps)
    requires ReturnedAs(result, states[|steps|].phase, states[|steps|].c.q, job.sr)
    ensures ResultOk(job, states, steps, result)
  {
    if result.Delivered? {
      Theorems.SuccessDelivers(job, states, steps);
      Theorems.OutcomesAccountForAll(job, states, steps);
    } else if result.NotAchieved? {
      Theorems.FailureIffImpossible(job, states, steps);
      Theorems.OutcomesAccountForAll(job, states, steps);
    } else {
      var k := Interruption.ContextErrorAccountsForAll(job, states, steps);
    }
  }

  /** The history so far is a run that has reached state `s`. */
  ghost predicate Tracked(job: Job, states: seq<Sys>, steps: seq<Step>, s: Sys) {
    Run(job, states, steps) && states[|steps|] == s && Invariant(job, s)
  }

  lemma Extend(job: Job, states: seq<Sys>, steps: seq<Step>, step: Step, s': Sys)
    returns (states': seq<Sys>, steps': seq<Step>)
    requires |states| == |steps| + 1 && Tracked(job, states, steps, states[|steps|])
    requires Enabled(job, states[|steps|], step) && s' == Apply(job, states[|steps|], step)
    ensures states' == states + [s'] && steps' == steps + [step]
    ensures Tracked(job, states', steps', s')
  {
    states', steps' := states + [s'], steps + [step];
    StepOk(job, states[|steps|], step);
    RunSnoc(job, states, steps, step, s');
  }

  ghost function WantedHelpful(job: Job, c: Coord, wantRFC6962: bool, wantStatic: bool): set<nat>
    requires Q.InRange(job.logs, c.normal)
  {
    set i | i in Helpful(job, c) && Wanted(job.logs[i].logType, wantRFC6962, wantStatic)
  }

  /** The two scans of `startNextEligible`, in terms of the types that are needed. */
  lemma CandidatesAreWanted(job: Job, c: Coord)
    requires Q.InRange(job.logs, c.normal)
    ensures var typed := WantedHelpful(job, c, NeedsType(job, c, RFC6962), NeedsType(job, c, Static));
            Candidates(job, c) == if typed != {} then typed else WantedHelpful(job, c, true, true)
    ensures !NeedsType(job, c, RFC6962) && !NeedsType(job, c, Static) ==>
              WantedHelpful(job, c, false, false) == {}
  {
    var typed := WantedHelpful(job, c, NeedsType(job, c, RFC6962), NeedsType(job, c, Static));
    assert typed == set i | i in Helpful(job, c) && NeedsType(job, c, job.logs[i].logType);
    assert WantedHelpful(job, c, true, true) == Helpful(job, c);
  }

  predicate Wanted(t: LogType, wantRFC6962: bool, wantStatic: bool) {
    (wantRFC6962 && t == RFC6962) || (wantStatic && t == Static)
  }
}
