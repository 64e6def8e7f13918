/**
  The bookkeeping of `submit`, as functions on the coordinator's variables: which log is
  launched next, and what each event changes.
 */
module Coordinator {
  import opened Logs
  import opened Finite
  import opened Q = Quorum

  /** What one call of `submit` is given. */
  datatype Job = Job(logs: seq<Log>, sr: Request, initial: seq<Outcome>)

  ghost function Eligible(logs: seq<Log>): set<nat> {
    set i: nat | i < |logs| && logs[i].bucket != Excluded
  }

  /** What `submit` relies on: request counts raised by the request stage, and eligible logs. */
  ghost predicate ValidJob(job: Job) {
    && |job.initial| == |job.logs|
    && 1 <= job.sr.operators <= job.sr.scts
    && Eligible(job.logs) != {}
    && forall i | i in Eligible(job.logs) :: job.initial[i] == NoOutcome
  }

  /**
    The coordinator's variables. `began` is the set of members whose BeganAfter is non-zero;
    `normal` and `slow` are the two in-flight index sets.
   */
  datatype Coord = Coord(
    outcome: seq<Outcome>,
    began: set<nat>,
    inFlight: int,
    normal: set<nat>,
    slow: set<nat>,
    launchSeq: int,
    q: Quorum)

  function Start(job: Job): Coord {
    Coord(job.initial, {}, 0, {}, {}, 0, Q.EMPTY)
  }

  ghost function Unattempted(job: Job, c: Coord): set<nat> {
    Eligible(job.logs) - c.began
  }

  function Launch(c: Coord, i: nat): Coord {
    c.(inFlight := c.inFlight + 1, normal := c.normal + {i}, launchSeq := c.launchSeq + 1, began := c.began + {i})
  }

  ghost function LaunchFirst(c: Coord, from: set<nat>): Coord {
    if from == {} then c else Launch(c, MinOf(from))
  }

  ghost function OfType(logs: seq<Log>, ids: set<nat>, t: LogType): set<nat>
    requires InRange(logs, ids)
  {
    set i | i in ids && logs[i].logType == t
  }

  // ---- The initial batch ----

  ghost function BatchSize(job: Job): int {
    if job.sr.scts > |Eligible(job.logs)| then |Eligible(job.logs)| else job.sr.scts
  }

  ghost function EnsureLogType(job: Job, c: Coord, t: LogType): Coord {
    if c.launchSeq >= BatchSize(job) then c
    else LaunchFirst(c, OfType(job.logs, Unattempted(job, c), t))
  }

  ghost function FillBatch(job: Job, c: Coord): Coord
    decreases BatchSize(job) - c.launchSeq
  {
    if c.launchSeq >= BatchSize(job) || Unattempted(job, c) == {} then c
    else FillBatch(job, LaunchFirst(c, Unattempted(job, c)))
  }

  ghost function InitialBatch(job: Job): Coord {
    var c0 := Start(job);
    var c1 := if job.sr.requireRFC6962 then EnsureLogType(job, c0, RFC6962) else c0;
    var c2 := if job.sr.preferStatic then EnsureLogType(job, c1, Static) else c1;
    FillBatch(job, c2)
  }

  // ---- The next log ----

  /** A type is needed when it is wanted, not collected, and no normal in-flight log has it. */
  ghost predicate NeedsType(job: Job, c: Coord, t: LogType)
    requires InRange(job.logs, c.normal)
  {
    && (if t == RFC6962 then job.sr.requireRFC6962 && !c.q.hasRFC6962 else job.sr.preferStatic && !c.q.hasStatic)
    && !HasType(job.logs, c.normal, t)
  }

  ghost function Helpful(job: Job, c: Coord): set<nat>
    requires InRange(job.logs, c.normal)
  {
    set i | i in Unattempted(job, c) && WouldHelp(c.q, job.sr, job.logs[i], job.logs, c.normal)
  }

  /** Log `i` would help, given what is collected and what is normally in flight. */
  ghost predicate Helps(job: Job, c: Coord, i: nat)
    requires InRange(job.logs, c.normal) && i < |job.logs|
  {
    WouldHelp(c.q, job.sr, job.logs[i], job.logs, c.normal)
  }

  /** Log `i` is of a type that is required or preferred, and that no log collected or normally in flight has. */
  ghost predicate IsNeeded(job: Job, c: Coord, i: nat)
    requires InRange(job.logs, c.normal) && i < |job.logs|
  {
    && (forall j | j in c.normal :: job.logs[j].logType != job.logs[i].logType)
    && (job.logs[i].logType.RFC6962? ==> job.sr.requireRFC6962 && !c.q.hasRFC6962)
    && (job.logs[i].logType.Static? ==> job.sr.preferStatic && !c.q.hasStatic)
  }

  ghost function NeededHelpful(job: Job, c: Coord): set<nat>
    requires InRange(job.logs, c.normal)
  {
    set i | i in Helpful(job, c) && IsNeeded(job, c, i)
  }

  /** The helpful candidates of a needed type, if any; otherwise all helpful candidates. */
  ghost function Candidates(job: Job, c: Coord): set<nat>
    requires InRange(job.logs, c.normal)
  {
    if NeededHelpful(job, c) != {} then NeededHelpful(job, c) else Helpful(job, c)
  }

  /**
    The log that strategy order calls for: it helps, no earlier untried log does unless this one is of a needed
    type and the other is not, and while any untried log is of a needed type this one is.
   */
  ghost predicate IsNext(job: Job, c: Coord, i: nat)
    requires InRange(job.logs, c.normal)
  {
    && i in Unattempted(job, c) && Helps(job, c, i)
    && (forall j | j in Unattempted(job, c) && j < i && Helps(job, c, j) :: IsNeeded(job, c, i) && !IsNeeded(job, c, j))
    && (forall j | j in Unattempted(job, c) && IsNeeded(job, c, j) :: IsNeeded(job, c, i))
  }

  /** From `c` to `c'` the log that strategy order calls for was launched, or none would help. */
  ghost predicate LaunchedInOrder(job: Job, c: Coord, c': Coord)
    requires InRange(job.logs, c.normal)
  {
    if c'.began == c.began then c' == c && forall j | j in Unattempted(job, c) :: !Helps(job, c, j)
    else exists i :: IsNext(job, c, i) && c' == Launch(c, i)
  }

  // ---- Events ----

  function Mark(outcome: seq<Outcome>, ids: set<nat>, o: Outcome): (r: seq<Outcome>)
    ensures |r| == |outcome|
    ensures forall i | 0 <= i < |r| :: r[i] == if i in ids then o else outcome[i]
  {
    seq(|outcome|, i requires 0 <= i < |outcome| => if i in ids then o else outcome[i])
  }

  /** The set changes shared by both terminal events. */
  function Land(c: Coord, i: nat): Coord {
    c.(inFlight := c.inFlight - 1, normal := c.normal - {i}, slow := c.slow - {i})
  }

  /** What an event in the main loop changes before any further launch. */
  function Absorb(job: Job, c: Coord, e: Event): Coord
    requires e.idx < |job.logs| == |c.outcome|
  {
    match e
    case Success(i, r, s) =>
      var c1 :=
        if HelpsQuorum(c.q, job.sr, job.logs[i]) then
          Land(c, i).(outcome := c.outcome[i := Successful], q := AddSuccess(c.q, job.logs, i, r, s))
        else
          Land(c, i).(outcome := c.outcome[i := NotHelping]);
      if IsQuorumMet(c1.q, job.sr) then
        c1.(outcome := Mark(c1.outcome, c1.normal + c1.slow, CancelledQuorumMet))
      else c1
    case Failure(i, reason) =>
      Land(c, i).(outcome := c.outcome[i := Failed(reason)])
    case TryNext(i) =>
      c.(normal := c.normal - {i}, slow := c.slow + {i})
    case Slow(_) => c
  }

  lemma AbsorbSets(job: Job, c: Coord, e: Event)
    requires e.idx < |job.logs| == |c.outcome|
    ensures var c' := Absorb(job, c, e);
            && c'.began == c.began && c'.launchSeq == c.launchSeq
            && (e.Terminal() ==>
                  c'.inFlight == c.inFlight - 1 && c'.normal == c.normal - {e.idx} && c'.slow == c.slow - {e.idx})
            && (e.TryNext? ==>
                  c'.inFlight == c.inFlight && c'.normal == c.normal - {e.idx} && c'.slow == c.slow + {e.idx})
            && (e.Slow? ==> c' == c)
  {
  }

  /** Does the main loop look for another log after event `e` led to state `c`? */
  predicate LaunchesAfter(job: Job, c: Coord, e: Event) {
    match e
    case Success(_, _, _) => !IsQuorumMet(c.q, job.sr) && c.inFlight == 0
    case Failure(_, _) => c.inFlight == 0
    case TryNext(_) => true
    case Slow(_) => false
  }

  /** On return: eligible logs that were never contacted are annotated. */
  ghost function Annotate(job: Job, outcome: seq<Outcome>): seq<Outcome>
    requires |outcome| == |job.logs|
  {
    seq(|outcome|, i requires 0 <= i < |outcome| =>
      if i in Eligible(job.logs) && outcome[i] == NoOutcome then NotAttempted else outcome[i])
  }

  function OutcomeOf(e: Event): Outcome
    requires e.Terminal()
  {
    if e.Success? then Successful else Failed(e.reason)
  }

  // ---- What is launched ----

  /** After any number of launches from the start: only in-flight bookkeeping has changed. */
  ghost predicate JustLaunched(job: Job, c: Coord) {
    && c == Start(job).(began := c.began, normal := c.began, inFlight := |c.began|, launchSeq := |c.began|)
    && c.began <= Eligible(job.logs)
  }

  lemma LaunchFirstJustLaunched(job: Job, c: Coord, from: set<nat>)
    requires JustLaunched(job, c) && from <= Unattempted(job, c)
    ensures JustLaunched(job, LaunchFirst(c, from))
    ensures from != {} ==>
          LaunchFirst(c, from).launchSeq == c.launchSeq + 1 && MinOf(from) in LaunchFirst(c, from).began
    ensures c.began <= LaunchFirst(c, from).began
  {
  }

  lemma {:induction false} FillBatchFills(job: Job, c: Coord)
    requires JustLaunched(job, c) && c.launchSeq <= BatchSize(job)
    ensures JustLaunched(job, FillBatch(job, c))
    ensures FillBatch(job, c).launchSeq == BatchSize(job)
    ensures c.began <= FillBatch(job, c).began
    decreases BatchSize(job) - c.launchSeq
  {
    if c.launchSeq < BatchSize(job) {
      DifferenceSize(Eligible(job.logs), c.began);
      LaunchFirstJustLaunched(job, c, Unattempted(job, c));
      FillBatchFills(job, LaunchFirst(c, Unattempted(job, c)));
    }
  }

  /** The first eligible log of a type. */
  ghost predicate FirstEligible(job: Job, i: nat, t: LogType) {
    && i in Eligible(job.logs) && job.logs[i].logType == t
    && forall j | j in Eligible(job.logs) && job.logs[j].logType == t :: i <= j
  }

  lemma EnsuredIsFirst(job: Job, c: Coord, t: LogType, i: nat)
    requires JustLaunched(job, c) && forall j | j in c.began :: job.logs[j].logType != t
    requires i in EnsureLogType(job, c, t).began && i !in c.began
    ensures FirstEligible(job, i, t)
  {
    var from := OfType(job.logs, Unattempted(job, c), t);
    forall j | j in Eligible(job.logs) && job.logs[j].logType == t ensures i <= j {
      assert j in from;
    }
  }

  /** Of the eligible logs, those added to `before` come before those left out. */
  ghost predicate AddsInOrder(eligible: set<nat>, before: set<nat>, after: set<nat>) {
    forall i, j | i in after && i !in before && j in eligible && j !in after :: i < j
  }

  lemma FirstIsInOrder(eligible: set<nat>, before: set<nat>, after: set<nat>)
    requires eligible - before != {}
    requires before + {MinOf(eligible - before)} <= after
    requires AddsInOrder(eligible, before + {MinOf(eligible - before)}, after)
    ensures AddsInOrder(eligible, before, after)
  {
    var first := MinOf(eligible - before);
    forall i, j | i in after && i !in before && j in eligible && j !in after ensures i < j {
      assert j in eligible - before;
      assert i != first ==> i !in before + {first};
    }
  }

  lemma FillBatchNext(job: Job, c: Coord)
    requires JustLaunched(job, c) && c.launchSeq < BatchSize(job) && Unattempted(job, c) != {}
    ensures var next := Launch(c, MinOf(Unattempted(job, c)));
            && JustLaunched(job, next) && next.began == c.began + {MinOf(Eligible(job.logs) - c.began)}
            && FillBatch(job, c) == FillBatch(job, next) && next.began <= FillBatch(job, next).began
  {
    var next := Launch(c, MinOf(Unattempted(job, c)));
    LaunchFirstJustLaunched(job, c, Unattempted(job, c));
    FillBatchFills(job, next);
  }

  lemma FillBatchStops(job: Job, c: Coord)
    requires c.launchSeq >= BatchSize(job) || Unattempted(job, c) == {}
    ensures FillBatch(job, c) == c && AddsInOrder(Eligible(job.logs), c.began, c.began)
  {
  }

  lemma {:induction false} FillBatchInOrder(job: Job, c: Coord)
    requires JustLaunched(job, c)
    ensures AddsInOrder(Eligible(job.logs), c.began, FillBatch(job, c).began)
    decreases BatchSize(job) - c.launchSeq
  {
    if c.launchSeq >= BatchSize(job) || Unattempted(job, c) == {} {
      FillBatchStops(job, c);
    } else {
      var next := Launch(c, MinOf(Unattempted(job, c)));
      FillBatchNext(job, c);
      FillBatchInOrder(job, next);
      FirstIsInOrder(Eligible(job.logs), c.began, FillBatch(job, next).began);
    }
  }

  /**
    The initial batch follows strategy order: an earlier eligible log is left out only for the first eligible
    log of a required or preferred type.
   */
  lemma InitialBatchInOrder(job: Job, i: nat, j: nat)
    requires ValidJob(job) && i in InitialBatch(job).began
    requires j in Eligible(job.logs) && j !in InitialBatch(job).began && j < i
    ensures || (job.sr.requireRFC6962 && FirstEligible(job, i, RFC6962))
            || (job.sr.preferStatic && FirstEligible(job, i, Static))
  {
    var c0 := Start(job);
    SubsetSize({}, Eligible(job.logs));
    var c1 := if job.sr.requireRFC6962 then EnsureLogType(job, c0, RFC6962) else c0;
    if job.sr.requireRFC6962 { EnsureTypeCovers(job, c0, RFC6962); }
    var c2 := if job.sr.preferStatic then EnsureLogType(job, c1, Static) else c1;
    if job.sr.preferStatic { EnsureTypeCovers(job, c1, Static); }
    if i !in c2.began {
      FillBatchInOrder(job, c2);
    } else if i in c1.began {
      EnsuredIsFirst(job, c0, RFC6962, i);
    } else {
      EnsuredIsFirst(job, c1, Static, i);
    }
  }

  /**
    The initial batch is exactly min(SCTs, eligible) distinct eligible logs. A required RFC6962
    log is among them whenever one is eligible; a preferred Static log is among them whenever
    one is eligible and a second slot is left or RFC6962 coverage did not take the first.
   */
  lemma InitialBatchCovers(job: Job)
    requires ValidJob(job)
    ensures var c := InitialBatch(job);
            && JustLaunched(job, c)
            && |c.began| == BatchSize(job) >= 1
            && |c.began| == (if job.sr.scts <= |Eligible(job.logs)| then job.sr.scts else |Eligible(job.logs)|)
            && (job.sr.requireRFC6962 && HasType(job.logs, Eligible(job.logs), RFC6962) ==>
                  HasType(job.logs, c.began, RFC6962))
            && (job.sr.preferStatic && HasType(job.logs, Eligible(job.logs), Static)
                && (BatchSize(job) >= 2 || !job.sr.requireRFC6962 || !HasType(job.logs, Eligible(job.logs), RFC6962))
                ==> HasType(job.logs, c.began, Static))
  {
    var c0 := Start(job);
    SubsetSize({}, Eligible(job.logs));
    assert Unattempted(job, c0) == Eligible(job.logs);
    var c1 := if job.sr.requireRFC6962 then EnsureLogType(job, c0, RFC6962) else c0;
    if job.sr.requireRFC6962 { EnsureTypeCovers(job, c0, RFC6962); }
    var c2 := if job.sr.preferStatic then EnsureLogType(job, c1, Static) else c1;
    if job.sr.preferStatic { EnsureTypeCovers(job, c1, Static); }
    FillBatchFills(job, c2);
    GrowKeepsTypes(job.logs, c1.began, InitialBatch(job).began);
    GrowKeepsTypes(job.logs, c2.began, InitialBatch(job).began);
  }

  lemma EnsureTypeCovers(job: Job, c: Coord, t: LogType)
    requires JustLaunched(job, c) && c.launchSeq <= BatchSize(job)
    ensures var c' := EnsureLogType(job, c, t);
            && JustLaunched(job, c') && c'.launchSeq <= BatchSize(job)
            && c.launchSeq <= c'.launchSeq <= c.launchSeq + 1
            && c.began <= c'.began
            && (c.launchSeq < BatchSize(job) && HasType(job.logs, Eligible(job.logs), t) ==>
                  HasType(job.logs, c'.began, t))
            && (!HasType(job.logs, Eligible(job.logs), t) ==> c' == c)
  {
    var from := OfType(job.logs, Unattempted(job, c), t);
    if c.launchSeq < BatchSize(job) {
      LaunchFirstJustLaunched(job, c, from);
      if from == {} && HasType(job.logs, Eligible(job.logs), t) {
        var i :| i in Eligible(job.logs) && job.logs[i].logType == t;
        assert i in c.began || i in from;
      } else if from != {} {
        assert job.logs[MinOf(from)].logType == t;
      }
    }
  }

  /** A needed type helps by itself. */
  lemma NeededHelps(job: Job, c: Coord, i: nat)
    requires InRange(job.logs, c.normal) && i < |job.logs| && IsNeeded(job, c, i)
    ensures Helps(job, c, i)
  {
  }

  lemma CandidateFacts(job: Job, c: Coord, i: nat, j: nat)
    requires InRange(job.logs, c.normal) && i in Candidates(job, c) && j in Unattempted(job, c)
    ensures i in Unattempted(job, c) && Helps(job, c, i)
    ensures IsNeeded(job, c, j) ==> j in Candidates(job, c) && IsNeeded(job, c, i)
    ensures Helps(job, c, j) && j !in Candidates(job, c) ==> IsNeeded(job, c, i) && !IsNeeded(job, c, j)
  {
    if IsNeeded(job, c, j) {
      NeededHelps(job, c, j);
      assert j in NeededHelpful(job, c);
    } else if Helps(job, c, j) {
      assert j in Helpful(job, c);
    }
  }

  lemma SomeCandidate(job: Job, c: Coord)
    requires InRange(job.logs, c.normal)
    ensures Candidates(job, c) == {} <==> forall j | j in Unattempted(job, c) :: !Helps(job, c, j)
  {
    forall j | j in Unattempted(job, c) ensures j in Helpful(job, c) <==> Helps(job, c, j) {
    }
    assert Candidates(job, c) == {} <==> Helpful(job, c) == {};
  }

  /** The least candidate is the log that strategy order calls for. */
  lemma CandidateIsNext(job: Job, c: Coord)
    requires InRange(job.logs, c.normal)
    ensures Candidates(job, c) == {} <==> forall j | j in Unattempted(job, c) :: !Helps(job, c, j)
    ensures Candidates(job, c) != {} ==> IsNext(job, c, MinOf(Candidates(job, c)))
  {
    SomeCandidate(job, c);
    if Candidates(job, c) != {} {
      var i := MinOf(Candidates(job, c));
      assert i in Helpful(job, c);
      forall j | j in Unattempted(job, c)
        ensures j < i && Helps(job, c, j) ==> IsNeeded(job, c, i) && !IsNeeded(job, c, j)
        ensures IsNeeded(job, c, j) ==> IsNeeded(job, c, i)
      {
        CandidateFacts(job, c, i, j);
      }
    }
  }

  /** With nothing in flight, finding no candidate means that no unattempted log helps. */
  lemma NoCandidateHelps(job: Job, c: Coord)
    requires c.normal == {} && Candidates(job, c) == {}
    ensures forall i | i in Unattempted(job, c) :: !HelpsQuorum(c.q, job.sr, job.logs[i])
  {
    forall i | i in Unattempted(job, c) ensures !HelpsQuorum(c.q, job.sr, job.logs[i]) {
      assert i !in Helpful(job, c);
      assert c.q.operators + Operators(job.logs, {}) == c.q.operators;
    }
  }
}
