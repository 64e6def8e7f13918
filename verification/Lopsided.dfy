/**
  For every request that can fail for want of something other than SCTs, a list that the filter accepts
  and a run that fails on it with a log untried: one operator has one log more than SCTs are requested,
  and the only logs of the other operators fail.
 */
module Lopsided {
  import opened Logs
  import opened Finite
  import opened Compatible
  import opened Strategies
  import opened Q = Quorum
  import opened Coordinator
  import opened Machine
  import opened Collection
  import opened Liveness
  import opened Guarantees
  import opened Schedules
  import opened Handler
  import opened Untried

  // ---- The list ----

  predicate Suitable(sr: Request) {
    1 <= sr.operators <= sr.scts
  }

  function Name(k: nat): string {
    seq(k + 1, _ => 'n')
  }

  function Url(i: nat): string {
    seq(i + 1, _ => 'u')
  }

  /** The operator of log `i`: the first one up to and including log number `scts`, then one each. */
  function Owner(sr: Request, i: nat): nat {
    if i <= sr.scts then 0 else i - sr.scts
  }

  function Size(sr: Request): nat
    requires Suitable(sr)
  {
    sr.scts + sr.operators
  }

  /** The log IDs are free: any that are well-formed will do, distinct ones among them. */
  predicate IdsFor(sr: Request, ids: seq<string>) {
    Suitable(sr) && |ids| == Size(sr) && forall i | 0 <= i < |ids| :: |ids[i]| == ID_LENGTH
  }

  function Entry(id: string, i: nat): LogEntry {
    LogEntry(id, Url(i), None, Some(State(Some(0), false, false, false)))
  }

  function OperatorAt(sr: Request, ids: seq<string>, k: nat): OperatorEntry
    requires IdsFor(sr, ids) && k < sr.operators
  {
    OperatorEntry(Name(k), [],
      if k == 0 then seq(sr.scts + 1, i requires 0 <= i <= sr.scts => Entry(ids[i], i))
      else [Entry(ids[sr.scts + k], sr.scts + k)])
  }

  function Base(sr: Request, ids: seq<string>): seq<OperatorEntry>
    requires IdsFor(sr, ids)
  {
    seq(sr.operators, k requires 0 <= k < sr.operators => OperatorAt(sr, ids, k))
  }

  function CheckOf(sr: Request, ids: seq<string>): Check {
    Check(sr, 0, 0, set i: nat | i < |ids| :: (ids[i], None))
  }

  function RowAt(sr: Request, i: nat): Row {
    Row(Log(Url(i), Name(Owner(sr, i)), Static, Neutral), NoOutcome, 0)
  }

  function Rows(sr: Request): seq<Row>
    requires Suitable(sr)
  {
    seq(Size(sr), i requires 0 <= i < Size(sr) => RowAt(sr, i))
  }

  const CONFIG := Config([], [], [], [], 0.0, 0.0)

  /** Nothing speaks for or against any log. */
  function Silence(): Submittable -> Reading {
    b => QUIET
  }

  lemma OperatorFits(sr: Request, ids: seq<string>, k: nat)
    requires IdsFor(sr, ids) && k < sr.operators
    ensures var op := OperatorAt(sr, ids, k); AllFit(CheckOf(sr, ids), op) && !Bare(op) && IdsOk(op.tiled)
  {
    var op := OperatorAt(sr, ids, k);
    forall j | 0 <= j < |op.tiled| ensures Fits(CheckOf(sr, ids), op.tiled[j], true) && |op.tiled[j].id| == ID_LENGTH {
      var i: nat := if k == 0 then j else sr.scts + k;
      assert op.tiled[j] == Entry(ids[i], i);
    }
  }

  lemma NamesDiffer(sr: Request, ids: seq<string>)
    requires IdsFor(sr, ids)
    ensures DistinctNames(Base(sr, ids))
  {
    forall j, k | 0 <= j < k < sr.operators ensures Base(sr, ids)[j].name != Base(sr, ids)[k].name {
      assert |Name(j)| == j + 1 && |Name(k)| == k + 1;
    }
  }

  lemma BaseIsKept(sr: Request, ids: seq<string>)
    requires IdsFor(sr, ids)
    ensures Kept(CheckOf(sr, ids), Base(sr, ids)) == Base(sr, ids) && WellFormedIds(Base(sr, ids))
  {
    var c, base := CheckOf(sr, ids), Base(sr, ids);
    forall k | 0 <= k < |base|
      ensures AllFit(c, base[k]) && !Bare(base[k]) && IdsOk(base[k].logs) && IdsOk(base[k].tiled)
    {
      OperatorFits(sr, ids, k);
      assert base[k] == OperatorAt(sr, ids, k);
    }
    KeptAll(c, base);
  }

  /** The rows that operator `k` contributes. */
  lemma NamedIsRows(sr: Request, ids: seq<string>, k: nat)
    requires IdsFor(sr, ids) && k < sr.operators
    ensures var op, from := OperatorAt(sr, ids, k), if k == 0 then 0 else sr.scts + k;
            && Named(op.name, op.logs, RFC6962) == []
            && Named(op.name, op.tiled, Static) == Bases(Rows(sr))[from..sr.scts + k + 1]
  {
    var op, from := OperatorAt(sr, ids, k), if k == 0 then 0 else sr.scts + k;
    var named := Named(op.name, op.tiled, Static);
    forall j | 0 <= j < |named| ensures named[j] == Bases(Rows(sr))[from + j] {
      assert Bases(Rows(sr))[from + j] == BaseOf(RowAt(sr, from + j));
    }
  }

  lemma {:induction false} FlattenIsRows(sr: Request, ids: seq<string>, k: nat)
    requires IdsFor(sr, ids) && 1 <= k <= sr.operators
    ensures Flatten(Base(sr, ids)[..k]) == Bases(Rows(sr))[..sr.scts + k]
  {
    var ops := Base(sr, ids)[..k];
    assert ops[..k - 1] == Base(sr, ids)[..k - 1] && ops[k - 1] == OperatorAt(sr, ids, k - 1);
    NamedIsRows(sr, ids, k - 1);
    if k == 1 {
      assert Flatten(ops[..0]) == [];
    } else {
      FlattenIsRows(sr, ids, k - 1);
      SplitPrefix(Bases(Rows(sr)), sr.scts + k - 1, sr.scts + k);
    }
  }

  lemma SplitPrefix<T>(s: seq<T>, i: nat, j: nat)
    requires i <= j <= |s|
    ensures s[..j] == s[..i] + [] + s[i..j]
  {
  }

  lemma BaseIsFlat(sr: Request, ids: seq<string>)
    requires IdsFor(sr, ids)
    ensures Flatten(Base(sr, ids)) == Bases(Rows(sr))
  {
    var ops, bases := Base(sr, ids), Bases(Rows(sr));
    FlattenIsRows(sr, ids, sr.operators);
    assert ops[..sr.operators] == ops && bases[..Size(sr)] == bases;
  }

  lemma BaseIsRanked(sr: Request, ids: seq<string>)
    requires IdsFor(sr, ids)
    ensures Ranks(Rows(sr), Base(sr, ids)) && Total(Base(sr, ids)) == Size(sr)
  {
    BaseIsFlat(sr, ids);
    FlattenSize(Base(sr, ids));
  }

  /** The filter accepts the list. */
  lemma BaseIsAccepted(sr: Request, ids: seq<string>)
    requires IdsFor(sr, ids)
    ensures Suffices(CheckOf(sr, ids), Base(sr, ids)) && DistinctNames(Base(sr, ids))
    ensures Ranks(Rows(sr), Kept(CheckOf(sr, ids), Base(sr, ids)))
  {
    BaseIsKept(sr, ids);
    BaseIsRanked(sr, ids);
    NamesDiffer(sr, ids);
  }

  lemma QuietIsNeutral(b: Submittable)
    ensures var s := Ask(CONFIG, Silence())(b); IsBucket(s, Neutral) && ExclusionReason(s) == NoOutcome
  {
    var s := Ask(CONFIG, Silence())(b);
    assert Silence()(b) == QUIET && CONFIG.excludedUrls == [] && CONFIG.preferredUrls == [];
    assert s == SignalsFor(CONFIG, QUIET, b);
    assert !MatchesAny([], b.url) && b.operator !in CONFIG.excludedOperators;
    assert s == Signals(false, false, false, 0.0, 0.0, QUIET);
    NothingDislikes();
  }

  /** The strategy is one that the ranking can produce from it. */
  lemma RowsAreStrategy(sr: Request)
    requires Suitable(sr)
    ensures Sorted(Rows(sr)) && RowsOk(Rows(sr), Ask(CONFIG, Silence())) && NoneExcluded(Rows(sr))
  {
    forall i | 0 <= i < Size(sr) ensures RowOk(Rows(sr)[i], Ask(CONFIG, Silence())) {
      QuietIsNeutral(BaseOf(Rows(sr)[i]));
    }
  }

  // ---- The run ----

  ghost function TheJob(sr: Request): Job
    requires Suitable(sr)
  {
    JobOf(Rows(sr), sr)
  }

  /** The logs of the first operator succeed, the others fail. */
  ghost function First(sr: Request): set<nat>
    requires Suitable(sr)
  {
    Below(sr.scts + 1)
  }

  lemma JobIsValid(sr: Request)
    requires Suitable(sr)
    ensures ValidJob(TheJob(sr)) && Eligible(TheJob(sr).logs) == Below(Size(sr))
    ensures First(sr) <= Eligible(TheJob(sr).logs)
  {
    RowsAreStrategy(sr);
    RankedJobIsValid(Rows(sr), sr, Ask(CONFIG, Silence()));
  }

  lemma FirstUntried(job: Job, c: Coord, m: nat, n: nat)
    requires Eligible(job.logs) == Below(n) && c.began == Below(m) && m < n
    ensures Unattempted(job, c) != {} && MinOf(Unattempted(job, c)) == m && Below(m) + {m} == Below(m + 1)
  {
    assert m in Unattempted(job, c);
  }

  /** From a prefix of the logs the batch is filled to a longer prefix. */
  lemma {:induction false} FillTakesPrefix(job: Job, c: Coord, m: nat, n: nat)
    requires Eligible(job.logs) == Below(n) && JustLaunched(job, c) && c.began == Below(m) && c.launchSeq == m
    requires m <= BatchSize(job) <= n
    ensures FillBatch(job, c).began == Below(BatchSize(job))
    decreases BatchSize(job) - m
  {
    if m < BatchSize(job) {
      FirstUntried(job, c, m, n);
      LaunchFirstJustLaunched(job, c, Unattempted(job, c));
      FillTakesPrefix(job, LaunchFirst(c, Unattempted(job, c)), m + 1, n);
    }
  }

  lemma AllAreStatic(sr: Request, ids: set<nat>)
    requires Suitable(sr) && InRange(TheJob(sr).logs, ids)
    ensures OfType(TheJob(sr).logs, ids, Static) == ids && OfType(TheJob(sr).logs, ids, RFC6962) == {}
  {
  }

  lemma NothingTried(sr: Request)
    requires Suitable(sr)
    ensures Unattempted(TheJob(sr), Start(TheJob(sr))) == Below(Size(sr))
    ensures 0 in Below(Size(sr)) && MinOf(Below(Size(sr))) == 0
    ensures BatchSize(TheJob(sr)) == sr.scts
  {
    JobIsValid(sr);
    BelowSize(Size(sr));
    assert 0 in Below(Size(sr));
  }

  lemma BatchIsPrefix(sr: Request)
    requires Suitable(sr)
    ensures InitialBatch(TheJob(sr)).began == Below(sr.scts)
  {
    var job := TheJob(sr);
    JobIsValid(sr);
    NothingTried(sr);
    AllAreStatic(sr, Below(Size(sr)));
    assert EnsureLogType(job, Start(job), RFC6962) == Start(job);
    if sr.preferStatic {
      StaticComesFirst(sr);
      FillTakesPrefix(job, Launch(Start(job), 0), 1, Size(sr));
    } else {
      assert Below(0) == {};
      FillTakesPrefix(job, Start(job), 0, Size(sr));
    }
  }

  lemma StaticComesFirst(sr: Request)
    requires Suitable(sr)
    ensures EnsureLogType(TheJob(sr), Start(TheJob(sr)), Static) == Launch(Start(TheJob(sr)), 0)
    ensures JustLaunched(TheJob(sr), Launch(Start(TheJob(sr)), 0)) && Below(1) == {0}
  {
    var job := TheJob(sr);
    NothingTried(sr);
    AllAreStatic(sr, Below(Size(sr)));
    LaunchFirstJustLaunched(job, Start(job), Below(Size(sr)));
  }

  lemma FirstCannotSatisfy(sr: Request, ids: set<nat>)
    requires Suitable(sr) && !CountsOnly(sr) && ids <= First(sr)
    ensures InRange(TheJob(sr).logs, ids) && !Satisfies(TheJob(sr).logs, ids, sr)
  {
    SubsetSize(Operators(TheJob(sr).logs, ids), {Name(0)});
  }

  /** The last log of the first operator stays untried, and the others of it have replied or are about to. */
  ghost predicate Calm(sr: Request, s: Sys)
    requires Suitable(sr)
  {
    && (s.phase.Running? || s.phase.QuorumMissed?)
    && sr.scts !in s.c.began
    && |s.c.q.indices| + |s.pending * First(sr)| == sr.scts
    && (s.phase.Running? ==> forall k | 0 <= k < |s.chan| ::
          s.chan[k].Terminal() && (s.chan[k].Success? <==> s.chan[k].idx in First(sr)))
  }

  lemma InitIsCalm(sr: Request)
    requires Suitable(sr)
    ensures Calm(sr, Init(TheJob(sr)))
  {
    BatchIsPrefix(sr);
    JobIsValid(sr);
    InitialBatchCovers(TheJob(sr));
    BelowSize(sr.scts);
    assert Below(sr.scts) * First(sr) == Below(sr.scts);
    assert sr.scts !in Below(sr.scts);
  }

  /** While a reply of the first operator is outstanding, a success is accepted; a failure changes nothing. */
  lemma ReplyIsCounted(job: Job, c: Coord, e: Event)
    requires e.Terminal() && e.idx < |job.logs| == |c.outcome|
    requires |c.q.indices| == |c.q.responses| && (e.Success? ==> |c.q.indices| < job.sr.scts)
    ensures |Absorb(job, c, e).q.indices| == |c.q.indices| + if e.Success? then 1 else 0
    ensures Absorb(job, c, e).began == c.began
  {
  }

  lemma LandedSize(pending: set<nat>, first: set<nat>, i: nat)
    requires i in pending
    ensures |(pending - {i}) * first| == |pending * first| - if i in first then 1 else 0
  {
    if i in first {
      assert (pending - {i}) * first == pending * first - {i};
    } else {
      assert (pending - {i}) * first == pending * first;
    }
  }

  lemma TakeCounts(sr: Request, s: Sys)
    requires Suitable(sr) && Shape(TheJob(sr), s) && ChannelOk(TheJob(sr), s) && Calm(sr, s)
    requires s.phase.Running? && s.chan != []
    ensures var s1 := Take(TheJob(sr), s);
            && s1.c.began == s.c.began
            && |s1.c.q.indices| + |s1.pending * First(sr)| == sr.scts
            && forall k | 0 <= k < |s1.chan| ::
                 s1.chan[k].Terminal() && (s1.chan[k].Success? <==> s1.chan[k].idx in First(sr))
  {
    var e := s.chan[0];
    assert e.idx in s.pending;
    LandedSize(s.pending, First(sr), e.idx);
    ReplyIsCounted(TheJob(sr), s.c, e);
    assert forall k | 0 <= k < |s.chan| - 1 :: s.chan[1..][k] == s.chan[k + 1];
  }

  lemma TakeIsCalm(sr: Request, s: Sys)
    requires Suitable(sr) && !CountsOnly(sr)
    requires Shape(TheJob(sr), s) && ChannelOk(TheJob(sr), s) && Calm(sr, s) && AsPlanned(First(sr), s)
    requires s.phase.Running? && s.chan != [] && CollectOk(TheJob(sr), Take(TheJob(sr), s))
    ensures Calm(sr, Take(TheJob(sr), s))
  {
    var s1 := Take(TheJob(sr), s);
    TakeCounts(sr, s);
    TakeAsPlanned(TheJob(sr), First(sr), s);
    if s1.phase.DrainingQuorum? {
      FirstCannotSatisfy(sr, Indices(s1.c.q));
      QuorumMetIsPolicy(s1.c.q, TheJob(sr).logs, sr);
    }
  }

  /** Once the first operator's batch has succeeded, none of its logs would help. */
  lemma FirstDoesNotHelp(sr: Request, q: Quorum, i: nat)
    requires Suitable(sr) && Valid(q, TheJob(sr).logs) && |q.indices| == sr.scts
    requires Indices(q) <= First(sr) && i < |TheJob(sr).logs|
    ensures i in First(sr) ==> !WouldHelp(q, sr, TheJob(sr).logs[i], TheJob(sr).logs, {})
  {
    var j := q.indices[0];
    assert j in Indices(q) && TheJob(sr).logs[j].operator == Name(0) && TheJob(sr).logs[j].logType == Static;
    assert Name(0) in q.operators && q.hasStatic;
  }

  /** The next log is none of the first operator. */
  lemma NextIsOther(sr: Request, c: Coord, i: nat)
    requires Suitable(sr) && Valid(c.q, TheJob(sr).logs) && |c.q.indices| == sr.scts && Indices(c.q) <= First(sr)
    requires c.normal == {} && i in Candidates(TheJob(sr), c)
    ensures i !in First(sr)
  {
    assert i in Helpful(TheJob(sr), c);
    FirstDoesNotHelp(sr, c.q, i);
  }

  lemma LaunchedIsCalm(sr: Request, s: Sys, i: nat)
    requires Suitable(sr) && Calm(sr, s) && s.pending == {} && i < |s.workers| && i !in First(sr)
    ensures Calm(sr, LaunchWorker(s, i))
  {
    assert s.pending * First(sr) == {} && (s.pending + {i}) * First(sr) == {};
    assert sr.scts in First(sr);
  }

  lemma LaunchIsCalm(sr: Request, s: Sys, e: Event)
    requires Suitable(sr) && Shape(TheJob(sr), s) && SetsOk(TheJob(sr), s) && Calm(sr, s)
    requires AsPlanned(First(sr), s) && CollectOk(TheJob(sr), s) && e.Terminal()
    ensures Calm(sr, MaybeLaunch(TheJob(sr), s, e))
  {
    var next := Candidates(TheJob(sr), s.c);
    if s.phase.Running? && LaunchesAfter(TheJob(sr), s.c, e) && next != {} {
      assert s.pending == {} && s.c.normal == {} && s.pending * First(sr) == {};
      NextIsOther(sr, s.c, MinOf(next));
      LaunchedIsCalm(sr, s, MinOf(next));
    }
  }

  lemma ReceiveIsCalm(sr: Request, s: Sys)
    requires Suitable(sr) && !CountsOnly(sr)
    requires Guaranteed(TheJob(sr), s) && Calm(sr, s) && AsPlanned(First(sr), s)
    requires s.phase.Running? && Enabled(TheJob(sr), s, Receive)
    ensures Calm(sr, Apply(TheJob(sr), s, Receive))
  {
    JobIsValid(sr);
    TakeCollectOk(TheJob(sr), s);
    TakeIsCalm(sr, s);
    TakeOk(TheJob(sr), s);
    TakeAsPlanned(TheJob(sr), First(sr), s);
    LaunchIsCalm(sr, Take(TheJob(sr), s), s.chan[0]);
  }

  lemma SendIsCalm(sr: Request, s: Sys, e: Event)
    requires Suitable(sr) && Shape(TheJob(sr), s) && Calm(sr, s) && Enabled(TheJob(sr), s, Send(e))
    requires e.Terminal() && (e.Success? <==> s.phase.Running? && e.idx in First(sr))
    ensures Calm(sr, Apply(TheJob(sr), s, Send(e)))
  {
  }

  lemma ReturnIsCalm(sr: Request, s: Sys)
    requires Suitable(sr) && Shape(TheJob(sr), s) && Calm(sr, s) && s.phase.Running? && !IsQuorumMet(s.c.q, sr)
    ensures Calm(sr, Finish(TheJob(sr), s))
  {
  }

  lemma StepIsCalm(sr: Request, s: Sys, step: Step, s': Sys)
    requires Suitable(sr) && !CountsOnly(sr)
    requires Guaranteed(TheJob(sr), s) && Calm(sr, s) && AsPlanned(First(sr), s)
    requires Next(TheJob(sr), s, step, s') && Completing(TheJob(sr), First(sr), s, step)
    ensures Calm(sr, s')
  {
    match step
    case Send(e) => SendIsCalm(sr, s, e);
    case Receive => ReceiveIsCalm(sr, s);
    case Return => ReturnIsCalm(sr, s);
  }

  /** What holds in every state of the run. */
  ghost predicate Steady(sr: Request, s: Sys) {
    Suitable(sr) && Guaranteed(TheJob(sr), s) && AsPlanned(First(sr), s) && Calm(sr, s)
  }

  lemma StepKeeps(sr: Request, s: Sys, step: Step, s': Sys)
    requires !CountsOnly(sr) && Steady(sr, s) && Next(TheJob(sr), s, step, s')
    requires Completing(TheJob(sr), First(sr), s, step)
    ensures Steady(sr, s')
  {
    JobIsValid(sr);
    NextGuaranteed(TheJob(sr), s, step, s');
    StepAsPlanned(TheJob(sr), First(sr), s, step, s');
    StepIsCalm(sr, s, step, s');
  }

  lemma InitKeeps(sr: Request)
    requires Suitable(sr)
    ensures Steady(sr, Init(TheJob(sr)))
  {
    JobIsValid(sr);
    InitGuaranteed(TheJob(sr));
    InitIsCalm(sr);
    assert Init(TheJob(sr)).arrived == [];
    assert Senders([]) == {};
  }

  lemma RunIsCalm(sr: Request, states: seq<Sys>, steps: seq<Step>, k: nat)
    requires Suitable(sr) && !CountsOnly(sr) && Run(TheJob(sr), states, steps) && k < |states|
    requires forall j | 0 <= j < |steps| :: Completing(TheJob(sr), First(sr), states[j], steps[j])
    ensures Steady(sr, states[k])
  {
    var job := TheJob(sr);
    InitKeeps(sr);
    forall s, step, s' | Steady(sr, s) && Completing(job, First(sr), s, step) && Next(job, s, step, s')
      ensures Steady(sr, s')
    {
      StepKeeps(sr, s, step, s');
    }
    RunInduction(job, states, steps, k, s => Steady(sr, s), (s, step) => Completing(job, First(sr), s, step));
  }

  /**
    For every other request than those that can be missed for want of SCTs only: an accepted list, a
    strategy that the ranking makes of it, and a run that fails with an eligible log untried.
   */
  lemma FailureMayLeaveUntried(sr: Request, ids: seq<string>)
    returns (c: Check, base: seq<OperatorEntry>, rows: seq<Row>, states: seq<Sys>, steps: seq<Step>)
    requires IdsFor(sr, ids) && !CountsOnly(sr)
    ensures c.sr == sr && Suffices(c, base) && DistinctNames(base)
    ensures Ranks(rows, Kept(c, base)) && Sorted(rows) && RowsOk(rows, Ask(CONFIG, Silence()))
    ensures ValidJob(JobOf(rows, sr)) && Run(JobOf(rows, sr), states, steps)
    ensures states[|steps|].phase.QuorumMissed? && Unattempted(JobOf(rows, sr), states[|steps|].c) != {}
  {
    c, base, rows := CheckOf(sr, ids), Base(sr, ids), Rows(sr);
    BaseIsAccepted(sr, ids);
    RowsAreStrategy(sr);
    states, steps := FailingRun(sr);
  }

  lemma WholeRun(sr: Request) returns (states: seq<Sys>, steps: seq<Step>)
    requires Suitable(sr)
    ensures ValidJob(TheJob(sr)) && Run(TheJob(sr), states, steps) && !Active(states[|steps|].phase)
    ensures forall j | 0 <= j < |steps| :: Completing(TheJob(sr), First(sr), states[j], steps[j])
  {
    JobIsValid(sr);
    states, steps := RunCompletes(TheJob(sr), First(sr), [Init(TheJob(sr))], []);
  }

  lemma CalmLeavesUntried(sr: Request, s: Sys)
    requires Suitable(sr) && Calm(sr, s) && !Active(s.phase)
    ensures s.phase.QuorumMissed? && Unattempted(TheJob(sr), s.c) != {}
  {
    JobIsValid(sr);
    assert sr.scts in Unattempted(TheJob(sr), s.c);
  }

  lemma FailingRun(sr: Request) returns (states: seq<Sys>, steps: seq<Step>)
    requires Suitable(sr) && !CountsOnly(sr)
    ensures ValidJob(TheJob(sr)) && Run(TheJob(sr), states, steps)
    ensures states[|steps|].phase.QuorumMissed? && Unattempted(TheJob(sr), states[|steps|].c) != {}
  {
    states, steps := WholeRun(sr);
    RunIsCalm(sr, states, steps, |steps|);
    CalmLeavesUntried(sr, states[|steps|]);
  }
}
