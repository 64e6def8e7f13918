/**
  The stages of a submission together: raise the request, filter the logs, rank them, submit.
  What the filter accepts is enough for `submit` to succeed.
 */
module Handler {
  import opened Logs
  import opened Finite
  import opened Requests
  import opened Compatible
  import opened Strategies
  import opened Coordinator
  import M = Machine
  import L = Liveness
  import Q = Quorum
  import QS = QuorumStates
  import S = Submitter
  import Schedules

  // ---- The filter's count is the policy's count ----

  lemma {:induction false} FlattenSize(ops: seq<OperatorEntry>)
    ensures |Flatten(ops)| == Total(ops)
  {
    if ops != [] {
      FlattenSize(ops[..|ops| - 1]);
    }
  }

  ghost predicate FromEntry(b: Submittable, op: OperatorEntry) {
    b in Named(op.name, op.logs, RFC6962) || b in Named(op.name, op.tiled, Static)
  }

  /** The strategy lists each log of each operator. */
  lemma {:induction false} FlattenHas(ops: seq<OperatorEntry>, k: nat, b: Submittable)
    requires k < |ops| && FromEntry(b, ops[k])
    ensures b in Flatten(ops)
  {
    if k < |ops| - 1 {
      FlattenHas(ops[..|ops| - 1], k, b);
    }
  }

  /** The strategy lists nothing else. */
  lemma {:induction false} FlattenOnly(ops: seq<OperatorEntry>, b: Submittable) returns (k: nat)
    requires b in Flatten(ops)
    ensures k < |ops| && FromEntry(b, ops[k])
  {
    k := |ops| - 1;
    if !FromEntry(b, ops[k]) {
      assert b in Flatten(ops[..|ops| - 1]);
      k := FlattenOnly(ops[..|ops| - 1], b);
    }
  }

  ghost function Names(ops: seq<OperatorEntry>): set<string> {
    set k: nat | k < |ops| :: ops[k].name
  }

  lemma {:induction false} NamesSize(ops: seq<OperatorEntry>)
    requires DistinctNames(ops)
    ensures |Names(ops)| == |ops|
  {
    if ops != [] {
      var init, last := ops[..|ops| - 1], ops[|ops| - 1];
      NamesSize(init);
      NamesSnoc(init, last);
      assert ops == init + [last];
    }
  }

  lemma NamesSnoc(ops: seq<OperatorEntry>, op: OperatorEntry)
    ensures Names(ops + [op]) == Names(ops) + {op.name}
  {
    var all := ops + [op];
    assert all[|ops|] == op;
    forall n | n in Names(ops) ensures n in Names(all) {
      var k: nat :| k < |ops| && ops[k].name == n;
      assert all[k] == ops[k];
    }
  }

  ghost predicate NoneExcluded(rows: seq<Row>) {
    forall i | 0 <= i < |rows| :: rows[i].log.bucket != Excluded
  }

  /** The rows are those of the accepted list, in some order. */
  ghost predicate Ranks(rows: seq<Row>, ops: seq<OperatorEntry>) {
    multiset(Bases(rows)) == multiset(Flatten(ops))
  }

  lemma RowsAreMany(rows: seq<Row>, ops: seq<OperatorEntry>)
    requires Ranks(rows, ops) && NoneExcluded(rows)
    ensures |Eligible(LogsOf(rows))| == |rows| == Total(ops)
  {
    FlattenSize(ops);
    assert |multiset(Bases(rows))| == |Bases(rows)|;
    assert |multiset(Flatten(ops))| == |Flatten(ops)|;
    BelowSize(|rows|);
    assert Eligible(LogsOf(rows)) == Below(|rows|);
  }

  lemma RowOf(rows: seq<Row>, ops: seq<OperatorEntry>, b: Submittable) returns (i: nat)
    requires Ranks(rows, ops) && b in Flatten(ops)
    ensures i < |rows| && BaseOf(rows[i]) == b
  {
    assert b in multiset(Bases(rows));
    assert b in Bases(rows);
    i :| i < |Bases(rows)| && Bases(rows)[i] == b;
  }

  lemma NameIsRanked(rows: seq<Row>, ops: seq<OperatorEntry>, k: nat)
    requires Ranks(rows, ops) && NoneExcluded(rows) && k < |ops| && !Bare(ops[k])
    ensures ops[k].name in Q.Operators(LogsOf(rows), Eligible(LogsOf(rows)))
  {
    var op := ops[k];
    var b :=
      if op.logs != [] then Submittable(op.logs[0].url, op.name, RFC6962)
      else Submittable(op.tiled[0].url, op.name, Static);
    assert FromEntry(b, op) by {
      if op.logs != [] {
        assert Named(op.name, op.logs, RFC6962)[0] == b;
      } else {
        assert Named(op.name, op.tiled, Static)[0] == b;
      }
    }
    FlattenHas(ops, k, b);
    var i := RowOf(rows, ops, b);
    assert i in Eligible(LogsOf(rows)) && LogsOf(rows)[i].operator == op.name;
  }

  lemma RowsAreDiverse(rows: seq<Row>, ops: seq<OperatorEntry>)
    requires Ranks(rows, ops) && NoneExcluded(rows) && DistinctNames(ops) && NoneBare(ops)
    ensures |Q.Operators(LogsOf(rows), Eligible(LogsOf(rows)))| >= |ops|
  {
    NamesSize(ops);
    var operators := Q.Operators(LogsOf(rows), Eligible(LogsOf(rows)));
    forall n | n in Names(ops) ensures n in operators {
      var k: nat :| k < |ops| && ops[k].name == n;
      NameIsRanked(rows, ops, k);
    }
    SubsetSize(Names(ops), operators);
  }

  ghost predicate ListsRFC6962(ops: seq<OperatorEntry>) {
    exists k :: 0 <= k < |ops| && ops[k].logs != []
  }

  lemma RFC6962IsRanked(rows: seq<Row>, ops: seq<OperatorEntry>)
    requires Ranks(rows, ops) && NoneExcluded(rows)
    ensures Q.HasType(LogsOf(rows), Eligible(LogsOf(rows)), RFC6962) <==> ListsRFC6962(ops)
  {
    if ListsRFC6962(ops) {
      var k: nat :| k < |ops| && ops[k].logs != [];
      var b := Submittable(ops[k].logs[0].url, ops[k].name, RFC6962);
      assert Named(ops[k].name, ops[k].logs, RFC6962)[0] == b;
      FlattenHas(ops, k, b);
      var i := RowOf(rows, ops, b);
      assert i in Eligible(LogsOf(rows)) && LogsOf(rows)[i].logType == RFC6962;
    }
    if Q.HasType(LogsOf(rows), Eligible(LogsOf(rows)), RFC6962) {
      var i :| i in Eligible(LogsOf(rows)) && LogsOf(rows)[i].logType == RFC6962;
      assert Bases(rows)[i] in multiset(Flatten(ops));
      var k := FlattenOnly(ops, Bases(rows)[i]);
      assert ops[k].logs != [];
    }
  }

  /**
    An accepted list of differently named operators satisfies the policy exactly when a required RFC 6962 log
    is in it.
   */
  lemma AcceptedSatisfies(rows: seq<Row>, ops: seq<OperatorEntry>, sr: Request)
    requires |ops| >= sr.operators && Total(ops) >= sr.scts
    requires Ranks(rows, ops) && NoneExcluded(rows) && DistinctNames(ops) && NoneBare(ops)
    ensures Q.Satisfies(LogsOf(rows), Eligible(LogsOf(rows)), sr) <==> (sr.requireRFC6962 ==> ListsRFC6962(ops))
  {
    RowsAreMany(rows, ops);
    RowsAreDiverse(rows, ops);
    RFC6962IsRanked(rows, ops);
  }

  // ---- Exclusions ----

  /** The logs that neither the configuration nor a missing tree head excludes. */
  ghost function Left(bs: seq<Submittable>, ask: Submittable -> Signals): seq<Submittable> {
    if bs == [] then []
    else
      var last := bs[|bs| - 1];
      Left(bs[..|bs| - 1], ask) + if Applies(ask(last), Excluded) then [] else [last]
  }

  ghost function OperatorsOf(bs: seq<Submittable>): set<string> {
    set b | b in bs :: b.operator
  }

  /** The logs suffice for the request. */
  ghost predicate LeftSuffices(bs: seq<Submittable>, sr: Request) {
    && |bs| >= sr.scts && |OperatorsOf(bs)| >= sr.operators
    && (sr.requireRFC6962 ==> exists b :: b in bs && b.logType == RFC6962)
  }

  lemma {:induction false} LeftExact(bs: seq<Submittable>, ask: Submittable -> Signals, b: Submittable)
    ensures b in Left(bs, ask) <==> b in bs && !Applies(ask(b), Excluded)
  {
    if bs != [] {
      LeftExact(bs[..|bs| - 1], ask, b);
      assert b in bs <==> b in bs[..|bs| - 1] || b == bs[|bs| - 1];
    }
  }

  lemma {:induction false} LeftRemove(bs: seq<Submittable>, ask: Submittable -> Signals, i: nat)
    requires i < |bs|
    ensures |Left(bs, ask)| ==
            |Left(bs[..i] + bs[i + 1..], ask)| + if Applies(ask(bs[i]), Excluded) then 0 else 1
    decreases |bs|
  {
    var n := |bs| - 1;
    if i == n {
      assert bs[..i] + bs[i + 1..] == bs[..n];
    } else {
      LeftRemove(bs[..n], ask, i);
      var rest := bs[..i] + bs[i + 1..];
      assert rest[..n - 1] == bs[..n][..i] + bs[..n][i + 1..];
      assert rest[n - 1] == bs[n];
    }
  }

  lemma {:induction false} LeftIgnoresOrder(a: seq<Submittable>, b: seq<Submittable>, ask: Submittable -> Signals)
    requires multiset(a) == multiset(b)
    ensures |Left(a, ask)| == |Left(b, ask)|
    decreases |a|
  {
    if a == [] {
      assert |multiset(a)| == |multiset(b)|;
    } else {
      var n := |a| - 1;
      assert a[n] in multiset(b);
      var i: nat :| i < |b| && b[i] == a[n];
      RemoveOne(a, n);
      RemoveOne(b, i);
      assert a[..n] + a[n + 1..] == a[..n];
      LeftIgnoresOrder(a[..n], b[..i] + b[i + 1..], ask);
      LeftRemove(a, ask, n);
      LeftRemove(b, ask, i);
    }
  }

  ghost predicate RowsOk(rows: seq<Row>, ask: Submittable -> Signals) {
    forall k | 0 <= k < |rows| :: RowOk(rows[k], ask)
  }

  /** A row is excluded exactly if something excludes its log. */
  lemma ExcludedRow(r: Row, ask: Submittable -> Signals)
    requires RowOk(r, ask)
    ensures r.log.bucket == Excluded <==> Applies(ask(BaseOf(r)), Excluded)
  {
    var s := ask(BaseOf(r));
    assert Applies(s, Excluded) ==> Disliked(s);
    assert r.log.bucket.Rank() <= 0 ==> r.log.bucket == Excluded;
  }

  lemma EligibleSnoc(rows: seq<Row>, r: Row)
    ensures Eligible(LogsOf(rows + [r])) ==
            Eligible(LogsOf(rows)) + if r.log.bucket == Excluded then {} else {|rows|}
  {
    var more := LogsOf(rows + [r]);
    assert more[|rows|] == r.log;
    assert forall k | 0 <= k < |rows| :: more[k] == LogsOf(rows)[k];
  }

  lemma LeftSnoc(rows: seq<Row>, r: Row, ask: Submittable -> Signals)
    ensures Left(Bases(rows + [r]), ask) ==
            Left(Bases(rows), ask) + if Applies(ask(BaseOf(r)), Excluded) then [] else [BaseOf(r)]
  {
    assert Bases(rows + [r]) == Bases(rows) + [BaseOf(r)];
    assert Bases(rows + [r])[..|rows|] == Bases(rows);
  }

  lemma {:induction false} EligibleCount(rows: seq<Row>, ask: Submittable -> Signals)
    requires RowsOk(rows, ask)
    ensures |Eligible(LogsOf(rows))| == |Left(Bases(rows), ask)|
  {
    if rows == [] {
      assert Eligible(LogsOf(rows)) == {};
    } else {
      var before, r := rows[..|rows| - 1], rows[|rows| - 1];
      EligibleCount(before, ask);
      ExcludedRow(r, ask);
      EligibleSnoc(before, r);
      LeftSnoc(before, r, ask);
      assert rows == before + [r];
    }
  }

  lemma LeftIsEligible(rows: seq<Row>, ops: seq<OperatorEntry>, ask: Submittable -> Signals, b: Submittable)
    returns (i: nat)
    requires Ranks(rows, ops) && RowsOk(rows, ask) && b in Left(Flatten(ops), ask)
    ensures i in Eligible(LogsOf(rows)) && BaseOf(rows[i]) == b
  {
    LeftExact(Flatten(ops), ask, b);
    i := RowOf(rows, ops, b);
    ExcludedRow(rows[i], ask);
  }

  lemma EligibleIsLeft(rows: seq<Row>, ops: seq<OperatorEntry>, ask: Submittable -> Signals, i: nat)
    requires Ranks(rows, ops) && RowsOk(rows, ask) && i in Eligible(LogsOf(rows))
    ensures BaseOf(rows[i]) in Left(Flatten(ops), ask)
  {
    ExcludedRow(rows[i], ask);
    assert Bases(rows)[i] in multiset(Flatten(ops));
    LeftExact(Flatten(ops), ask, BaseOf(rows[i]));
  }

  lemma LeftOperators(rows: seq<Row>, ops: seq<OperatorEntry>, ask: Submittable -> Signals)
    requires Ranks(rows, ops) && RowsOk(rows, ask)
    ensures Q.Operators(LogsOf(rows), Eligible(LogsOf(rows))) == OperatorsOf(Left(Flatten(ops), ask))
  {
    var logs := LogsOf(rows);
    forall n | n in Q.Operators(logs, Eligible(logs)) ensures n in OperatorsOf(Left(Flatten(ops), ask)) {
      var i :| i in Eligible(logs) && logs[i].operator == n;
      EligibleIsLeft(rows, ops, ask, i);
    }
    forall n | n in OperatorsOf(Left(Flatten(ops), ask)) ensures n in Q.Operators(logs, Eligible(logs)) {
      var b :| b in Left(Flatten(ops), ask) && b.operator == n;
      var i := LeftIsEligible(rows, ops, ask, b);
      assert logs[i].operator == n;
    }
  }

  lemma LeftTypes(rows: seq<Row>, ops: seq<OperatorEntry>, ask: Submittable -> Signals)
    requires Ranks(rows, ops) && RowsOk(rows, ask)
    ensures Q.HasType(LogsOf(rows), Eligible(LogsOf(rows)), RFC6962) <==>
            exists b :: b in Left(Flatten(ops), ask) && b.logType == RFC6962
  {
    var logs := LogsOf(rows);
    if i :| i in Eligible(logs) && logs[i].logType == RFC6962 {
      EligibleIsLeft(rows, ops, ask, i);
    }
    if b :| b in Left(Flatten(ops), ask) && b.logType == RFC6962 {
      var i := LeftIsEligible(rows, ops, ask, b);
      assert logs[i].logType == RFC6962;
    }
  }

  /** The eligible members satisfy the policy exactly if the logs of the list that are not excluded suffice. */
  lemma ExclusionsDecide(rows: seq<Row>, ops: seq<OperatorEntry>, ask: Submittable -> Signals, sr: Request)
    requires Ranks(rows, ops) && RowsOk(rows, ask)
    ensures Q.Satisfies(LogsOf(rows), Eligible(LogsOf(rows)), sr) <==> LeftSuffices(Left(Flatten(ops), ask), sr)
  {
    EligibleCount(rows, ask);
    LeftIgnoresOrder(Bases(rows), Flatten(ops), ask);
    LeftOperators(rows, ops, ask);
    LeftTypes(rows, ops, ask);
  }

  function TwoOperators(e: LogEntry, f: LogEntry): seq<OperatorEntry> {
    [OperatorEntry("A", [], [e]), OperatorEntry("B", [], [f])]
  }

  lemma TwoLogsInAll(e: LogEntry, f: LogEntry)
    ensures Total(TwoOperators(e, f)) == 2
  {
    var a, b := OperatorEntry("A", [], [e]), OperatorEntry("B", [], [f]);
    TotalSnoc([], a);
    TotalSnoc([a], b);
    assert [] + [a] == [a] && [a] + [b] == TwoOperators(e, f);
  }

  lemma TwoLogsFit(c: Check, e: LogEntry, f: LogEntry)
    requires Fits(c, e, true) && Fits(c, f, true) && |e.id| == |f.id| == ID_LENGTH
    ensures var ops := TwoOperators(e, f);
            WellFormedIds(ops) && NoneBare(ops) && forall k | 0 <= k < |ops| :: AllFit(c, ops[k])
  {
    forall k | 0 <= k < 2
      ensures var op := TwoOperators(e, f)[k]; AllFit(c, op) && !Bare(op) && IdsOk(op.logs) && IdsOk(op.tiled)
    {
    }
  }

  lemma OneOperatorIsLeft(e: LogEntry, f: LogEntry, config: Config, readings: Submittable -> Reading)
    requires config.excludedOperators == ["B"]
    ensures |OperatorsOf(Left(Flatten(TwoOperators(e, f)), Ask(config, readings)))| <= 1
  {
    var left := Left(Flatten(TwoOperators(e, f)), Ask(config, readings));
    forall b | b in left ensures b.operator == "A" {
      LeftExact(Flatten(TwoOperators(e, f)), Ask(config, readings), b);
      var k := FlattenOnly(TwoOperators(e, f), b);
      assert b.operator !in config.excludedOperators;
    }
    SubsetSize(OperatorsOf(left), {"A"});
  }

  lemma OneOperatorIsNotEnough(e: LogEntry, f: LogEntry, config: Config, readings: Submittable -> Reading, sr: Request)
    requires config.excludedOperators == ["B"] && sr.operators == 2
    ensures !LeftSuffices(Left(Flatten(TwoOperators(e, f)), Ask(config, readings)), sr)
  {
    OneOperatorIsLeft(e, f, config, readings);
  }

  /** The filter accepts a list of two logs for a request of two although one operator is excluded later. */
  lemma AcceptedThoughExcluded(readings: Submittable -> Reading)
    returns (c: Check, base: seq<OperatorEntry>, config: Config)
    ensures 1 <= c.sr.operators <= c.sr.scts && Suffices(c, base) && DistinctNames(base)
    ensures !LeftSuffices(Left(Flatten(Kept(c, base)), Ask(config, readings)), c.sr)
  {
    var e := LogEntry(seq(ID_LENGTH, _ => 'x'), "https://a.example/", None, None);
    var f := LogEntry(seq(ID_LENGTH, _ => 'y'), "https://b.example/", None, None);
    c := Check(Request(false, false, 2, 2, false, false), 0, 0, {(e.id, None), (f.id, None)});
    base, config := TwoOperators(e, f), Config(["B"], [], [], [], 0.0, 0.0);
    TwoLogsFit(c, e, f);
    TwoLogsInAll(e, f);
    AllFitSuffices(c, base);
    OneOperatorIsNotEnough(e, f, config, readings, c.sr);
  }

  ghost function JobOf(rows: seq<Row>, sr: Request): Job {
    Job(LogsOf(rows), sr, OutcomesOf(rows))
  }

  lemma RankedJobIsValid(rows: seq<Row>, sr: Request, ask: Submittable -> Signals)
    requires 1 <= sr.operators <= sr.scts && rows != [] && NoneExcluded(rows)
    requires RowsOk(rows, ask)
    ensures ValidJob(JobOf(rows, sr))
  {
    EligibleHaveNoOutcome(rows, ask);
    assert 0 in Eligible(LogsOf(rows));
  }

  /**
    Sufficiency is enough. If the filter accepts a list whose operators have distinct names, no log is
    excluded and a required RFC 6962 log is on offer, then every run in which no log fails before the quorum
    is met and nobody cancels is bounded, goes on so until it has returned, and has then reached quorum.
   */
  lemma SufficiencyIsEnough(c: Check, base: seq<OperatorEntry>, ops: seq<OperatorEntry>, rows: seq<Row>,
      ask: Submittable -> Signals, states: seq<M.Sys>, steps: seq<M.Step>)
    requires 1 <= c.sr.operators <= c.sr.scts && DistinctNames(base)
    requires Suffices(c, base) && ops == Kept(c, base)
    requires Ranks(rows, ops) && NoneExcluded(rows) && RowsOk(rows, ask)
    requires c.sr.requireRFC6962 ==> ListsRFC6962(ops)
    requires L.Run(JobOf(rows, c.sr), states, steps) && Schedules.NoFailures(states, steps)
    ensures |steps| <= 6 * |rows| + 2 && M.Shape(JobOf(rows, c.sr), states[|steps|])
    ensures var s := states[|steps|];
            M.Active(s.phase) ==> exists step :: M.Enabled(JobOf(rows, c.sr), s, step) && Schedules.Harmless(s, step)
    ensures !M.Active(states[|steps|].phase) ==> states[|steps|].phase.QuorumReached?
  {
    KeptNames(c, base);
    RowsAreMany(rows, ops);
    RankedJobIsValid(rows, c.sr, ask);
    AcceptedSatisfies(rows, ops, c.sr);
    Schedules.NoFailureMeansQuorum(JobOf(rows, c.sr), states, steps);
  }

  /**
    What the check misses, exactly. From an accepted list, a run that has returned without a cancellation and
    without a failure before the quorum was met has reached it if and only if the logs not excluded suffice.
   */
  lemma ExclusionsDecideRuns(c: Check, base: seq<OperatorEntry>, rows: seq<Row>, ask: Submittable -> Signals,
      states: seq<M.Sys>, steps: seq<M.Step>)
    requires 1 <= c.sr.operators <= c.sr.scts && Suffices(c, base)
    requires Ranks(rows, Kept(c, base)) && RowsOk(rows, ask) && Eligible(LogsOf(rows)) != {}
    requires L.Run(JobOf(rows, c.sr), states, steps) && Schedules.NoFailures(states, steps)
    requires !M.Active(states[|steps|].phase)
    ensures states[|steps|].phase.QuorumReached? <==> LeftSuffices(Left(Flatten(Kept(c, base)), ask), c.sr)
  {
    EligibleHaveNoOutcome(rows, ask);
    ExclusionsDecide(rows, Kept(c, base), ask, c.sr);
    Schedules.NoFailureVerdict(JobOf(rows, c.sr), states, steps);
  }

  /** A list that the filter accepts but that lacks a required RFC 6962 log yields no quorum from any logs. */
  lemma RequiredTypeIsNotChecked(c: Check, base: seq<OperatorEntry>, ops: seq<OperatorEntry>, rows: seq<Row>,
      ids: set<nat>)
    requires Suffices(c, base) && ops == Kept(c, base)
    requires c.sr.requireRFC6962 && !ListsRFC6962(ops)
    requires Ranks(rows, ops) && NoneExcluded(rows) && Q.InRange(LogsOf(rows), ids)
    ensures !Q.Satisfies(LogsOf(rows), ids, c.sr)
  {
    RFC6962IsRanked(rows, ops);
    assert forall i | i in ids :: i in Eligible(LogsOf(rows));
  }

  /** There is such a list: one operator with one tiled log, for a request that requires RFC 6962. */
  lemma AcceptedWithoutRequiredType() returns (c: Check, base: seq<OperatorEntry>)
    ensures 1 <= c.sr.operators <= c.sr.scts && c.sr.requireRFC6962
    ensures Suffices(c, base) && !ListsRFC6962(Kept(c, base))
  {
    var e := LogEntry(seq(ID_LENGTH, _ => 'x'), "https://log.example/", None, None);
    var op := OperatorEntry("Operator", [], [e]);
    c, base := Check(Request(false, false, 1, 1, true, false), 0, 0, {(e.id, None)}), [op];
    KeptAll(c, base);
    assert Total(base) == Total([]) + 1 by { assert [op][..0] == []; }
  }

  /** Every row stands for a log that the base list offers and that fits the submission. */
  lemma RowFits(c: Check, base: seq<OperatorEntry>, rows: seq<Row>, i: nat) returns (e: LogEntry)
    requires Ranks(rows, Kept(c, base)) && i < |rows|
    ensures e.url == rows[i].log.url
    ensures var tiled := rows[i].log.logType == Static;
            Offers(base, rows[i].log.operator, e, tiled) && Fits(c, e, tiled)
  {
    var ops, b := Kept(c, base), BaseOf(rows[i]);
    assert Bases(rows)[i] == b && b in multiset(Flatten(ops));
    var k := FlattenOnly(ops, b);
    var tiled := b.logType == Static;
    var es := if tiled then ops[k].tiled else ops[k].logs;
    var j: nat :| j < |es| && es[j].url == b.url;
    e := es[j];
    assert Lists(ops[k], b.operator, e, tiled);
    KeptOffers(c, base, b.operator, e, tiled);
  }

  // ---- The handler ----

  datatype Reply = Rejected(verdict: Verdict) | Submitted(result: S.Result)

  /**
    One submission from request to reply. A delivery holds the replies of distinct logs that satisfy the
    raised request. For a policy-compliant certificate that is not a Mark Certificate that is exactly the
    raised number of SCTs: at least two (three above 180 days) from at least two operators.
   */
  method SubmitCertificate(request: SubmissionRequest, cert: CertFacts, markEku: string,
      lists: ListChoice -> seq<OperatorEntry>, accepted: set<(string, Option<Interval>)>, now: int,
      config: Config, readings: Submittable -> Reading, contextDone: bool)
    returns (reply: Reply, ghost list: ListChoice, ghost rows: seq<Row>,
        ghost states: seq<M.Sys>, ghost steps: seq<M.Step>)
    modifies request
    ensures IsRaised(old(request.Value()), request.Value(), cert, markEku)
    ensures var c := Check(request.Value(), now, cert.notAfter, accepted);
            && (reply.Submitted? <==> Suffices(c, lists(list)))
            && (reply.Submitted? ==> Ranks(rows, Kept(c, lists(list))) && Sorted(rows))
    ensures reply.Submitted? ==> RowsOk(rows, Ask(config, readings))
    ensures list.TestTLS? <==> request.testLogs
    ensures list.CrtshActive? <==> !request.testLogs && !request.policyCompliant
    ensures list.UsableTLS? <==> !request.testLogs && request.policyCompliant && markEku !in cert.unknownEkus
    ensures reply.Submitted? ==>
              |states| == |steps| + 1 && S.ResultOk(JobOf(rows, request.Value()), states, steps, reply.result)
    ensures reply.Submitted? && (reply.result.Delivered? || reply.result.NotAchieved?) ==>
              L.Run(JobOf(rows, request.Value()), states, steps)
    ensures old(request.policyCompliant) && markEku !in cert.unknownEkus
            && reply.Submitted? && reply.result.Delivered? ==>
              && Compliant(rows, states[|steps|], reply.result)
              && |reply.result.scts| == request.scts >= 2
              && (cert.notAfter - cert.notBefore > 180 * 24 * 3600 ==> |reply.result.scts| >= 3)
    ensures var c := Check(request.Value(), now, cert.notAfter, accepted);
            reply.Submitted? && !contextDone && Schedules.NoFailures(states, steps)
            && LeftSuffices(Left(Flatten(Kept(c, lists(list))), Ask(config, readings)), request.Value())
            ==> reply.result.Delivered?
  {
    var choice := request.DetermineSubmissionRequirements(cert, markEku);
    list := choice;
    var sr := request.Value();
    var c := Check(sr, now, cert.notAfter, accepted);
    var verdict := DetermineCompatibleLogs(c, lists(choice));
    if !verdict.Enough? { return Rejected(verdict), list, [], [], []; }
    var ranked := Devise(verdict.operators, config, readings);
    rows := ranked;
    var result;
    result, states, steps := SubmitRanked(ranked, verdict.operators, Ask(config, readings), sr, contextDone);
    reply := Submitted(result);
    if result.Delivered? && TlsPolicy(sr, cert, markEku) {
      DeliveryIsCompliant(rows, sr, cert, markEku, states, steps, result);
    }
  }

  /** The last stage: a strategy is handed to `submit`. */
  method SubmitRanked(ranked: seq<Row>, ghost ops: seq<OperatorEntry>, ghost ask: Submittable -> Signals,
      sr: Request, contextDone: bool)
    returns (result: S.Result, ghost states: seq<M.Sys>, ghost steps: seq<M.Step>)
    requires 1 <= sr.operators <= sr.scts && Ranks(ranked, ops) && RowsOk(ranked, ask)
    ensures |states| == |steps| + 1 && S.ResultOk(JobOf(ranked, sr), states, steps, result)
    ensures result.Delivered? || result.NotAchieved? ==> L.Run(JobOf(ranked, sr), states, steps)
    ensures !contextDone && Schedules.NoFailures(states, steps) && LeftSuffices(Left(Flatten(ops), ask), sr) ==>
              result.Delivered?
  {
    EligibleHaveNoOutcome(ranked, ask);
    var strategy := new QS.Strategy(LogsOf(ranked), OutcomesOf(ranked));
    ghost var job;
    result, job, states, steps := S.Submit(strategy, sr, contextDone);
    if !contextDone {
      SufficientIsDelivered(ranked, ops, ask, sr, states, steps, result);
    }
  }

  /** The delivered replies are those of as many distinct logs, of two operators at least. */
  ghost predicate Compliant(rows: seq<Row>, s: M.Sys, result: S.Result)
    requires result.Delivered?
  {
    var ids := Q.Elements(s.c.q.indices);
    && |result.scts| == |ids|
    && Q.InRange(LogsOf(rows), ids) && |Q.Operators(LogsOf(rows), ids)| >= 2
  }

  lemma DeliveryIsCompliant(rows: seq<Row>, sr: Request, cert: CertFacts, markEku: string,
      states: seq<M.Sys>, steps: seq<M.Step>, result: S.Result)
    requires Meets(sr, cert, markEku) && TlsPolicy(sr, cert, markEku) && |states| == |steps| + 1
    requires result.Delivered? && S.ResultOk(JobOf(rows, sr), states, steps, result)
    ensures Compliant(rows, states[|steps|], result)
    ensures |result.scts| == sr.scts >= PolicySCTs(cert)
  {
    Q.DistinctSize(states[|steps|].c.q.indices);
  }

  /** With enough logs left and no failure, the SCTs are delivered. */
  lemma SufficientIsDelivered(rows: seq<Row>, ops: seq<OperatorEntry>, ask: Submittable -> Signals, sr: Request,
      states: seq<M.Sys>, steps: seq<M.Step>, result: S.Result)
    requires 1 <= sr.operators <= sr.scts && Ranks(rows, ops) && RowsOk(rows, ask) && |states| == |steps| + 1
    requires Eligible(LogsOf(rows)) != {} ==>
               && L.Run(JobOf(rows, sr), states, steps) && !M.Active(states[|steps|].phase)
               && S.ReturnedAs(result, states[|steps|].phase, states[|steps|].c.q, sr)
    ensures LeftSuffices(Left(Flatten(ops), ask), sr) && Schedules.NoFailures(states, steps) ==> result.Delivered?
  {
    if LeftSuffices(Left(Flatten(ops), ask), sr) && Schedules.NoFailures(states, steps) {
      ExclusionsDecide(rows, ops, ask, sr);
      EligibleHaveNoOutcome(rows, ask);
      Schedules.NoFailureVerdict(JobOf(rows, sr), states, steps);
    }
  }
}
