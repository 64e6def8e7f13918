/** Ranking the compatible logs: each falls into a bucket, and the strategy is sorted by bucket. */
module Strategies {
  import opened Logs
  import opened Finite
  import opened Compatible
  import opened Coordinator

  /** A log that a submission could go to. */
  datatype Submittable = Submittable(url: string, operator: string, logType: LogType)

  /** What the monitor knows of a log's tree head. */
  datatype TreeHead = NoData | NoTimestamp | Age(seconds: int)

  /** The part of the configuration that ranking reads; a pattern tells which URLs it matches. */
  datatype Config = Config(
    excludedOperators: seq<string>,
    excludedUrls: seq<string -> bool>,
    preferredOperators: seq<string>,
    preferredUrls: seq<string -> bool>,
    threshold24h: real,
    threshold90d: real)

  /** What the monitor says about a log; back-offs are durations, zero when there is none. */
  datatype Reading = Reading(
    treeHead: TreeHead,
    mmd: int,
    uptime24h: Option<real>,
    uptime90d: Option<real>,
    badResponse: int,
    timeout: int,
    status5xx: int,
    status4xx: int,
    slowResponse: int)

  /** What both say about a log. */
  datatype Signals = Signals(
    operatorExcluded: bool,
    logExcluded: bool,
    preferred: bool,
    threshold24h: real,
    threshold90d: real,
    reading: Reading)

  predicate MatchesAny(patterns: seq<string -> bool>, url: string) {
    exists k :: 0 <= k < |patterns| && patterns[k](url)
  }

  /** Operators can be excluded; logs can be excluded and preferred, by their URL only. */
  function SignalsFor(config: Config, reading: Reading, base: Submittable): Signals {
    Signals(
      base.operator in config.excludedOperators,
      MatchesAny(config.excludedUrls, base.url),
      MatchesAny(config.preferredUrls, base.url),
      config.threshold24h, config.threshold90d, reading)
  }

  function Ask(config: Config, readings: Submittable -> Reading): Submittable -> Signals {
    b => SignalsFor(config, readings(b), b)
  }

  /** One line of the strategy. */
  datatype Row = Row(log: Log, outcome: Outcome, weight: nat)

  /** The signals speak for this bucket. */
  predicate Applies(s: Signals, b: Bucket) {
    match b
    case Excluded => s.operatorExcluded || s.logExcluded || s.reading.treeHead.NoData?
    case MmdBlown => s.reading.treeHead.Age? && s.reading.treeHead.seconds > s.reading.mmd
    case LowUptime =>
      || (s.reading.uptime24h.Some? && s.reading.uptime24h.value < s.threshold24h)
      || (s.reading.uptime90d.Some? && s.reading.uptime90d.value < s.threshold90d)
    case RecentBadResponse => s.reading.badResponse > 0
    case RecentTimeout => s.reading.timeout > 0
    case Recent5xx => s.reading.status5xx > 0
    case Recent4xx => s.reading.status4xx > 0
    case SlowResponses => s.reading.slowResponse > 0
    case Neutral => true
    case Preferred => s.preferred
  }

  /** Something speaks against the log. */
  ghost predicate Disliked(s: Signals) {
    exists b: Bucket :: b.Rank() < Neutral.Rank() && Applies(s, b)
  }

  /** The worst bucket that anything speaks for; preference counts only when nothing speaks against the log. */
  ghost predicate IsBucket(s: Signals, b: Bucket) {
    && Applies(s, b)
    && (Disliked(s) ==> forall w | Applies(s, w) :: b.Rank() <= w.Rank())
    && (!Disliked(s) ==> b == if s.preferred then Preferred else Neutral)
  }

  const OPERATOR_EXCLUDED := "Operator excluded by config"
  const LOG_EXCLUDED := "Log excluded by config"
  const NO_STH := "No STH timestamp available"

  /** Why a log is excluded, if it is. */
  function ExclusionReason(s: Signals): Outcome {
    if s.logExcluded then ExcludedBy(LOG_EXCLUDED)
    else if s.operatorExcluded then ExcludedBy(OPERATOR_EXCLUDED)
    else if s.reading.treeHead.NoData? then ExcludedBy(NO_STH)
    else NoOutcome
  }

  /** The bucket and the outcome, read off from the configuration and the monitor in the order in which they count. */
  lemma BucketInSignals(config: Config, r: Reading, base: Submittable, b: Bucket)
    requires IsBucket(SignalsFor(config, r, base), b)
    ensures b == if base.operator in config.excludedOperators || MatchesAny(config.excludedUrls, base.url) then Excluded
                 else if r.treeHead.NoData? then Excluded
                 else if r.treeHead.Age? && r.treeHead.seconds > r.mmd then MmdBlown
                 else if r.uptime24h.Some? && r.uptime24h.value < config.threshold24h then LowUptime
                 else if r.uptime90d.Some? && r.uptime90d.value < config.threshold90d then LowUptime
                 else if r.badResponse > 0 then RecentBadResponse
                 else if r.timeout > 0 then RecentTimeout
                 else if r.status5xx > 0 then Recent5xx
                 else if r.status4xx > 0 then Recent4xx
                 else if r.slowResponse > 0 then SlowResponses
                 else if MatchesAny(config.preferredUrls, base.url) then Preferred else Neutral
    ensures ExclusionReason(SignalsFor(config, r, base)) ==
            if MatchesAny(config.excludedUrls, base.url) then ExcludedBy(LOG_EXCLUDED)
            else if base.operator in config.excludedOperators then ExcludedBy(OPERATOR_EXCLUDED)
            else if r.treeHead.NoData? then ExcludedBy(NO_STH) else NoOutcome
  {
    var s := SignalsFor(config, r, base);
    forall w: Bucket | w.Rank() < b.Rank() && w.Rank() < Neutral.Rank() ensures !Applies(s, w) {
    }
    assert b.Rank() > 0 ==> !Applies(s, Excluded);
    assert b.Rank() > 1 ==> !Applies(s, MmdBlown);
    assert b.Rank() > 2 ==> !Applies(s, LowUptime);
    assert b.Rank() > 3 ==> !Applies(s, RecentBadResponse);
    assert b.Rank() > 4 ==> !Applies(s, RecentTimeout);
    assert b.Rank() > 5 ==> !Applies(s, Recent5xx);
    assert b.Rank() > 6 ==> !Applies(s, Recent4xx);
    assert b.Rank() > 7 ==> !Applies(s, SlowResponses);
  }

  // ---- Preferences ----

  /** A log that nothing is known against. */
  const QUIET := Reading(NoTimestamp, 0, None, None, 0, 0, 0, 0, 0)

  lemma NothingDislikes()
    ensures !Disliked(Signals(false, false, false, 0.0, 0.0, QUIET))
  {
    forall b: Bucket | b.Rank() < Neutral.Rank() ensures !Applies(Signals(false, false, false, 0.0, 0.0, QUIET), b) {
      match b {
        case Excluded =>
        case MmdBlown =>
        case LowUptime =>
        case RecentBadResponse =>
        case RecentTimeout =>
        case Recent5xx =>
        case Recent4xx =>
        case SlowResponses =>
        case Neutral =>
        case Preferred =>
      }
    }
  }

  /** A log is preferred exactly if nothing speaks against it and a pattern matches its URL. */
  lemma PreferredByUrlOnly(config: Config, reading: Reading, base: Submittable)
    ensures var s := SignalsFor(config, reading, base);
            IsBucket(s, Preferred) <==> !Disliked(s) && MatchesAny(config.preferredUrls, base.url)
  {
    var s := SignalsFor(config, reading, base);
    if Disliked(s) {
      var b: Bucket :| b.Rank() < Neutral.Rank() && Applies(s, b);
      assert b.Rank() < Preferred.Rank();
    }
  }

  /** The configuration prefers an operator; its log, against which nothing speaks, is in the neutral bucket. */
  lemma PreferredOperatorIsNeutral(operator: string, url: string, t: LogType)
    ensures var config := Config([], [], [operator], [], 0.0, 0.0);
            var s := SignalsFor(config, QUIET, Submittable(url, operator, t));
            operator in config.preferredOperators && IsBucket(s, Neutral) && !IsBucket(s, Preferred)
  {
    var s := SignalsFor(Config([], [], [operator], [], 0.0, 0.0), QUIET, Submittable(url, operator, t));
    assert s == Signals(false, false, false, 0.0, 0.0, QUIET);
    NothingDislikes();
  }

  class StrategyMember {
    const base: Submittable
    const config: Config
    const reading: Reading
    var bucket: Bucket
    var outcome: Outcome
    var weight: nat

    function Signals(): Signals {
      SignalsFor(config, reading, base)
    }

    /** The state in which a member enters the strategy list. */
    predicate Initial()
      reads this
    {
      && bucket == (if Signals().operatorExcluded then Excluded else Neutral)
      && outcome == if Signals().operatorExcluded then ExcludedBy(OPERATOR_EXCLUDED) else NoOutcome
    }

    constructor (base: Submittable, config: Config, reading: Reading)
      ensures this.base == base && this.config == config && this.reading == reading
      ensures Initial() && weight == 0
    {
      this.base, this.config, this.reading, this.weight := base, config, reading, 0;
      bucket, outcome := Neutral, NoOutcome;
      if base.operator in config.excludedOperators {
        bucket, outcome := Excluded, ExcludedBy(OPERATOR_EXCLUDED);
      }
    }

    method ApplyLogExclusionConfig()
      modifies this`bucket, this`outcome
      ensures bucket == if Signals().logExcluded then Excluded else old(bucket)
      ensures outcome == if Signals().logExcluded then ExcludedBy(LOG_EXCLUDED) else old(outcome)
    {
      for k := 0 to |config.excludedUrls|
        invariant bucket == old(bucket) && outcome == old(outcome)
        invariant forall j | 0 <= j < k :: !config.excludedUrls[j](base.url)
      {
        if config.excludedUrls[k](base.url) {
          bucket, outcome := Excluded, ExcludedBy(LOG_EXCLUDED);
          return;
        }
      }
    }

    method DispreferIfMmdBlown()
      modifies this`bucket, this`outcome
      ensures bucket == if reading.treeHead.NoData? then Excluded
                        else if Applies(Signals(), MmdBlown) then MmdBlown else old(bucket)
      ensures outcome == if reading.treeHead.NoData? then ExcludedBy(NO_STH) else old(outcome)
    {
      if reading.treeHead.NoData? {
        bucket, outcome := Excluded, ExcludedBy(NO_STH);
        return;
      }
      if reading.treeHead.Age? {
        if reading.treeHead.seconds > reading.mmd {
          bucket := MmdBlown;
        }
      }
    }

    method DispreferIfLowUptime()
      modifies this`bucket
      ensures bucket == if Applies(Signals(), LowUptime) then LowUptime else old(bucket)
    {
      if reading.uptime24h.Some? && reading.uptime24h.value < config.threshold24h {
        bucket := LowUptime;
      }
      if reading.uptime90d.Some? && reading.uptime90d.value < config.threshold90d {
        bucket := LowUptime;
      }
    }

    /** The five back-off checks differ in their duration and their bucket only. */
    method DispreferIfBackoff(duration: int, reason: Bucket)
      modifies this`bucket
      ensures bucket == if duration > 0 then reason else old(bucket)
    {
      if duration > 0 {
        bucket := reason;
      }
    }

    method ApplyLogPreferenceConfig()
      modifies this`bucket
      ensures bucket == if old(bucket) != Excluded && Signals().preferred then Preferred else old(bucket)
    {
      if bucket != Excluded {
        for k := 0 to |config.preferredUrls|
          invariant bucket == old(bucket) && forall j | 0 <= j < k :: !config.preferredUrls[j](base.url)
        {
          if config.preferredUrls[k](base.url) {
            bucket := Preferred;
            return;
          }
        }
      }
    }

    /** The checks run from the worst bucket up, each only while the member is still neutral. */
    method Classify()
      requires Initial()
      modifies this
      ensures IsBucket(Signals(), bucket) && outcome == ExclusionReason(Signals()) && weight == old(weight)
    {
      ApplyLogExclusionConfig();
      if bucket == Neutral { DispreferIfMmdBlown(); }
      if bucket == Neutral { DispreferIfLowUptime(); }
      if bucket == Neutral { DispreferIfBackoff(reading.badResponse, RecentBadResponse); }
      if bucket == Neutral { DispreferIfBackoff(reading.timeout, RecentTimeout); }
      if bucket == Neutral { DispreferIfBackoff(reading.status5xx, Recent5xx); }
      if bucket == Neutral { DispreferIfBackoff(reading.status4xx, Recent4xx); }
      if bucket == Neutral { DispreferIfBackoff(reading.slowResponse, SlowResponses); }
      if bucket == Neutral { ApplyLogPreferenceConfig(); }
    }

    function Line(): Row
      reads this
    {
      Row(Log(base.url, base.operator, base.logType, bucket), outcome, weight)
    }
  }

  // ---- The order ----

  /** The comparison handed to the sort: higher buckets first, then lower weights. */
  function Compare(a: Row, b: Row): int {
    if a.log.bucket.Rank() != b.log.bucket.Rank() then b.log.bucket.Rank() - a.log.bucket.Rank()
    else a.weight - b.weight
  }

  ghost predicate Sorted(rows: seq<Row>) {
    forall j, k | 0 <= j < k < |rows| :: Compare(rows[j], rows[k]) <= 0
  }

  /** The buckets in the order in which logs are tried. */
  const BEST_FIRST := [Preferred, Neutral, SlowResponses, Recent4xx, Recent5xx, RecentTimeout, RecentBadResponse,
                       LowUptime, MmdBlown, Excluded]

  /** A log of a better bucket comes first; within a bucket, one of smaller weight. */
  ghost predicate BestFirst(rows: seq<Row>) {
    forall j, k, x, y | 0 <= j < k < |rows| && 0 <= x < |BEST_FIRST| && 0 <= y < |BEST_FIRST|
                        && rows[j].log.bucket == BEST_FIRST[x] && rows[k].log.bucket == BEST_FIRST[y] ::
      x < y || (x == y && rows[j].weight <= rows[k].weight)
  }

  lemma SortedIsBestFirst(rows: seq<Row>)
    requires Sorted(rows)
    ensures BestFirst(rows)
  {
    assert forall x | 0 <= x < |BEST_FIRST| :: BEST_FIRST[x].Rank() == 9 - x;
  }

  function Insert(rows: seq<Row>, r: Row): (s: seq<Row>) {
    if rows == [] || Compare(r, rows[0]) <= 0 then [r] + rows
    else [rows[0]] + Insert(rows[1..], r)
  }

  lemma {:induction false} InsertAdds(rows: seq<Row>, r: Row)
    ensures multiset(Insert(rows, r)) == multiset(rows) + multiset{r}
  {
    if rows != [] && Compare(r, rows[0]) > 0 {
      InsertAdds(rows[1..], r);
      assert rows == [rows[0]] + rows[1..];
    }
  }

  lemma SortedCons(r: Row, rows: seq<Row>)
    requires Sorted(rows) && forall k | 0 <= k < |rows| :: Compare(r, rows[k]) <= 0
    ensures Sorted([r] + rows)
  {
  }

  lemma {:induction false} InsertSorts(rows: seq<Row>, r: Row)
    requires Sorted(rows)
    ensures Sorted(Insert(rows, r))
  {
    if rows == [] || Compare(r, rows[0]) <= 0 {
      SortedCons(r, rows);
    } else {
      var rest := Insert(rows[1..], r);
      InsertSorts(rows[1..], r);
      InsertAdds(rows[1..], r);
      forall k | 0 <= k < |rest| ensures Compare(rows[0], rest[k]) <= 0 {
        assert rest[k] in multiset(rows[1..]) + multiset{r};
      }
      SortedCons(rows[0], rest);
    }
  }

  /** Stands in for the library sort: only its contract is relied on. */
  method Sort(rows: seq<Row>) returns (sorted: seq<Row>)
    ensures Sorted(sorted) && multiset(sorted) == multiset(rows)
  {
    sorted := [];
    for i := 0 to |rows|
      invariant Sorted(sorted) && multiset(sorted) == multiset(rows[..i])
    {
      InsertAdds(sorted, rows[i]);
      InsertSorts(sorted, rows[i]);
      sorted := Insert(sorted, rows[i]);
      assert rows[..i + 1] == rows[..i] + [rows[i]];
    }
    assert rows[..|rows|] == rows;
  }

  // ---- The strategy ----

  function Named(name: string, es: seq<LogEntry>, t: LogType): seq<Submittable> {
    seq(|es|, i requires 0 <= i < |es| => Submittable(es[i].url, name, t))
  }

  /** All logs of a list, operator by operator, RFC 6962 logs before tiled ones. */
  function Flatten(ops: seq<OperatorEntry>): seq<Submittable> {
    if ops == [] then []
    else
      var op := ops[|ops| - 1];
      Flatten(ops[..|ops| - 1]) + Named(op.name, op.logs, RFC6962) + Named(op.name, op.tiled, Static)
  }

  function BaseOf(r: Row): Submittable {
    Submittable(r.log.url, r.log.operator, r.log.logType)
  }

  function Bases(rows: seq<Row>): seq<Submittable> {
    seq(|rows|, i requires 0 <= i < |rows| => BaseOf(rows[i]))
  }

  /** A row is classified by the signals of its log, and its weight was drawn if it is not excluded. */
  ghost predicate RowOk(r: Row, ask: Submittable -> Signals) {
    && IsBucket(ask(BaseOf(r)), r.log.bucket)
    && r.outcome == ExclusionReason(ask(BaseOf(r)))
    && (if r.log.bucket == Excluded then r.weight == 0 else r.weight < 1000)
  }

  method Populate(ops: seq<OperatorEntry>) returns (bases: seq<Submittable>)
    ensures bases == Flatten(ops)
  {
    bases := [];
    for i := 0 to |ops|
      invariant bases == Flatten(ops[..i])
    {
      assert ops[..i + 1][..i] == ops[..i];
      bases := bases + Named(ops[i].name, ops[i].logs, RFC6962) + Named(ops[i].name, ops[i].tiled, Static);
    }
    assert ops[..|ops|] == ops;
  }

  method RankLog(base: Submittable, config: Config, readings: Submittable -> Reading) returns (r: Row)
    ensures BaseOf(r) == base && RowOk(r, Ask(config, readings))
  {
    var member := new StrategyMember(base, config, readings(base));
    member.Classify();
    if member.bucket != Excluded {
      var n: nat :| n < 1000;
      member.weight := n;
    }
    r := member.Line();
  }

  /** The compatible logs as they are populated, each ranked by itself. */
  method RankAll(bases: seq<Submittable>, config: Config, readings: Submittable -> Reading) returns (unsorted: seq<Row>)
    ensures Bases(unsorted) == bases
    ensures forall k | 0 <= k < |unsorted| :: RowOk(unsorted[k], Ask(config, readings))
  {
    unsorted := [];
    for i := 0 to |bases|
      invariant Bases(unsorted) == bases[..i]
      invariant forall k | 0 <= k < |unsorted| :: RowOk(unsorted[k], Ask(config, readings))
    {
      var r := RankLog(bases[i], config, readings);
      assert Bases(unsorted + [r]) == Bases(unsorted) + [bases[i]];
      unsorted := unsorted + [r];
    }
    assert bases[..|bases|] == bases;
  }

  lemma PermutedRowsOk(a: seq<Row>, b: seq<Row>, ask: Submittable -> Signals)
    requires multiset(a) == multiset(b) && forall k | 0 <= k < |b| :: RowOk(b[k], ask)
    ensures forall k | 0 <= k < |a| :: RowOk(a[k], ask)
  {
    forall k | 0 <= k < |a| ensures RowOk(a[k], ask) {
      assert a[k] in multiset(b);
    }
  }

  /** `devizeSubmissionStrategy`, before it is handed to `submit`. */
  method Devise(ops: seq<OperatorEntry>, config: Config, readings: Submittable -> Reading) returns (rows: seq<Row>)
    ensures multiset(Bases(rows)) == multiset(Flatten(ops))
    ensures Sorted(rows) && forall k | 0 <= k < |rows| :: RowOk(rows[k], Ask(config, readings))
    ensures BestFirst(rows)
  {
    var bases := Populate(ops);
    var unsorted := RankAll(bases, config, readings);
    rows := Sort(unsorted);
    PermutedBases(rows, unsorted);
    PermutedRowsOk(rows, unsorted, Ask(config, readings));
    SortedIsBestFirst(rows);
  }

  lemma {:induction false} PermutedBases(a: seq<Row>, b: seq<Row>)
    requires multiset(a) == multiset(b)
    ensures multiset(Bases(a)) == multiset(Bases(b))
    decreases |a|
  {
    if a == [] {
      assert |multiset(a)| == |multiset(b)|;
      assert Bases(a) == Bases(b);
    } else {
      var n := |a| - 1;
      assert a[n] in multiset(b);
      var i: nat :| i < |b| && b[i] == a[n];
      var rest := b[..i] + b[i + 1..];
      assert a[..n] + a[n + 1..] == a[..n];
      RemoveOne(a, n);
      RemoveOne(b, i);
      PermutedBases(a[..n], rest);
      BasesSplit(a, n);
      BasesSplit(b, i);
    }
  }

  lemma BasesSplit(rows: seq<Row>, i: nat)
    requires i < |rows|
    ensures multiset(Bases(rows)) == multiset(Bases(rows[..i] + rows[i + 1..])) + multiset{BaseOf(rows[i])}
  {
    var rest := rows[..i] + rows[i + 1..];
    assert Bases(rows) == Bases(rest)[..i] + [BaseOf(rows[i])] + Bases(rest)[i..];
    assert Bases(rest) == Bases(rest)[..i] + Bases(rest)[i..];
  }

  function LogsOf(rows: seq<Row>): seq<Log> {
    seq(|rows|, i requires 0 <= i < |rows| => rows[i].log)
  }

  function OutcomesOf(rows: seq<Row>): seq<Outcome> {
    seq(|rows|, i requires 0 <= i < |rows| => rows[i].outcome)
  }

  /** Excluded logs come last, so the eligible indices are a prefix of the strategy. */
  lemma EligibleIsPrefix(rows: seq<Row>) returns (n: nat)
    requires Sorted(rows)
    ensures n <= |rows| && forall i: nat :: i in Eligible(LogsOf(rows)) <==> i < n
  {
    n := 0;
    while n < |rows| && rows[n].log.bucket != Excluded
      invariant n <= |rows| && forall i | 0 <= i < n :: rows[i].log.bucket != Excluded
    {
      n := n + 1;
    }
    forall i: nat | n <= i < |rows| ensures rows[i].log.bucket == Excluded {
      assert i > n ==> Compare(rows[n], rows[i]) <= 0;
    }
  }

  /** The index list that `submit` computes from a sorted strategy is the identity prefix. */
  lemma EligibleListIsIdentity(rows: seq<Row>, eligible: seq<nat>)
    requires Sorted(rows)
    requires forall j, k | 0 <= j < k < |eligible| :: eligible[j] < eligible[k]
    requires forall i: nat :: i in eligible <==> i in Eligible(LogsOf(rows))
    ensures forall k | 0 <= k < |eligible| :: eligible[k] == k
  {
    var n := EligibleIsPrefix(rows);
    forall k | 0 <= k < |eligible| ensures eligible[k] == k {
      PrefixElement(eligible, n, k);
    }
  }

  lemma {:induction false} PrefixElement(xs: seq<nat>, n: nat, k: nat)
    requires k < |xs| && forall j, k | 0 <= j < k < |xs| :: xs[j] < xs[k]
    requires forall i: nat :: i in xs <==> i < n
    ensures xs[k] == k
  {
    if k > 0 {
      PrefixElement(xs, n, k - 1);
    }
    assert xs[k] in xs;
    assert k in xs;
    var j :| 0 <= j < |xs| && xs[j] == k;
  }

  /** Members that are not excluded start without an outcome. */
  lemma EligibleHaveNoOutcome(rows: seq<Row>, ask: Submittable -> Signals)
    requires forall k | 0 <= k < |rows| :: RowOk(rows[k], ask)
    ensures forall i | i in Eligible(LogsOf(rows)) :: OutcomesOf(rows)[i] == NoOutcome
  {
    forall i | i in Eligible(LogsOf(rows)) ensures OutcomesOf(rows)[i] == NoOutcome {
      var s := ask(BaseOf(rows[i]));
      assert RowOk(rows[i], ask);
      assert Applies(s, Excluded) ==> Disliked(s);
    }
  }
}
