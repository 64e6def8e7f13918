/**
  The sliding windows of the monitor. Samples are trimmed from the front when a window is used;
  what is reported is nevertheless what the full history of the last thirty seconds says.
 */
module Windows {

  datatype Sample<T> = Sample(at: int, value: T)

  /** Thirty seconds, in nanoseconds. */
  const WINDOW := 30 * 1_000_000_000

  const CANCELLED := "cancelled"
  const SUCCESS := "success"

  function At<T>(m: map<string, seq<Sample<T>>>, url: string): seq<Sample<T>> {
    if url in m then m[url] else []
  }

  /** The samples of a history that are not before the cutoff. */
  ghost function Recent<T>(h: seq<Sample<T>>, cutoff: int): seq<Sample<T>> {
    if h == [] then []
    else
      var last := h[|h| - 1];
      Recent(h[..|h| - 1], cutoff) + if last.at < cutoff then [] else [last]
  }

  ghost predicate Chronological<T>(h: seq<Sample<T>>) {
    forall j, k | 0 <= j < k < |h| :: h[j].at <= h[k].at
  }

  ghost predicate Stale<T>(h: seq<Sample<T>>, cutoff: int) {
    forall k | 0 <= k < |h| :: h[k].at < cutoff
  }

  /** What is kept is a suffix of the history, and whatever was trimmed had left the window. */
  ghost predicate Keeps<T>(kept: seq<Sample<T>>, h: seq<Sample<T>>, clock: int) {
    && Chronological(h) && (forall k | 0 <= k < |h| :: h[k].at <= clock)
    && |kept| <= |h| && h == h[..|h| - |kept|] + kept
    && Stale(h[..|h| - |kept|], clock - WINDOW)
  }

  ghost predicate WindowOk<T>(samples: map<string, seq<Sample<T>>>, history: map<string, seq<Sample<T>>>, clock: int) {
    forall url :: SlotOk(samples, history, clock, url)
  }

  ghost predicate SlotOk<T>(samples: map<string, seq<Sample<T>>>, history: map<string, seq<Sample<T>>>, clock: int,
      url: string) {
    Keeps(At(samples, url), At(history, url), clock)
  }

  lemma {:induction false} RecentConcat<T>(a: seq<Sample<T>>, b: seq<Sample<T>>, cutoff: int)
    ensures Recent(a + b, cutoff) == Recent(a, cutoff) + Recent(b, cutoff)
  {
    if b == [] {
      assert a + b == a;
    } else {
      var init := b[..|b| - 1];
      assert (a + b)[..|a + b| - 1] == a + init;
      RecentConcat(a, init, cutoff);
    }
  }

  lemma {:induction false} StaleIsNotRecent<T>(h: seq<Sample<T>>, cutoff: int)
    requires Stale(h, cutoff)
    ensures Recent(h, cutoff) == []
  {
    if h != [] {
      StaleIsNotRecent(h[..|h| - 1], cutoff);
    }
  }

  lemma {:induction false} AllRecent<T>(h: seq<Sample<T>>, cutoff: int)
    requires forall k | 0 <= k < |h| :: h[k].at >= cutoff
    ensures Recent(h, cutoff) == h
  {
    if h != [] {
      AllRecent(h[..|h| - 1], cutoff);
    }
  }

  /** Trimming loses nothing that any later window could show. */
  lemma RecentOfKept<T>(kept: seq<Sample<T>>, h: seq<Sample<T>>, clock: int, now: int)
    requires Keeps(kept, h, clock) && now >= clock
    ensures Recent(kept, now - WINDOW) == Recent(h, now - WINDOW)
  {
    var trimmed := h[..|h| - |kept|];
    RecentConcat(trimmed, kept, now - WINDOW);
    StaleIsNotRecent(trimmed, now - WINDOW);
  }

  lemma SplitRecent<T>(h: seq<Sample<T>>, i: nat, cutoff: int)
    requires i <= |h| && Stale(h[..i], cutoff) && forall k | i <= k < |h| :: h[k].at >= cutoff
    ensures Recent(h, cutoff) == h[i..]
  {
    assert h == h[..i] + h[i..];
    RecentConcat(h[..i], h[i..], cutoff);
    StaleIsNotRecent(h[..i], cutoff);
    AllRecent(h[i..], cutoff);
  }

  /** What a window shows at time `now`: all of the history but what is more than thirty seconds old. */
  lemma WindowIsThirtySeconds<T>(h: seq<Sample<T>>, now: int, i: nat)
    requires i <= |h| && forall k | 0 <= k < i :: now - h[k].at > 30_000_000_000
    requires forall k | i <= k < |h| :: now - h[k].at <= 30_000_000_000
    ensures Recent(h, now - WINDOW) == h[i..]
  {
    SplitRecent(h, i, now - WINDOW);
  }

  /** The trimming loop: on chronological samples, dropping a prefix is filtering. */
  method DropStale<T>(samples: seq<Sample<T>>, cutoff: int) returns (i: nat)
    requires Chronological(samples)
    ensures i <= |samples| && Stale(samples[..i], cutoff)
    ensures Recent(samples, cutoff) == samples[i..]
  {
    i := 0;
    while i < |samples| && samples[i].at < cutoff
      invariant 0 <= i <= |samples| && forall k | 0 <= k < i :: samples[k].at < cutoff
    {
      i := i + 1;
    }
    SplitRecent(samples, i, cutoff);
  }

  /** Trimming again, later, keeps the window in order. */
  lemma TrimmedKeeps<T>(kept: seq<Sample<T>>, h: seq<Sample<T>>, clock: int, now: int, i: nat)
    requires Keeps(kept, h, clock) && now >= clock
    requires i <= |kept| && Stale(kept[..i], now - WINDOW)
    ensures Keeps(kept[i..], h, now)
  {
    var n := |h| - |kept|;
    var trimmed := h[..n + i];
    assert h == trimmed + kept[i..];
    forall k | 0 <= k < |trimmed| ensures trimmed[k].at < now - WINDOW {
      assert k < n ==> trimmed[k] == h[..n][k];
      assert k >= n ==> trimmed[k] == kept[..i][k - n];
    }
  }

  lemma KeptIsChronological<T>(kept: seq<Sample<T>>, h: seq<Sample<T>>, clock: int)
    requires Keeps(kept, h, clock)
    ensures Chronological(kept)
  {
    assert forall k | 0 <= k < |kept| :: kept[k] == h[|h| - |kept| + k];
  }

  /** What every use of a window starts with. */
  method Refresh<T>(samples: seq<Sample<T>>, ghost h: seq<Sample<T>>, ghost clock: int, now: int)
    returns (rest: seq<Sample<T>>)
    requires Keeps(samples, h, clock) && now >= clock
    ensures Keeps(rest, h, now) && rest == Recent(h, now - WINDOW)
  {
    KeptIsChronological(samples, h, clock);
    var i := DropStale(samples, now - WINDOW);
    TrimmedKeeps(samples, h, clock, now, i);
    RecentOfKept(samples, h, clock, now);
    rest := samples[i..];
  }

  lemma AddedKeeps<T>(kept: seq<Sample<T>>, h: seq<Sample<T>>, now: int, s: Sample<T>)
    requires Keeps(kept, h, now) && s.at == now
    ensures Keeps(kept + [s], h + [s], now)
  {
    var n := |h| - |kept|;
    assert h + [s] == (h[..n] + kept) + [s] == h[..n] + (kept + [s]);
    assert (h + [s])[..n] == h[..n];
  }

  lemma LaterKeeps<T>(kept: seq<Sample<T>>, h: seq<Sample<T>>, clock: int, now: int)
    requires Keeps(kept, h, clock) && now >= clock
    ensures Keeps(kept, h, now)
  {
  }

  lemma AtUpdate<T>(m: map<string, seq<Sample<T>>>, url: string, w: seq<Sample<T>>, u: string)
    ensures At(m[url := w], u) == if u == url then w else At(m, u)
  {
  }

  lemma SlotUpdate<T>(samples: map<string, seq<Sample<T>>>, history: map<string, seq<Sample<T>>>, clock: int, now: int,
      url: string, kept: seq<Sample<T>>, h: seq<Sample<T>>, u: string)
    requires SlotOk(samples, history, clock, u) && now >= clock && Keeps(kept, h, now)
    ensures SlotOk(samples[url := kept], history[url := h], now, u)
  {
    AtUpdate(samples, url, kept, u);
    AtUpdate(history, url, h, u);
    LaterKeeps(At(samples, u), At(history, u), clock, now);
  }

  /** One window was trimmed or extended; the others only see the clock advance. */
  lemma WindowUpdate<T>(samples: map<string, seq<Sample<T>>>, history: map<string, seq<Sample<T>>>, clock: int,
      now: int,
      url: string, kept: seq<Sample<T>>, h: seq<Sample<T>>)
    requires WindowOk(samples, history, clock) && now >= clock && Keeps(kept, h, now)
    ensures WindowOk(samples[url := kept], history[url := h], now)
  {
    var samples', history' := samples[url := kept], history[url := h];
    forall u ensures SlotOk(samples', history', now, u) {
      assert SlotOk(samples, history, clock, u);
      SlotUpdate(samples, history, clock, now, url, kept, h, u);
    }
  }

  lemma WindowLater<T>(samples: map<string, seq<Sample<T>>>, history: map<string, seq<Sample<T>>>, clock: int, now: int)
    requires WindowOk(samples, history, clock) && now >= clock
    ensures WindowOk(samples, history, now)
  {
    forall u ensures SlotOk(samples, history, now, u) {
      assert SlotOk(samples, history, clock, u);
      LaterKeeps(At(samples, u), At(history, u), clock, now);
    }
  }

  /** Trim one log's window. */
  method Trim<T>(samples: map<string, seq<Sample<T>>>, ghost history: map<string, seq<Sample<T>>>, ghost clock: int,
      url: string, now: int)
    returns (rest: seq<Sample<T>>, samples': map<string, seq<Sample<T>>>)
    requires WindowOk(samples, history, clock) && now >= clock
    ensures rest == Recent(At(history, url), now - WINDOW) && samples' == samples[url := rest]
    ensures WindowOk(samples', history[url := At(history, url)], now)
  {
    assert SlotOk(samples, history, clock, url);
    rest := Refresh(At(samples, url), At(history, url), clock, now);
    samples' := samples[url := rest];
    WindowUpdate(samples, history, clock, now, url, rest, At(history, url));
  }

  /** Trim one log's window and add a sample to it. */
  method Append<T>(samples: map<string, seq<Sample<T>>>, ghost history: map<string, seq<Sample<T>>>, ghost clock: int,
      url: string, value: T, now: int)
    returns (samples': map<string, seq<Sample<T>>>)
    requires WindowOk(samples, history, clock) && now >= clock
    ensures WindowOk(samples', history[url := At(history, url) + [Sample(now, value)]], now)
  {
    assert SlotOk(samples, history, clock, url);
    var rest := Refresh(At(samples, url), At(history, url), clock, now);
    AddedKeeps(rest, At(history, url), now, Sample(now, value));
    WindowUpdate(samples, history, clock, now, url, rest + [Sample(now, value)], At(history, url) + [Sample(now,
        value)]);
    samples' := samples[url := rest + [Sample(now, value)]];
  }

  // ---- What is reported ----

  ghost function Count(h: seq<Sample<bool>>, success: bool): nat {
    if h == [] then 0
    else Count(h[..|h| - 1], success) + if h[|h| - 1].value == success then 1 else 0
  }

  ghost function Sum(h: seq<Sample<int>>): int {
    if h == [] then 0 else Sum(h[..|h| - 1]) + h[|h| - 1].value
  }

  /** Integer division as Go does it: towards zero. */
  function Quotient(total: int, n: nat): int
    requires n > 0
  {
    if total < 0 then -(-total / n) else total / n
  }

  /** Every sample counts once, as a success or as a failure. */
  lemma {:induction false} CountsAddUp(h: seq<Sample<bool>>)
    ensures Count(h, true) + Count(h, false) == |h|
  {
    if h != [] {
      CountsAddUp(h[..|h| - 1]);
    }
  }

  /** The positions of the samples with that value. */
  ghost function WithValue(h: seq<Sample<bool>>, success: bool): set<nat> {
    set k: nat | k < |h| && h[k].value == success
  }

  lemma WithValueNext(h: seq<Sample<bool>>, success: bool)
    requires h != []
    ensures var n := |h| - 1;
            WithValue(h, success) == WithValue(h[..n], success) + if h[n].value == success then {n} else {}
  {
    var n := |h| - 1;
    assert forall k: nat | k < n :: h[..n][k] == h[k];
  }

  /** A count is the number of samples with that value. */
  lemma {:induction false} CountIsSize(h: seq<Sample<bool>>, success: bool)
    ensures Count(h, success) == |WithValue(h, success)|
  {
    if h == [] {
      assert WithValue(h, success) == {};
    } else {
      CountIsSize(h[..|h| - 1], success);
      WithValueNext(h, success);
    }
  }

  /** One sample sums up to its value, and two histories to the sum of their sums. */
  lemma {:induction false} SumAddsUp(a: seq<Sample<int>>, b: seq<Sample<int>>)
    ensures Sum(a + b) == Sum(a) + Sum(b)
    ensures |a| == 1 ==> Sum(a) == a[0].value
  {
    if b == [] {
      assert a + b == a;
    } else {
      SumAddsUp(a, b[..|b| - 1]);
      assert (a + b)[..|a + b| - 1] == a + b[..|b| - 1];
    }
    if |a| == 1 { assert a[..0] == []; }
  }

  lemma Remainder(total: nat, n: nat, d: int)
    requires n > 0 && d == total / n
    ensures d * n <= total < d * n + n
  {
    assert total == n * d + total % n;
  }

  lemma NegatedProduct(d: int, n: nat)
    ensures (-d) * n == -(d * n)
  {
  }

  /** The quotient is the exact one without its fraction. */
  lemma QuotientTruncates(total: int, n: nat)
    requires n > 0
    ensures var product := Quotient(total, n) * n;
            && (total >= 0 ==> product <= total < product + n)
            && (total <= 0 ==> product - n < total <= product)
  {
    if total < 0 {
      var d := -total / n;
      Remainder(-total, n, d);
      NegatedProduct(d, n);
    } else {
      Remainder(total, n, total / n);
    }
  }

  method CountOutcomes(h: seq<Sample<bool>>) returns (successes: nat, failures: nat)
    ensures successes == Count(h, true) && failures == Count(h, false)
  {
    successes, failures := 0, 0;
    for i := 0 to |h|
      invariant successes == Count(h[..i], true) && failures == Count(h[..i], false)
    {
      assert h[..i + 1][..i] == h[..i];
      if h[i].value {
        successes := successes + 1;
      } else {
        failures := failures + 1;
      }
    }
    assert h[..|h|] == h;
  }

  method Total(h: seq<Sample<int>>) returns (total: int)
    ensures total == Sum(h)
  {
    total := 0;
    for i := 0 to |h|
      invariant total == Sum(h[..i])
    {
      assert h[..i + 1][..i] == h[..i];
      total := total + h[i].value;
    }
    assert h[..|h|] == h;
  }

  class Monitor {
    var outcomeSamples: map<string, seq<Sample<bool>>>
    var responseTimeSamples: map<string, seq<Sample<int>>>
    ghost var outcomes: map<string, seq<Sample<bool>>>  // every outcome that was not a cancellation
    ghost var responseTimes: map<string, seq<Sample<int>>>  // every response time
    ghost var clock: int  // the latest time that was read

    ghost predicate Valid()
      reads this
    {
      WindowOk(outcomeSamples, outcomes, clock) && WindowOk(responseTimeSamples, responseTimes, clock)
    }

    constructor (now: int)
      ensures Valid() && outcomes == map[] && responseTimes == map[] && clock == now
    {
      outcomeSamples, responseTimeSamples := map[], map[];
      outcomes, responseTimes, clock := map[], map[], now;
    }

    method RecordOutcomeSample(url: string, outcome: string, now: int)
      requires Valid() && now >= clock
      modifies this
      ensures Valid() && responseTimes == old(responseTimes)
      ensures outcome == CANCELLED ==>
                outcomes == old(outcomes) && outcomeSamples == old(outcomeSamples) && clock == old(clock)
      ensures outcome != CANCELLED ==>
                && outcomes == old(outcomes)[url := At(old(outcomes), url) + [Sample(now, outcome == SUCCESS)]]
                && clock == now
    {
      if outcome == CANCELLED { return; }
      outcomeSamples := Append(outcomeSamples, outcomes, clock, url, outcome == SUCCESS, now);
      WindowLater(responseTimeSamples, responseTimes, clock, now);
      outcomes := outcomes[url := At(outcomes, url) + [Sample(now, outcome == SUCCESS)]];
      clock := now;
    }

    /** The counts over the last thirty seconds of the whole history. */
    method GetRecentOutcomeCounts(url: string, now: int) returns (successes: nat, failures: nat)
      requires Valid() && now >= clock
      modifies this
      ensures Valid() && responseTimes == old(responseTimes) && clock == now
      ensures forall u :: At(outcomes, u) == At(old(outcomes), u)
      ensures var recent := Recent(At(old(outcomes), url), now - 30_000_000_000);
              && successes == Count(recent, true) == |WithValue(recent, true)|
              && failures == Count(recent, false) == |WithValue(recent, false)|
              && successes + failures == |recent|
    {
      var rest;
      rest, outcomeSamples := Trim(outcomeSamples, outcomes, clock, url, now);
      WindowLater(responseTimeSamples, responseTimes, clock, now);
      outcomes := outcomes[url := At(outcomes, url)];
      clock := now;
      successes, failures := CountOutcomes(rest);
      CountsAddUp(rest);
      CountIsSize(rest, true);
      CountIsSize(rest, false);
    }

    method RecordResponseTimeSample(url: string, duration: int, now: int)
      requires Valid() && now >= clock
      modifies this
      ensures Valid() && outcomes == old(outcomes) && clock == now
      ensures responseTimes == old(responseTimes)[url := At(old(responseTimes), url) + [Sample(now, duration)]]
    {
      responseTimeSamples := Append(responseTimeSamples, responseTimes, clock, url, duration, now);
      WindowLater(outcomeSamples, outcomes, clock, now);
      responseTimes := responseTimes[url := At(responseTimes, url) + [Sample(now, duration)]];
      clock := now;
    }

    /** The truncated average over the last thirty seconds of the whole history, if there was any response. */
    method GetAvgResponseTime(url: string, now: int) returns (average: int, ok: bool)
      requires Valid() && now >= clock
      modifies this
      ensures Valid() && outcomes == old(outcomes) && clock == now
      ensures forall u :: At(responseTimes, u) == At(old(responseTimes), u)
      ensures var recent := Recent(At(old(responseTimes), url), now - 30_000_000_000);
              && (ok <==> recent != [])
              && average == if recent == [] then 0 else Quotient(Sum(recent), |recent|)
    {
      var rest;
      rest, responseTimeSamples := Trim(responseTimeSamples, responseTimes, clock, url, now);
      WindowLater(outcomeSamples, outcomes, clock, now);
      responseTimes := responseTimes[url := At(responseTimes, url)];
      clock := now;
      if |rest| == 0 { return 0, false; }
      var total := Total(rest);
      return Quotient(total, |rest|), true;
    }
  }

  // ---- Any sequence of calls ----

  datatype Call =
    | RecordOutcome(url: string, outcome: string, now: int)
    | RecordTime(url: string, duration: int, now: int)
    | GetCounts(url: string, now: int)
    | GetAverage(url: string, now: int)

  datatype Answer = Nothing | Counts(successes: nat, failures: nat) | Average(average: int, ok: bool)

  /** The clock does not go backwards. */
  ghost predicate InTime(calls: seq<Call>, start: int) {
    && (forall k | 0 <= k < |calls| :: start <= calls[k].now)
    && (forall j, k | 0 <= j < k < |calls| :: calls[j].now <= calls[k].now)
  }

  /** All outcomes ever recorded for the log, but for cancellations. */
  ghost function OutcomesOf(calls: seq<Call>, url: string): seq<Sample<bool>> {
    if calls == [] then []
    else
      var last := calls[|calls| - 1];
      OutcomesOf(calls[..|calls| - 1], url)
      + if last.RecordOutcome? && last.url == url && last.outcome != CANCELLED
        then [Sample(last.now, last.outcome == SUCCESS)] else []
  }

  /** All response times ever recorded for the log. */
  ghost function TimesOf(calls: seq<Call>, url: string): seq<Sample<int>> {
    if calls == [] then []
    else
      var last := calls[|calls| - 1];
      TimesOf(calls[..|calls| - 1], url)
      + if last.RecordTime? && last.url == url then [Sample(last.now, last.duration)] else []
  }

  /** What the calls before it, filtered to the last thirty seconds, answer to a call. */
  ghost function Expected(before: seq<Call>, call: Call): Answer {
    match call
    case RecordOutcome(_, _, _) => Nothing
    case RecordTime(_, _, _) => Nothing
    case GetCounts(url, now) =>
      var recent := Recent(OutcomesOf(before, url), now - WINDOW);
      Counts(Count(recent, true), Count(recent, false))
    case GetAverage(url, now) =>
      var recent := Recent(TimesOf(before, url), now - WINDOW);
      Average(if recent == [] then 0 else Quotient(Sum(recent), |recent|), recent != [])
  }

  type Outcomes = map<string, seq<Sample<bool>>>
  type Times = map<string, seq<Sample<int>>>

  ghost predicate Recalls(outcomes: Outcomes, times: Times, calls: seq<Call>, url: string) {
    At(outcomes, url) == OutcomesOf(calls, url) && At(times, url) == TimesOf(calls, url)
  }

  ghost predicate Remembers(outcomes: Outcomes, times: Times, calls: seq<Call>) {
    forall url :: Recalls(outcomes, times, calls, url)
  }

  ghost function NewOutcome(call: Call, url: string): seq<Sample<bool>> {
    if call.RecordOutcome? && call.url == url && call.outcome != CANCELLED
    then [Sample(call.now, call.outcome == SUCCESS)] else []
  }

  ghost function NewTime(call: Call, url: string): seq<Sample<int>> {
    if call.RecordTime? && call.url == url then [Sample(call.now, call.duration)] else []
  }

  lemma HistorySnoc(calls: seq<Call>, call: Call, url: string)
    ensures OutcomesOf(calls + [call], url) == OutcomesOf(calls, url) + NewOutcome(call, url)
    ensures TimesOf(calls + [call], url) == TimesOf(calls, url) + NewTime(call, url)
  {
    assert (calls + [call])[..|calls|] == calls;
  }

  lemma RemembersOutcome(outcomes: Outcomes, times: Times, calls: seq<Call>, call: Call)
    requires Remembers(outcomes, times, calls) && call.RecordOutcome?
    ensures var more := outcomes[call.url := At(outcomes, call.url) + [Sample(call.now, call.outcome == SUCCESS)]];
            Remembers(if call.outcome == CANCELLED then outcomes else more, times, calls + [call])
  {
    var more := outcomes[call.url := At(outcomes, call.url) + [Sample(call.now, call.outcome == SUCCESS)]];
    var outcomes' := if call.outcome == CANCELLED then outcomes else more;
    forall url ensures Recalls(outcomes', times, calls + [call], url) {
      assert Recalls(outcomes, times, calls, url);
      HistorySnoc(calls, call, url);
    }
  }

  lemma RemembersTime(outcomes: Outcomes, times: Times, calls: seq<Call>, call: Call)
    requires Remembers(outcomes, times, calls) && call.RecordTime?
    ensures var more := times[call.url := At(times, call.url) + [Sample(call.now, call.duration)]];
            Remembers(outcomes, more, calls + [call])
  {
    var times' := times[call.url := At(times, call.url) + [Sample(call.now, call.duration)]];
    forall url ensures Recalls(outcomes, times', calls + [call], url) {
      assert Recalls(outcomes, times, calls, url);
      HistorySnoc(calls, call, url);
    }
  }

  lemma RemembersGet(outcomes: Outcomes, times: Times, outcomes': Outcomes, times': Times, calls: seq<Call>, call: Call)
    requires Remembers(outcomes, times, calls) && (call.GetCounts? || call.GetAverage?)
    requires forall u :: At(outcomes', u) == At(outcomes, u)
    requires forall u :: At(times', u) == At(times, u)
    ensures Remembers(outcomes', times', calls + [call])
  {
    forall url ensures Recalls(outcomes', times', calls + [call], url) {
      assert Recalls(outcomes, times, calls, url);
      HistorySnoc(calls, call, url);
    }
  }

  method Perform(m: Monitor, call: Call, ghost before: seq<Call>) returns (answer: Answer)
    requires m.Valid() && Remembers(m.outcomes, m.responseTimes, before) && call.now >= m.clock
    modifies m
    ensures m.Valid() && Remembers(m.outcomes, m.responseTimes, before + [call]) && m.clock <= call.now
    ensures answer == Expected(before, call)
  {
    ghost var outcomes, times := m.outcomes, m.responseTimes;
    assert Recalls(outcomes, times, before, call.url);
    match call {
      case RecordOutcome(url, outcome, now) =>
        RemembersOutcome(outcomes, times, before, call);
        m.RecordOutcomeSample(url, outcome, now);
        answer := Nothing;
      case RecordTime(url, duration, now) =>
        RemembersTime(outcomes, times, before, call);
        m.RecordResponseTimeSample(url, duration, now);
        answer := Nothing;
      case GetCounts(url, now) =>
        var successes, failures := m.GetRecentOutcomeCounts(url, now);
        RemembersGet(outcomes, times, m.outcomes, m.responseTimes, before, call);
        answer := Counts(successes, failures);
      case GetAverage(url, now) =>
        var average, ok := m.GetAvgResponseTime(url, now);
        RemembersGet(outcomes, times, m.outcomes, m.responseTimes, before, call);
        answer := Average(average, ok);
    }
  }

  /**
    For every sequence of calls, cancellations among them, each answer is the one that filtering all that
    was recorded before to the last thirty seconds gives.
   */
  method Replay(calls: seq<Call>, start: int) returns (answers: seq<Answer>)
    requires InTime(calls, start)
    ensures |answers| == |calls|
    ensures forall k | 0 <= k < |calls| :: answers[k] == Expected(calls[..k], calls[k])
  {
    var m := new Monitor(start);
    answers := [];
    for i := 0 to |calls|
      invariant m.Valid() && Remembers(m.outcomes, m.responseTimes, calls[..i]) && fresh(m)
      invariant m.clock <= if i == 0 then start else calls[i - 1].now
      invariant |answers| == i && forall k | 0 <= k < i :: answers[k] == Expected(calls[..k], calls[k])
    {
      var answer := Perform(m, calls[i], calls[..i]);
      assert calls[..i + 1] == calls[..i] + [calls[i]];
      answers := answers + [answer];
    }
  }
}
