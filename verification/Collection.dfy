/**
  What `submit` collects. The state after each success event is tied to the list of success
  events received so far, in arrival order.
 */
module Collection {
  import opened Logs
  import opened Finite
  import opened Q = Quorum
  import T = Trim
  import S = QuorumStates

  /** The logs of a list of events. */
  ghost function Senders(arrived: seq<Event>): set<nat> {
    set k: nat | k < |arrived| :: arrived[k].idx
  }

  /** The events whose log is in `ids`, in order. */
  ghost function FilterBy(arrived: seq<Event>, ids: set<nat>): seq<Event> {
    if arrived == [] then []
    else
      var n := |arrived| - 1;
      FilterBy(arrived[..n], ids) + if arrived[n].idx in ids then [arrived[n]] else []
  }

  /** The three aligned lists of the state, as the success events they came from. */
  ghost function Zip(q: Quorum): seq<Event>
    requires |q.indices| == |q.responses| == |q.scts|
  {
    ZipLists(q.indices, q.responses, q.scts)
  }

  ghost function ZipLists(indices: seq<nat>, responses: seq<Response>, scts: seq<Sct>): (z: seq<Event>)
    requires |indices| == |responses| == |scts|
    ensures |z| == |indices|
  {
    seq(|indices|, k requires 0 <= k < |indices| => Success(indices[k], responses[k], scts[k]))
  }

  ghost predicate DistinctSuccesses(arrived: seq<Event>) {
    && (forall k | 0 <= k < |arrived| :: arrived[k].Success?)
    && (forall j, k | 0 <= j < k < |arrived| :: arrived[j].idx != arrived[k].idx)
  }

  /** What is still missing: operators, and one wanted log type (two types cannot both be missing). */
  ghost function Missing(q: Quorum, sr: Request): nat {
    (if |q.operators| < sr.operators then sr.operators - |q.operators| else 0)
    + if (sr.requireRFC6962 && !q.hasRFC6962) || (sr.preferStatic && !q.hasStatic) then 1 else 0
  }

  /**
    The state holds exactly the accepted events, each with its own reply; every discarded
    success was and is unhelpful; and no more was accepted than could be missing.
   */
  ghost predicate Collected(logs: seq<Log>, sr: Request, q: Quorum, arrived: seq<Event>) {
    && Valid(q, logs)
    && Aligned(logs, q, arrived)
    && Unhelpful(logs, sr, q, arrived)
    && WithinBound(q, sr)
  }

  ghost predicate Aligned(logs: seq<Log>, q: Quorum, arrived: seq<Event>) {
    && DistinctSuccesses(arrived)
    && InRange(logs, Senders(arrived))
    && Indices(q) <= Senders(arrived)
    && |q.indices| == |q.responses| == |q.scts|
    && Zip(q) == FilterBy(arrived, Indices(q))
  }

  ghost predicate Unhelpful(logs: seq<Log>, sr: Request, q: Quorum, arrived: seq<Event>) {
    forall k | 0 <= k < |arrived| ::
        arrived[k].idx < |logs| && (arrived[k].idx in Indices(q) || !HelpsQuorum(q, sr, logs[arrived[k].idx]))
  }

  ghost predicate WithinBound(q: Quorum, sr: Request) {
    |q.indices| >= sr.scts ==> |q.indices| + Missing(q, sr) <= sr.scts + sr.operators
  }

  // ---- Filtering ----

  lemma {:induction false} FilterIgnoresOthers(arrived: seq<Event>, ids: set<nat>, i: nat)
    requires i !in Senders(arrived)
    ensures FilterBy(arrived, ids + {i}) == FilterBy(arrived, ids)
  {
    if arrived != [] {
      var n := |arrived| - 1;
      assert arrived[n].idx in Senders(arrived);
      assert Senders(arrived[..n]) <= Senders(arrived);
      FilterIgnoresOthers(arrived[..n], ids, i);
    }
  }

  lemma FilterSnoc(arrived: seq<Event>, e: Event, ids: set<nat>)
    ensures FilterBy(arrived + [e], ids) == FilterBy(arrived, ids) + if e.idx in ids then [e] else []
  {
    assert (arrived + [e])[..|arrived|] == arrived;
  }

  lemma {:induction false} FilterTwice(arrived: seq<Event>, ids: set<nat>, fewer: set<nat>)
    requires fewer <= ids
    ensures FilterBy(FilterBy(arrived, ids), fewer) == FilterBy(arrived, fewer)
  {
    if arrived != [] {
      var n := |arrived| - 1;
      FilterTwice(arrived[..n], ids, fewer);
      if arrived[n].idx in ids {
        FilterSnoc(FilterBy(arrived[..n], ids), arrived[n], fewer);
      } else {
        assert FilterBy(arrived, ids) == FilterBy(arrived[..n], ids);
      }
    }
  }

  lemma {:induction false} KeepZips(indices: seq<nat>, responses: seq<Response>, scts: seq<Sct>, c: set<nat>)
    requires |indices| == |responses| == |scts|
    ensures |T.Keep(indices, c)| == |T.Keep(responses, c)| == |T.Keep(scts, c)|
    ensures ZipLists(T.Keep(indices, c), T.Keep(responses, c), T.Keep(scts, c)) ==
          T.Keep(ZipLists(indices, responses, scts), c)
    decreases |indices|
  {
    if indices != [] {
      var n := |indices| - 1;
      KeepZips(indices[..n], responses[..n], scts[..n], c);
      assert ZipLists(indices, responses, scts)[..n] == ZipLists(indices[..n], responses[..n], scts[..n]);
    }
  }

  ghost function IdsAt(z: seq<Event>, c: set<nat>): set<nat> {
    set k | k in c && k < |z| :: z[k].idx
  }

  /** Keeping positions is filtering by the logs at those positions. */
  lemma {:induction false} KeepIsFilter(z: seq<Event>, c: set<nat>)
    requires forall j, k | 0 <= j < k < |z| :: z[j].idx != z[k].idx
    ensures T.Keep(z, c) == FilterBy(z, IdsAt(z, c))
  {
    if z != [] {
      var n := |z| - 1;
      var init := z[..n];
      KeepIsFilter(init, c);
      if n in c {
        assert IdsAt(z, c) == IdsAt(init, c) + {z[n].idx};
        assert z[n].idx !in Senders(init);
        FilterIgnoresOthers(init, IdsAt(init, c), z[n].idx);
      } else {
        assert IdsAt(z, c) == IdsAt(init, c);
        assert z[n].idx !in IdsAt(z, c);
      }
    }
  }

  // ---- One success event ----

  lemma SendersSnoc(arrived: seq<Event>, e: Event)
    ensures Senders(arrived + [e]) == Senders(arrived) + {e.idx}
  {
    var all := arrived + [e];
    forall i | i in Senders(arrived) + {e.idx} ensures i in Senders(all) {
      if i in Senders(arrived) {
        var k: nat :| k < |arrived| && arrived[k].idx == i;
        assert all[k].idx == i;
      } else {
        assert all[|arrived|].idx == i;
      }
    }
  }

  /** A discarded success event. */
  lemma Discard(logs: seq<Log>, sr: Request, q: Quorum, arrived: seq<Event>, e: Event)
    requires Collected(logs, sr, q, arrived)
    requires e.Success? && e.idx < |logs| && e.idx !in Senders(arrived) && !HelpsQuorum(q, sr, logs[e.idx])
    ensures Collected(logs, sr, q, arrived + [e])
  {
    SendersSnoc(arrived, e);
    FilterSnoc(arrived, e, Indices(q));
    assert e.idx !in Indices(q);
    SnocDistinct(arrived, e);
  }

  lemma SnocDistinct(arrived: seq<Event>, e: Event)
    requires DistinctSuccesses(arrived) && e.Success? && e.idx !in Senders(arrived)
    ensures DistinctSuccesses(arrived + [e])
  {
    forall j | 0 <= j < |arrived| ensures arrived[j].idx != e.idx {
      assert arrived[j].idx in Senders(arrived);
    }
  }

  /** An accepted success event. */
  lemma Accept(logs: seq<Log>, sr: Request, q: Quorum, arrived: seq<Event>, e: Event)
    requires Collected(logs, sr, q, arrived) && 1 <= sr.operators <= sr.scts
    requires e.Success? && e.idx < |logs| && e.idx !in Senders(arrived) && HelpsQuorum(q, sr, logs[e.idx])
    ensures Collected(logs, sr, AddSuccess(q, logs, e.idx, e.response, e.sct), arrived + [e])
  {
    AcceptAligned(logs, q, arrived, e);
    AcceptHelp(logs, sr, q, arrived, e);
  }

  lemma AcceptHelp(logs: seq<Log>, sr: Request, q: Quorum, arrived: seq<Event>, e: Event)
    requires Valid(q, logs) && Unhelpful(logs, sr, q, arrived) && WithinBound(q, sr) && 1 <= sr.operators <= sr.scts
    requires e.Success? && e.idx < |logs| && e.idx !in Indices(q) && HelpsQuorum(q, sr, logs[e.idx])
    ensures var q' := AddSuccess(q, logs, e.idx, e.response, e.sct);
            Valid(q', logs) && Unhelpful(logs, sr, q', arrived + [e]) && WithinBound(q', sr)
  {
    var q' := AddSuccess(q, logs, e.idx, e.response, e.sct);
    AddSuccessValid(q, logs, e.idx, e.response, e.sct);
    AcceptKeepsUnhelpful(logs, sr, q, q', arrived);
    UnhelpfulSnoc(logs, sr, q', arrived, e);
    AcceptStaysBounded(logs, sr, q, e);
  }

  lemma UnhelpfulSnoc(logs: seq<Log>, sr: Request, q: Quorum, arrived: seq<Event>, e: Event)
    requires Unhelpful(logs, sr, q, arrived) && e.idx < |logs| && e.idx in Indices(q)
    ensures Unhelpful(logs, sr, q, arrived + [e])
  {
  }

  lemma AcceptStaysBounded(logs: seq<Log>, sr: Request, q: Quorum, e: Event)
    requires Valid(q, logs) && WithinBound(q, sr) && 1 <= sr.operators <= sr.scts
    requires e.Success? && e.idx < |logs| && HelpsQuorum(q, sr, logs[e.idx])
    ensures WithinBound(AddSuccess(q, logs, e.idx, e.response, e.sct), sr)
  {
    SomethingCollected(q, logs);
    AcceptBound(logs, sr, q, e);
  }

  lemma AcceptAligned(logs: seq<Log>, q: Quorum, arrived: seq<Event>, e: Event)
    requires Aligned(logs, q, arrived)
    requires e.Success? && e.idx < |logs| && e.idx !in Senders(arrived)
    ensures Aligned(logs, AddSuccess(q, logs, e.idx, e.response, e.sct), arrived + [e])
  {
    var q' := AddSuccess(q, logs, e.idx, e.response, e.sct);
    LastElement(q'.indices);
    assert q'.indices[..|q.indices|] == q.indices;
    assert Indices(q') == Indices(q) + {e.idx};
    SnocDistinct(arrived, e);
    SendersSnoc(arrived, e);
    assert Zip(q') == Zip(q) + [e];
    FilterSnoc(arrived, e, Indices(q'));
    FilterIgnoresOthers(arrived, Indices(q), e.idx);
  }

  lemma AcceptKeepsUnhelpful(logs: seq<Log>, sr: Request, q: Quorum, q': Quorum, arrived: seq<Event>)
    requires Valid(q, logs) && Valid(q', logs) && Indices(q) <= Indices(q')
    requires Unhelpful(logs, sr, q, arrived)
    ensures Unhelpful(logs, sr, q', arrived)
  {
    forall k | 0 <= k < |arrived| && arrived[k].idx !in Indices(q') ensures !HelpsQuorum(q', sr, logs[arrived[k].idx]) {
      HelpsAntitone(q, q', logs, sr, logs[arrived[k].idx]);
    }
  }

  lemma SomethingCollected(q: Quorum, logs: seq<Log>)
    requires Valid(q, logs)
    ensures |q.indices| == |q.responses|
    ensures q.indices != [] ==> |q.operators| >= 1 && (q.hasRFC6962 || q.hasStatic)
  {
    if q.indices != [] {
      var i := q.indices[0];
      assert i in Indices(q);
      assert logs[i].operator in q.operators;
      assert logs[i].logType == RFC6962 || logs[i].logType == Static;
    }
  }

  /** Beyond the requested count, every accepted success closes part of what is missing. */
  lemma AcceptBound(logs: seq<Log>, sr: Request, q: Quorum, e: Event)
    requires 1 <= sr.operators <= sr.scts && |q.indices| == |q.responses| && WithinBound(q, sr)
    requires q.indices != [] ==> |q.operators| >= 1 && (q.hasRFC6962 || q.hasStatic)
    requires e.Success? && e.idx < |logs| && HelpsQuorum(q, sr, logs[e.idx])
    ensures WithinBound(AddSuccess(q, logs, e.idx, e.response, e.sct), sr)
    ensures |q.indices| >= sr.scts ==> Missing(AddSuccess(q, logs, e.idx, e.response, e.sct), sr) < Missing(q, sr)
  {
    var q' := AddSuccess(q, logs, e.idx, e.response, e.sct);
    if logs[e.idx].operator in q.operators {
      assert q'.operators == q.operators;
    }
  }

  /** The collected state and the arrival list after an event. */
  function Absorbed(logs: seq<Log>, sr: Request, q: Quorum, e: Event): Quorum
    requires e.idx < |logs|
  {
    if e.Success? && HelpsQuorum(q, sr, logs[e.idx]) then AddSuccess(q, logs, e.idx, e.response, e.sct) else q
  }

  function Arrived(arrived: seq<Event>, e: Event): seq<Event> {
    if e.Success? then arrived + [e] else arrived
  }

  /** What the main loop has collected after these success events; the order decides. */
  ghost function Collect(logs: seq<Log>, sr: Request, arrived: seq<Event>): Quorum {
    if arrived == [] then EMPTY
    else
      var before, e := Collect(logs, sr, arrived[..|arrived| - 1]), arrived[|arrived| - 1];
      if e.idx < |logs| then Absorbed(logs, sr, before, e) else before
  }

  lemma CollectNext(logs: seq<Log>, sr: Request, arrived: seq<Event>, e: Event)
    requires e.idx < |logs|
    ensures Collect(logs, sr, Arrived(arrived, e)) == Absorbed(logs, sr, Collect(logs, sr, arrived), e)
  {
    assert (arrived + [e])[..|arrived|] == arrived;
  }

  lemma {:induction false} CollectFrom(logs: seq<Log>, sr: Request, arrived: seq<Event>)
    ensures Indices(Collect(logs, sr, arrived)) <= Senders(arrived)
  {
    if arrived != [] {
      var init, e := arrived[..|arrived| - 1], arrived[|arrived| - 1];
      CollectFrom(logs, sr, init);
      assert arrived == init + [e];
      SendersSnoc(init, e);
      if e.idx < |logs| { EventSets(logs, sr, Collect(logs, sr, init), init, e); }
    }
  }

  /** A success is among the collected ones exactly if it helped when it arrived. */
  lemma {:induction false} KeptIfItHelped(logs: seq<Log>, sr: Request, arrived: seq<Event>, k: nat)
    requires DistinctSuccesses(arrived) && k < |arrived| && forall j | 0 <= j < |arrived| :: arrived[j].idx < |logs|
    ensures arrived[k].idx in Indices(Collect(logs, sr, arrived)) <==>
            HelpsQuorum(Collect(logs, sr, arrived[..k]), sr, logs[arrived[k].idx])
  {
    var n := |arrived| - 1;
    var init, e := arrived[..n], arrived[n];
    EventSets(logs, sr, Collect(logs, sr, init), init, e);
    if k == n {
      CollectFrom(logs, sr, init);
      assert e.idx !in Senders(init);
    } else {
      KeptIfItHelped(logs, sr, init, k);
      assert init[..k] == arrived[..k] && init[k] == arrived[k];
    }
  }

  lemma CollectEvent(logs: seq<Log>, sr: Request, q: Quorum, arrived: seq<Event>, e: Event)
    requires Collected(logs, sr, q, arrived) && 1 <= sr.operators <= sr.scts
    requires e.idx < |logs| && e.idx !in Senders(arrived)
    ensures Collected(logs, sr, Absorbed(logs, sr, q, e), Arrived(arrived, e))
  {
    if e.Success? {
      if HelpsQuorum(q, sr, logs[e.idx]) {
        Accept(logs, sr, q, arrived, e);
      } else {
        Discard(logs, sr, q, arrived, e);
      }
    }
  }

  lemma EventSets(logs: seq<Log>, sr: Request, q: Quorum, arrived: seq<Event>, e: Event)
    requires e.idx < |logs|
    ensures Senders(Arrived(arrived, e)) == Senders(arrived) + if e.Success? then {e.idx} else {}
    ensures Indices(Absorbed(logs, sr, q, e)) ==
            Indices(q) + if e.Success? && HelpsQuorum(q, sr, logs[e.idx]) then {e.idx} else {}
  {
    if e.Success? {
      SendersSnoc(arrived, e);
      if HelpsQuorum(q, sr, logs[e.idx]) {
        LastElement(q.indices + [e.idx]);
        assert (q.indices + [e.idx])[..|q.indices|] == q.indices;
      }
    }
  }

  // ---- Consequences ----

  /** At most SCTs + operators responses are ever held. */
  lemma CollectionIsBounded(logs: seq<Log>, sr: Request, q: Quorum, arrived: seq<Event>)
    requires Collected(logs, sr, q, arrived) && 1 <= sr.operators
    ensures |q.responses| <= sr.scts + sr.operators
  {
  }

  /** Trimming keeps the lists aligned with the arrival order. */
  lemma TrimKeepsOrder(logs: seq<Log>, sr: Request, q: Quorum, arrived: seq<Event>)
    requires Collected(logs, sr, q, arrived)
    ensures var q' := T.TrimToQuorum(q, logs, sr);
            && |q'.indices| == |q'.responses| == |q'.scts|
            && Zip(q') == FilterBy(arrived, Indices(q'))
  {
    if |q.responses| > sr.scts {
      KeepKeepsOrder(q, arrived, T.Selection(T.Entries(q, logs), sr));
    }
  }

  lemma KeepKeepsOrder(q: Quorum, arrived: seq<Event>, c: set<nat>)
    requires |q.indices| == |q.responses| == |q.scts| && Distinct(q.indices) && Under(c, |q.indices|)
    requires Zip(q) == FilterBy(arrived, Indices(q))
    ensures var indices, responses, scts := T.Keep(q.indices, c), T.Keep(q.responses, c), T.Keep(q.scts, c);
            && |indices| == |responses| == |scts|
            && ZipLists(indices, responses, scts) == FilterBy(arrived, Elements(indices))
  {
    KeepZips(q.indices, q.responses, q.scts, c);
    KeepIsFilter(Zip(q), c);
    T.KeepElements(q.indices, c);
    assert IdsAt(Zip(q), c) == T.At(q.indices, c);
    forall i | i in T.At(q.indices, c) ensures i in Indices(q) {
      var k :| k in c && q.indices[k] == i;
    }
    FilterTwice(arrived, Indices(q), T.At(q.indices, c));
  }

  /** Trimming re-marks exactly the entries that it drops. */
  lemma {:induction false} DroppedAreMarked(outcome: seq<Outcome>, indices: seq<nat>, c: set<nat>, i: nat)
    requires forall k | 0 <= k < |indices| :: indices[k] < |outcome|
    requires Distinct(indices) && i < |outcome|
    ensures S.MarkDropped(outcome, indices, c)[i] ==
            if i in Elements(indices) && i !in Elements(T.Keep(indices, c)) then NotNeeded else outcome[i]
  {
    if indices != [] {
      var n := |indices| - 1;
      DroppedAreMarked(outcome, indices[..n], c, i);
      LastElement(indices);
      var kept := T.Keep(indices[..n], c);
      if n in c {
        LastElement(kept + [indices[n]]);
        assert (kept + [indices[n]])[..|kept|] == kept;
      }
      KeptAreElements(indices[..n], c);
      assert indices[n] !in Elements(indices[..n]);
    }
  }

  lemma {:induction false} KeptAreElements(s: seq<nat>, c: set<nat>)
    ensures Elements(T.Keep(s, c)) <= Elements(s)
  {
    if s != [] {
      var n := |s| - 1;
      KeptAreElements(s[..n], c);
      LastElement(s);
      forall i | i in Elements(T.Keep(s, c)) ensures i in Elements(T.Keep(s[..n], c)) || i == s[n] {
        assert i in T.Keep(s[..n], c) + if n in c then [s[n]] else [];
      }
    }
  }

  lemma TrimMarksDropped(outcome: seq<Outcome>, q: Quorum, logs: seq<Log>, sr: Request, i: nat)
    requires |outcome| == |logs| && Valid(q, logs) && i < |logs|
    requires forall k | 0 <= k < |q.indices| :: q.indices[k] < |logs|
    ensures S.TrimOutcomes(outcome, q, logs, sr)[i] ==
            if i in Indices(q) - Indices(T.TrimToQuorum(q, logs, sr)) then NotNeeded else outcome[i]
  {
    if |q.responses| > sr.scts {
      DroppedAreMarked(outcome, q.indices, T.Selection(T.Entries(q, logs), sr), i);
    }
  }
}
