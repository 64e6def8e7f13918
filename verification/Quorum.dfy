/**
  The quorum bookkeeping of submitter/quorum.go as values, and the policy it stands for:
  a set of logs either satisfies a request or it does not.
 */
module Quorum {
  import opened Logs
  import opened Finite

  /** The fields of `quorumState`. */
  datatype Quorum = Quorum(
    indices: seq<nat>,
    responses: seq<Response>,
    scts: seq<Sct>,
    operators: set<string>,
    hasRFC6962: bool,
    hasStatic: bool)

  const EMPTY := Quorum([], [], [], {}, false, false)

  ghost predicate InRange(logs: seq<Log>, ids: set<nat>) {
    forall i | i in ids :: i < |logs|
  }

  ghost function Operators(logs: seq<Log>, ids: set<nat>): set<string>
    requires InRange(logs, ids)
  {
    set i | i in ids :: logs[i].operator
  }

  ghost predicate HasType(logs: seq<Log>, ids: set<nat>, t: LogType)
    requires InRange(logs, ids)
  {
    exists i | i in ids :: logs[i].logType == t
  }

  /** The policy: SCTs from all of `ids` would be a quorum for the request. */
  ghost predicate Satisfies(logs: seq<Log>, ids: set<nat>, sr: Request)
    requires InRange(logs, ids)
  {
    && |ids| >= sr.scts
    && |Operators(logs, ids)| >= sr.operators
    && (sr.requireRFC6962 ==> HasType(logs, ids, RFC6962))
  }

  function Elements(order: seq<nat>): set<nat> {
    set i | i in order
  }

  function Indices(q: Quorum): set<nat> {
    Elements(q.indices)
  }

  ghost predicate Distinct(s: seq<nat>) {
    forall j, k | 0 <= j < k < |s| :: s[j] != s[k]
  }

  lemma {:induction false} DistinctSize(s: seq<nat>)
    requires Distinct(s)
    ensures |Elements(s)| == |s|
  {
    if s != [] {
      LastElement(s);
      DistinctSize(s[..|s| - 1]);
    }
  }

  lemma LastElement(order: seq<nat>)
    requires order != []
    ensures Elements(order) == Elements(order[..|order| - 1]) + {order[|order| - 1]}
  {
    var init, last := order[..|order| - 1], order[|order| - 1];
    assert order == init + [last];
  }

  /** The state describes distinct logs, and its summary fields agree with them. */
  ghost predicate Valid(q: Quorum, logs: seq<Log>) {
    && Distinct(q.indices)
    && |q.indices| == |q.responses| == |q.scts| == |Indices(q)|
    && InRange(logs, Indices(q))
    && q.operators == Operators(logs, Indices(q))
    && (q.hasRFC6962 <==> HasType(logs, Indices(q), RFC6962))
    && (q.hasStatic <==> HasType(logs, Indices(q), Static))
  }

  function AddSuccess(q: Quorum, logs: seq<Log>, i: nat, r: Response, s: Sct): Quorum
    requires i < |logs|
  {
    Quorum(
      q.indices + [i], q.responses + [r], q.scts + [s],
      q.operators + {logs[i].operator},
      q.hasRFC6962 || logs[i].logType == RFC6962,
      q.hasStatic || logs[i].logType == Static)
  }

  predicate IsQuorumMet(q: Quorum, sr: Request) {
    && |q.responses| >= sr.scts
    && |q.operators| >= sr.operators
    && (sr.requireRFC6962 ==> q.hasRFC6962)
  }

  predicate HelpsQuorum(q: Quorum, sr: Request, log: Log) {
    || |q.responses| < sr.scts
    || (|q.operators| < sr.operators && log.operator !in q.operators)
    || (sr.requireRFC6962 && !q.hasRFC6962 && log.logType == RFC6962)
    || (sr.preferStatic && !q.hasStatic && log.logType == Static)
  }

  /** `HelpsQuorum` with every normal in-flight log counted as if it had already succeeded. */
  ghost predicate WouldHelp(q: Quorum, sr: Request, log: Log, logs: seq<Log>, inFlight: set<nat>)
    requires InRange(logs, inFlight)
  {
    var operators := q.operators + Operators(logs, inFlight);
    || |q.responses| + |inFlight| < sr.scts
    || (|operators| < sr.operators && log.operator !in operators)
    || (sr.requireRFC6962 && !q.hasRFC6962 && !HasType(logs, inFlight, RFC6962) && log.logType == RFC6962)
    || (sr.preferStatic && !q.hasStatic && !HasType(logs, inFlight, Static) && log.logType == Static)
  }

  // ---- The summary fields mean what they say ----

  lemma AddOperator(logs: seq<Log>, ids: set<nat>, i: nat)
    requires InRange(logs, ids) && i < |logs|
    ensures Operators(logs, ids + {i}) == Operators(logs, ids) + {logs[i].operator}
  {
  }

  lemma AddType(logs: seq<Log>, ids: set<nat>, i: nat)
    requires InRange(logs, ids) && i < |logs|
    ensures forall t :: HasType(logs, ids + {i}, t) <==> HasType(logs, ids, t) || logs[i].logType == t
  {
    forall t ensures HasType(logs, ids + {i}, t) <==> HasType(logs, ids, t) || logs[i].logType == t {
      assert i in ids + {i};
      if HasType(logs, ids, t) {
        var j :| j in ids && logs[j].logType == t;
        assert j in ids + {i};
      }
    }
  }

  lemma GrowKeepsTypes(e: seq<Log>, a: set<nat>, b: set<nat>)
    requires InRange(e, b) && a <= b
    ensures forall t :: HasType(e, a, t) ==> HasType(e, b, t)
  {
  }

  // ---- Rebuilding the lists ----

  lemma AddSuccessValid(q: Quorum, logs: seq<Log>, i: nat, r: Response, s: Sct)
    requires Valid(q, logs) && i < |logs| && i !in Indices(q)
    ensures Valid(AddSuccess(q, logs, i, r, s), logs)
    ensures Indices(AddSuccess(q, logs, i, r, s)) == Indices(q) + {i}
  {
    assert Indices(AddSuccess(q, logs, i, r, s)) == Indices(q) + {i};
    AddOperator(logs, Indices(q), i);
    AddType(logs, Indices(q), i);
  }

  /** The quorum test on the running totals is the policy on the logs behind them. */
  lemma QuorumMetIsPolicy(q: Quorum, logs: seq<Log>, sr: Request)
    requires Valid(q, logs)
    ensures IsQuorumMet(q, sr) <==> Satisfies(logs, Indices(q), sr)
  {
  }

  /** More logs never break the policy. */
  lemma SatisfiesMonotone(logs: seq<Log>, a: set<nat>, b: set<nat>, sr: Request)
    requires InRange(logs, b) && a <= b && Satisfies(logs, a, sr)
    ensures Satisfies(logs, b, sr)
  {
    SubsetSize(a, b);
    SubsetSize(Operators(logs, a), Operators(logs, b));
  }

  /** A log that does not help now does not help in any later, larger state. */
  lemma HelpsAntitone(q: Quorum, q': Quorum, logs: seq<Log>, sr: Request, log: Log)
    requires Valid(q, logs) && Valid(q', logs) && Indices(q) <= Indices(q')
    ensures HelpsQuorum(q', sr, log) ==> HelpsQuorum(q, sr, log)
  {
    SubsetSize(Indices(q), Indices(q'));
    assert q.operators <= q'.operators;
    SubsetSize(q.operators, q'.operators);
  }

  /** When quorum is not met, logs that do not help cannot close the gap, however many there are. */
  lemma UnhelpfulCannotComplete(q: Quorum, logs: seq<Log>, sr: Request, others: set<nat>)
    requires Valid(q, logs) && !IsQuorumMet(q, sr)
    requires InRange(logs, others)
    requires forall i | i in others :: i in Indices(q) || !HelpsQuorum(q, sr, logs[i])
    ensures !Satisfies(logs, Indices(q) + others, sr)
  {
    var all := Indices(q) + others;
    if |q.responses| < sr.scts {
      assert others <= Indices(q);
      assert all == Indices(q);
    } else if |q.operators| < sr.operators {
      forall i | i in all ensures logs[i].operator in q.operators {}
      SubsetSize(Operators(logs, all), q.operators);
    } else {
      forall i | i in all ensures logs[i].logType != RFC6962 {}
    }
  }

  // ---- wouldHelp is helpsQuorum after the in-flight logs succeed ----

  /** The state after the logs in `order` have succeeded, one after the other. */
  function AddAll(q: Quorum, logs: seq<Log>, order: seq<nat>, reply: nat -> (Response, Sct)): Quorum
    requires forall k | 0 <= k < |order| :: order[k] < |logs|
  {
    if order == [] then q
    else
      var i := order[|order| - 1];
      AddSuccess(AddAll(q, logs, order[..|order| - 1], reply), logs, i, reply(i).0, reply(i).1)
  }

  lemma {:induction false} AddAllTotals(q: Quorum, logs: seq<Log>, order: seq<nat>, reply: nat -> (Response, Sct))
    requires InRange(logs, Elements(order))
    ensures forall k | 0 <= k < |order| :: order[k] < |logs|
    ensures var q' := AddAll(q, logs, order, reply);
            && |q'.responses| == |q.responses| + |order|
            && q'.operators == q.operators + Operators(logs, Elements(order))
            && (q'.hasRFC6962 <==> q.hasRFC6962 || HasType(logs, Elements(order), RFC6962))
            && (q'.hasStatic <==> q.hasStatic || HasType(logs, Elements(order), Static))
  {
    forall k | 0 <= k < |order| ensures order[k] < |logs| {
      assert order[k] in Elements(order);
    }
    if order != [] {
      var init, last := order[..|order| - 1], order[|order| - 1];
      LastElement(order);
      AddAllTotals(q, logs, init, reply);
      AddOperator(logs, Elements(init), last);
      AddType(logs, Elements(init), last);
    }
  }

  /**
    `wouldHelp` never has to pick an order: it is `helpsQuorum` on the state reached by
    letting every in-flight log succeed, in whatever order and with whatever replies.
   */
  lemma WouldHelpIsHelpsLater(
      q: Quorum, sr: Request, log: Log, logs: seq<Log>, inFlight: set<nat>, order: seq<nat>, reply: nat -> (Response,
          Sct))
    requires InRange(logs, inFlight)
    requires Elements(order) == inFlight && |order| == |inFlight|
    ensures forall k | 0 <= k < |order| :: order[k] < |logs|
    ensures WouldHelp(q, sr, log, logs, inFlight) <==> HelpsQuorum(AddAll(q, logs, order, reply), sr, log)
  {
    AddAllTotals(q, logs, order, reply);
  }

  /** Counting slow submissions as successes too, as the documentation has it, would never help more logs. */
  lemma SlowCountedHelpsLess(q: Quorum, sr: Request, log: Log, logs: seq<Log>, normal: set<nat>, slow: set<nat>)
    requires InRange(logs, normal + slow)
    ensures WouldHelp(q, sr, log, logs, normal + slow) ==> WouldHelp(q, sr, log, logs, normal)
    ensures slow <= normal ==> (WouldHelp(q, sr, log, logs, normal + slow) <==> WouldHelp(q, sr, log, logs, normal))
  {
    SubsetSize(normal, normal + slow);
    var fewer, more := q.operators + Operators(logs, normal), q.operators + Operators(logs, normal + slow);
    assert fewer <= more;
    SubsetSize(fewer, more);
    GrowKeepsTypes(logs, normal, normal + slow);
    if slow <= normal {
      assert normal + slow == normal;
    }
  }

  /** With the one log asked for past its threshold, the code tries another; counting it as a success would not. */
  lemma SlowCountedMayHelpLess()
    ensures var sr := Request(false, false, 1, 1, false, false);
            var logs := [Log("a", "A", Static, Neutral), Log("b", "B", Static, Neutral)];
            && InRange(logs, {0}) && WouldHelp(EMPTY, sr, logs[1], logs, {})
            && !WouldHelp(EMPTY, sr, logs[1], logs, {} + {0})
  {
    var logs := [Log("a", "A", Static, Neutral), Log("b", "B", Static, Neutral)];
    assert logs[0].operator in Operators(logs, {0});
    SubsetSize({"A"}, Operators(logs, {0}));
    assert EMPTY.operators + Operators(logs, {0}) == Operators(logs, {0});
    assert {} + {0} == {0};
  }

  // ---- The failure message ----

  datatype Reason = NeedScts(want: int, got: int) | NeedOperators(want: int, got: int) | NeedRFC6962

  /** The reasons are exactly the unmet requirements. */
  ghost predicate Explains(reasons: seq<Reason>, q: Quorum, sr: Request) {
    forall r :: r in reasons <==>
      || (r == NeedScts(sr.scts, |q.responses|) && |q.responses| < sr.scts)
      || (r == NeedOperators(sr.operators, |q.operators|) && |q.operators| < sr.operators)
      || (r == NeedRFC6962 && sr.requireRFC6962 && !q.hasRFC6962)
  }

  /** The message names exactly the unmet requirements, so it is never empty when quorum is missed. */
  method QuorumFailureReason(q: Quorum, sr: Request) returns (reasons: seq<Reason>)
    ensures Explains(reasons, q, sr)
    ensures reasons == [] <==> IsQuorumMet(q, sr)
    ensures |reasons| <= 3
  {
    reasons := [];
    if |q.responses| < sr.scts {
      reasons := reasons + [NeedScts(sr.scts, |q.responses|)];
    }
    if |q.operators| < sr.operators {
      reasons := reasons + [NeedOperators(sr.operators, |q.operators|)];
    }
    if sr.requireRFC6962 && !q.hasRFC6962 {
      reasons := reasons + [NeedRFC6962];
    }
  }
}
