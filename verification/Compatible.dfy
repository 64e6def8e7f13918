/** Which logs of a log list can take a submission, and whether there are enough of them. */
module Compatible {
  import opened Logs

  datatype Interval = Interval(start: int, end: int)

  /** The state of a listed log: when it became Usable, and whether it has left that state. */
  datatype State = State(usable: Option<int>, readOnly: bool, retired: bool, rejected: bool)

  datatype LogEntry = LogEntry(id: string, url: string, interval: Option<Interval>, state: Option<State>)

  /** An operator with its RFC 6962 logs and its tiled (static) logs. */
  datatype OperatorEntry = OperatorEntry(name: string, logs: seq<LogEntry>, tiled: seq<LogEntry>)

  /** The submission; `accepted` holds the log IDs and intervals for which its chain validates. */
  datatype Check = Check(sr: Request, now: int, notAfter: int, accepted: set<(string, Option<Interval>)>)

  datatype Verdict =
    | Enough(operators: seq<OperatorEntry>)
    | Expired
    | BadLogId
    | TooFewOperators(required: int, found: nat)
    | TooFewSCTs(required: int, found: nat)

  const ID_LENGTH := 32

  /** The log that takes expired certificates only. */
  const DAEDALUS: string := ['\U{1d}', '\U{02}', '\U{4b}', '\U{8e}', '\U{b1}', '\U{49}', '\U{8b}', '\U{34}',
                             '\U{4d}', '\U{fd}', '\U{87}', '\U{ea}', '\U{3e}', '\U{fc}', '\U{09}', '\U{96}',
                             '\U{f7}', '\U{50}', '\U{6f}', '\U{23}', '\U{5d}', '\U{1d}', '\U{49}', '\U{70}',
                             '\U{61}', '\U{a4}', '\U{77}', '\U{3c}', '\U{43}', '\U{9c}', '\U{25}', '\U{fb}']

  predicate NeedsUsable(c: Check) {
    c.sr.policyCompliant && !c.sr.testLogs
  }

  ghost predicate UsableNow(e: LogEntry, now: int) {
    && e.state.Some? && e.state.value.usable.Some? && e.state.value.usable.value <= now
    && !e.state.value.readOnly && !e.state.value.retired && !e.state.value.rejected
  }

  /** The log may take the submission. */
  ghost predicate Fits(c: Check, e: LogEntry, tiled: bool) {
    && (!tiled && e.id == DAEDALUS ==> c.now >= c.notAfter)
    && (NeedsUsable(c) ==> UsableNow(e, c.now))
    && (e.id, e.interval) in c.accepted
  }

  ghost function KeptLogs(c: Check, es: seq<LogEntry>, tiled: bool): seq<LogEntry> {
    if es == [] then []
    else
      var last := es[|es| - 1];
      KeptLogs(c, es[..|es| - 1], tiled) + if Fits(c, last, tiled) then [last] else []
  }

  ghost function KeptOperator(c: Check, op: OperatorEntry): OperatorEntry {
    OperatorEntry(op.name, KeptLogs(c, op.logs, false), KeptLogs(c, op.tiled, true))
  }

  function Bare(op: OperatorEntry): bool {
    |op.logs| == 0 && |op.tiled| == 0
  }

  /** The list without the logs that do not fit and the operators left bare. */
  ghost function Kept(c: Check, ops: seq<OperatorEntry>): seq<OperatorEntry> {
    if ops == [] then []
    else
      var last := KeptOperator(c, ops[|ops| - 1]);
      Kept(c, ops[..|ops| - 1]) + if Bare(last) then [] else [last]
  }

  ghost function Total(ops: seq<OperatorEntry>): nat {
    if ops == [] then 0
    else Total(ops[..|ops| - 1]) + |ops[|ops| - 1].logs| + |ops[|ops| - 1].tiled|
  }

  ghost predicate WellFormedIds(ops: seq<OperatorEntry>) {
    forall k | 0 <= k < |ops| :: IdsOk(ops[k].logs) && IdsOk(ops[k].tiled)
  }

  ghost predicate IdsOk(es: seq<LogEntry>) {
    forall j | 0 <= j < |es| :: |es[j].id| == ID_LENGTH
  }

  // ---- What is kept ----

  lemma {:induction false} KeptLogsExact(c: Check, es: seq<LogEntry>, tiled: bool, e: LogEntry)
    ensures e in KeptLogs(c, es, tiled) <==> e in es && Fits(c, e, tiled)
  {
    if es != [] {
      KeptLogsExact(c, es[..|es| - 1], tiled, e);
      assert e in es <==> e in es[..|es| - 1] || e == es[|es| - 1];
    }
  }

  /** The operator called `name` lists the log. */
  ghost predicate Offers(ops: seq<OperatorEntry>, name: string, e: LogEntry, tiled: bool) {
    exists k :: 0 <= k < |ops| && Lists(ops[k], name, e, tiled)
  }

  ghost predicate Lists(op: OperatorEntry, name: string, e: LogEntry, tiled: bool) {
    op.name == name && e in if tiled then op.tiled else op.logs
  }

  lemma OffersSnoc(ops: seq<OperatorEntry>, op: OperatorEntry, name: string, e: LogEntry, tiled: bool)
    ensures Offers(ops + [op], name, e, tiled) <==> Offers(ops, name, e, tiled) || Lists(op, name, e, tiled)
  {
    var all := ops + [op];
    if Offers(ops, name, e, tiled) {
      var k :| 0 <= k < |ops| && Lists(ops[k], name, e, tiled);
      assert all[k] == ops[k];
    }
    if Lists(op, name, e, tiled) {
      assert all[|ops|] == op;
    }
  }

  /** Filtering keeps exactly the logs that fit, each with its operator and its type. */
  lemma {:induction false} KeptOffers(c: Check, ops: seq<OperatorEntry>, name: string, e: LogEntry, tiled: bool)
    ensures Offers(Kept(c, ops), name, e, tiled) <==> Offers(ops, name, e, tiled) && Fits(c, e, tiled)
  {
    if ops != [] {
      var init, last := ops[..|ops| - 1], ops[|ops| - 1];
      KeptOffers(c, init, name, e, tiled);
      KeptLogsExact(c, if tiled then last.tiled else last.logs, tiled, e);
      assert ops == init + [last];
      OffersSnoc(init, last, name, e, tiled);
      OffersSnoc(Kept(c, init), KeptOperator(c, last), name, e, tiled);
      assert Kept(c, init) + [] == Kept(c, init);
    }
  }

  /** The same, field by field: what makes a listed log one that the submission may go to. */
  lemma KeptInFields(c: Check, ops: seq<OperatorEntry>, name: string, e: LogEntry, tiled: bool)
    ensures Offers(Kept(c, ops), name, e, tiled) <==>
          && Offers(ops, name, e, tiled) && (e.id, e.interval) in c.accepted
          && (!tiled && e.id == DAEDALUS ==> c.notAfter <= c.now)
          && (c.sr.policyCompliant && !c.sr.testLogs ==>
                && e.state.Some? && e.state.value.usable.Some? && e.state.value.usable.value <= c.now
                && !e.state.value.readOnly && !e.state.value.retired && !e.state.value.rejected)
  {
    KeptOffers(c, ops, name, e, tiled);
  }

  ghost predicate DistinctNames(ops: seq<OperatorEntry>) {
    forall j, k | 0 <= j < k < |ops| :: ops[j].name != ops[k].name
  }

  ghost predicate NoneBare(ops: seq<OperatorEntry>) {
    forall k | 0 <= k < |ops| :: !Bare(ops[k])
  }

  /** Operators keep distinct names, and none is left without logs. */
  lemma {:induction false} KeptNames(c: Check, ops: seq<OperatorEntry>)
    requires DistinctNames(ops)
    ensures DistinctNames(Kept(c, ops)) && NoneBare(Kept(c, ops))
    ensures forall k | 0 <= k < |Kept(c, ops)| :: exists j :: 0 <= j < |ops| && ops[j].name == Kept(c, ops)[k].name
  {
    if ops != [] {
      var init := ops[..|ops| - 1];
      KeptNames(c, init);
      forall k | 0 <= k < |Kept(c, ops)| ensures exists j :: 0 <= j < |ops| && ops[j].name == Kept(c, ops)[k].name {
        if k < |Kept(c, init)| {
          var j :| 0 <= j < |init| && init[j].name == Kept(c, init)[k].name;
          assert ops[j].name == Kept(c, ops)[k].name;
        } else {
          assert ops[|ops| - 1].name == Kept(c, ops)[k].name;
        }
      }
    }
  }

  lemma {:induction false} KeptLogsAll(c: Check, es: seq<LogEntry>, tiled: bool)
    requires forall k | 0 <= k < |es| :: Fits(c, es[k], tiled)
    ensures KeptLogs(c, es, tiled) == es
  {
    if es != [] {
      KeptLogsAll(c, es[..|es| - 1], tiled);
    }
  }

  ghost predicate AllFit(c: Check, op: OperatorEntry) {
    && (forall k | 0 <= k < |op.logs| :: Fits(c, op.logs[k], false))
    && (forall k | 0 <= k < |op.tiled| :: Fits(c, op.tiled[k], true))
  }

  lemma KeptOperatorAll(c: Check, op: OperatorEntry)
    requires AllFit(c, op)
    ensures KeptOperator(c, op) == op
  {
    KeptLogsAll(c, op.logs, false);
    KeptLogsAll(c, op.tiled, true);
  }

  /** A list of logs that all fit is kept as it is. */
  lemma {:induction false} KeptAll(c: Check, ops: seq<OperatorEntry>)
    requires NoneBare(ops) && forall k | 0 <= k < |ops| :: AllFit(c, ops[k])
    ensures Kept(c, ops) == ops
  {
    if ops != [] {
      var init, last := ops[..|ops| - 1], ops[|ops| - 1];
      KeptAll(c, init);
      KeptOperatorAll(c, last);
      assert ops == init + [last];
    }
  }

  // ---- The loops ----

  /** The tests of one log, in their order. */
  method FitsNow(c: Check, e: LogEntry, tiled: bool) returns (fits: bool)
    ensures fits == Fits(c, e, tiled)
  {
    if !tiled && e.id == DAEDALUS && c.now < c.notAfter { return false; }
    if NeedsUsable(c) {
      if e.state.None? || e.state.value.usable.None? || e.state.value.usable.value > c.now {
        return false;
      } else if e.state.value.readOnly || e.state.value.retired || e.state.value.rejected {
        return false;
      }
    }
    return (e.id, e.interval) in c.accepted;
  }

  lemma KeptLogsSnoc(c: Check, es: seq<LogEntry>, i: nat, tiled: bool)
    requires i < |es|
    ensures KeptLogs(c, es[..i + 1], tiled) ==
            KeptLogs(c, es[..i], tiled) + if Fits(c, es[i], tiled) then [es[i]] else []
    ensures IdsOk(es[..i + 1]) <==> IdsOk(es[..i]) && |es[i].id| == ID_LENGTH
  {
    assert es[..i + 1][..i] == es[..i] && es[..i + 1] == es[..i] + [es[i]];
  }

  method FilterLogs(c: Check, es: seq<LogEntry>, tiled: bool) returns (ok: bool, kept: seq<LogEntry>)
    ensures ok <==> IdsOk(es)
    ensures ok ==> kept == KeptLogs(c, es, tiled)
  {
    kept := [];
    for i := 0 to |es|
      invariant IdsOk(es[..i]) && kept == KeptLogs(c, es[..i], tiled)
    {
      KeptLogsSnoc(c, es, i, tiled);
      if |es[i].id| != ID_LENGTH { return false, []; }
      var fits := FitsNow(c, es[i], tiled);
      if fits {
        kept := kept + [es[i]];
      }
    }
    ok := true;
    assert es[..|es|] == es;
  }

  method FilterOperator(c: Check, op: OperatorEntry) returns (ok: bool, kept: OperatorEntry)
    ensures ok <==> IdsOk(op.logs) && IdsOk(op.tiled)
    ensures ok ==> kept == KeptOperator(c, op)
  {
    var logs, tiled;
    ok, logs := FilterLogs(c, op.logs, false);
    if !ok { return false, op; }
    ok, tiled := FilterLogs(c, op.tiled, true);
    kept := OperatorEntry(op.name, logs, tiled);
  }

  lemma KeptSnoc(c: Check, ops: seq<OperatorEntry>, i: nat)
    requires i < |ops|
    ensures var kept := KeptOperator(c, ops[i]);
            Kept(c, ops[..i + 1]) == Kept(c, ops[..i]) + if Bare(kept) then [] else [kept]
    ensures WellFormedIds(ops[..i + 1]) <==> WellFormedIds(ops[..i]) && IdsOk(ops[i].logs) && IdsOk(ops[i].tiled)
  {
    assert ops[..i + 1][..i] == ops[..i] && ops[..i + 1][i] == ops[i];
    assert forall k | 0 <= k < i :: ops[..i + 1][k] == ops[..i][k];
  }

  lemma TotalSnoc(ops: seq<OperatorEntry>, op: OperatorEntry)
    ensures Total(ops + [op]) == Total(ops) + |op.logs| + |op.tiled|
  {
    assert (ops + [op])[..|ops|] == ops;
  }

  lemma PrefixIds(ops: seq<OperatorEntry>, i: nat)
    requires i <= |ops|
    ensures WellFormedIds(ops) ==> WellFormedIds(ops[..i])
  {
    assert forall k | 0 <= k < i :: ops[..i][k] == ops[k];
  }

  /** The loop over the operators; it gives up at the first malformed log ID. */
  method FilterOperators(c: Check, ops: seq<OperatorEntry>) returns (ok: bool, final: seq<OperatorEntry>, total: nat)
    ensures ok <==> WellFormedIds(ops)
    ensures ok ==> final == Kept(c, ops) && total == Total(final)
  {
    final, total := [], 0;
    for i := 0 to |ops|
      invariant WellFormedIds(ops[..i])
      invariant final == Kept(c, ops[..i]) && total == Total(final)
    {
      KeptSnoc(c, ops, i);
      var kept;
      ok, kept := FilterOperator(c, ops[i]);
      PrefixIds(ops, i + 1);
      if !ok { return; }
      if |kept.logs| > 0 || |kept.tiled| > 0 {
        TotalSnoc(final, kept);
        final := final + [kept];
      }
      total := total + |kept.logs| + |kept.tiled|;
    }
    ok := true;
    assert ops[..|ops|] == ops;
  }

  /** The list is accepted for the submission. */
  ghost predicate Suffices(c: Check, ops: seq<OperatorEntry>) {
    && !(NeedsUsable(c) && c.now > c.notAfter) && WellFormedIds(ops)
    && |Kept(c, ops)| >= c.sr.operators && Total(Kept(c, ops)) >= c.sr.scts
  }

  /** A list of enough logs and operators that all fit is accepted as it is. */
  lemma AllFitSuffices(c: Check, ops: seq<OperatorEntry>)
    requires !NeedsUsable(c) && WellFormedIds(ops) && NoneBare(ops) && forall k | 0 <= k < |ops| :: AllFit(c, ops[k])
    requires |ops| >= c.sr.operators && Total(ops) >= c.sr.scts
    ensures Suffices(c, ops) && Kept(c, ops) == ops
  {
    KeptAll(c, ops);
  }

  /**
    `determineCompatibleLogs`, from the temporally compatible list on: keep the logs that fit, then
    check that they and their operators suffice.
   */
  method DetermineCompatibleLogs(c: Check, ops: seq<OperatorEntry>) returns (v: Verdict)
    ensures v.Enough? <==> Suffices(c, ops)
    ensures v.Expired? <==> NeedsUsable(c) && c.now > c.notAfter
    ensures v.BadLogId? <==> !(NeedsUsable(c) && c.now > c.notAfter) && !WellFormedIds(ops)
    ensures v.Enough? || v.TooFewOperators? || v.TooFewSCTs? ==>
              var kept := Kept(c, ops);
              v == (if |kept| < c.sr.operators then TooFewOperators(c.sr.operators, |kept|)
                    else if Total(kept) < c.sr.scts then TooFewSCTs(c.sr.scts, Total(kept))
                    else Enough(kept))
  {
    if NeedsUsable(c) && c.now > c.notAfter { return Expired; }
    var ok, final, total := FilterOperators(c, ops);
    if !ok { return BadLogId; }
    if |final| < c.sr.operators {
      return TooFewOperators(c.sr.operators, |final|);
    } else if total < c.sr.scts {
      return TooFewSCTs(c.sr.scts, total);
    }
    return Enough(final);
  }
}
