/**
  Intersecting log lists. The lists hold references to log objects; intersecting narrows the
  objects of the first list in place, and the result refers to the same objects.
 */
module Intersect {
  import opened Logs
  import opened Compatible

  /** What intersecting narrows: since when a log is Usable, and which certificates it takes. */
  datatype Info = Info(usable: Option<int>, interval: Option<Interval>)

  class ListedLog {
    const id: string
    const url: string
    var usable: Option<int>
    var interval: Option<Interval>

    constructor (id: string, url: string, info: Info)
      ensures this.id == id && this.url == url && View() == info
    {
      this.id, this.url, this.usable, this.interval := id, url, info.usable, info.interval;
    }

    function View(): Info
      reads this
    {
      Info(usable, interval)
    }

    /** Take the later Usable time and the narrower interval, where both logs have them. */
    method Narrow(other: ListedLog)
      requires other != this
      modifies this
      ensures View() == Merge(old(View()), other.View())
    {
      if usable.Some? && other.usable.Some? && other.usable.value > usable.value {
        usable := other.usable;
      }
      if interval.Some? && other.interval.Some? {
        if other.interval.value.start > interval.value.start {
          interval := Some(interval.value.(start := other.interval.value.start));
        }
        if other.interval.value.end < interval.value.end {
          interval := Some(interval.value.(end := other.interval.value.end));
        }
      }
    }
  }

  /** An operator of a list, with its RFC 6962 logs and its tiled logs. */
  datatype Operator = Operator(name: string, logs: seq<ListedLog>, tiled: seq<ListedLog>)

  function Max(a: int, b: int): int { if a < b then b else a }

  function Min(a: int, b: int): int { if b < a then b else a }

  function Merge(a: Info, b: Info): Info {
    Info(
      if a.usable.Some? && b.usable.Some? then Some(Max(a.usable.value, b.usable.value)) else a.usable,
      if a.interval.Some? && b.interval.Some?
      then Some(Interval(Max(a.interval.value.start, b.interval.value.start), Min(a.interval.value.end,
          b.interval.value.end)))
      else a.interval)
  }

  predicate Bogus(url: string) {
    |url| >= 5 && (url[..5] == "bogus" || Bogus(url[1..]))
  }

  lemma {:induction false} ContainedIsBogus(before: string, after: string)
    ensures Bogus(before + "bogus" + after)
    decreases before
  {
    var url := before + "bogus" + after;
    if before == "" {
      assert url[..5] == "bogus";
    } else {
      ContainedIsBogus(before[1..], after);
      assert url[1..] == before[1..] + "bogus" + after;
    }
  }

  lemma {:induction false} PlaceOfBogus(url: string) returns (before: string, after: string)
    requires Bogus(url)
    ensures url == before + "bogus" + after
  {
    if url[..5] == "bogus" {
      before, after := "", url[5..];
    } else {
      before, after := PlaceOfBogus(url[1..]);
      before := [url[0]] + before;
    }
  }

  /** The recursive test finds the word wherever it occurs. */
  lemma BogusIsContained(url: string)
    ensures Bogus(url) <==> exists before, after :: url == before + "bogus" + after
  {
    if Bogus(url) {
      var before, after := PlaceOfBogus(url);
    }
    forall before, after | url == before + "bogus" + after ensures Bogus(url) {
      ContainedIsBogus(before, after);
    }
  }

  /** Tiled logs are not checked for test URLs. */
  predicate Skipped(o: ListedLog, tiled: bool) {
    !tiled && Bogus(o.url)
  }

  function Part(op: Operator, tiled: bool): seq<ListedLog> {
    if tiled then op.tiled else op.logs
  }

  ghost function Objects(logs: seq<ListedLog>): set<ListedLog> {
    set o | o in logs
  }

  ghost function Ids(logs: seq<ListedLog>): set<string> {
    set o | o in logs :: o.id
  }

  ghost function Footprint(op: Operator): set<ListedLog> {
    Objects(op.logs) + Objects(op.tiled)
  }

  /** All logs of one type in a list. */
  ghost function Members(ops: seq<Operator>, tiled: bool): set<ListedLog> {
    set k: nat, o | k < |ops| && o in Part(ops[k], tiled) :: o
  }

  ghost function MemberIds(ops: seq<Operator>, tiled: bool): set<string> {
    set o | o in Members(ops, tiled) :: o.id
  }

  ghost predicate NoDuplicates(logs: seq<ListedLog>) {
    forall j, k | 0 <= j < k < |logs| :: logs[j] != logs[k]
  }

  ghost predicate OperatorOk(op: Operator) {
    NoDuplicates(op.logs) && NoDuplicates(op.tiled) && Objects(op.logs) !! Objects(op.tiled)
  }

  /** Every log object is listed once. */
  ghost predicate ListOk(ops: seq<Operator>) {
    && (forall k | 0 <= k < |ops| :: OperatorOk(ops[k]))
    && (forall j, k | 0 <= j < k < |ops| :: Footprint(ops[j]) !! Footprint(ops[k]))
  }

  ghost predicate UniqueIds(ops: seq<Operator>, tiled: bool) {
    forall o, p | o in Members(ops, tiled) && p in Members(ops, tiled) && o.id == p.id :: o == p
  }

  /** `table` tells what the logs of one type in the list say about each log ID. */
  ghost predicate Describes(table: map<string, Info>, ops: seq<Operator>, tiled: bool)
    reads Members(ops, tiled)
  {
    && table.Keys == MemberIds(ops, tiled)
    && forall o | o in Members(ops, tiled) :: o.id in table && table[o.id] == o.View()
  }

  /** What an object says once it has been compared with the logs that have these IDs. */
  ghost function After(o: ListedLog, was: Info, ids: set<string>, table: map<string, Info>, tiled: bool): Info {
    if o.id in ids && o.id in table && !Skipped(o, tiled) then Merge(was, table[o.id]) else was
  }

  /** The objects hold what they held, narrowed by the logs with these IDs. */
  ghost predicate Narrowed(logs: seq<ListedLog>, was: map<ListedLog, Info>, ids: set<string>, table: map<string,
      Info>, tiled: bool)
    reads logs
  {
    forall k | 0 <= k < |logs| :: logs[k] in was && logs[k].View() == After(logs[k], was[logs[k]], ids, table, tiled)
  }

  /** The logs of one operator that are kept: those with one of the IDs. */
  ghost function Matching(logs1: seq<ListedLog>, ids: set<string>, tiled: bool): set<ListedLog> {
    set o | o in logs1 && o.id in ids && !Skipped(o, tiled)
  }

  ghost predicate Exactly(out: seq<ListedLog>, logs1: seq<ListedLog>, ids: set<string>, tiled: bool) {
    NoDuplicates(out) && Objects(out) == Matching(logs1, ids, tiled)
  }

  lemma ExactlyAdd(out: seq<ListedLog>, before: seq<ListedLog>, o: ListedLog, ids: set<string>, tiled: bool)
    requires Exactly(out, before, ids, tiled) && o !in before
    ensures Exactly(if o.id in ids && !Skipped(o, tiled) then out + [o] else out, before + [o], ids, tiled)
  {
    assert o !in Objects(out);
    ObjectsConcat(out, [o]);
    assert forall p :: p in before + [o] <==> p in before || p == o;
  }

  lemma ObjectsConcat(a: seq<ListedLog>, b: seq<ListedLog>)
    ensures Objects(a + b) == Objects(a) + Objects(b)
  {
  }

  // ---- The loops ----

  /** The innermost loop: narrow by the first log with the same ID, if there is one. */
  method Match(log1: ListedLog, logs2: seq<ListedLog>, tiled: bool, ghost table: map<string, Info>)
    returns (found: bool)
    requires log1 !in logs2
    requires forall o | o in logs2 :: o.id in table && table[o.id] == o.View()
    modifies log1
    ensures found <==> log1.id in Ids(logs2) && !Skipped(log1, tiled)
    ensures log1.View() == After(log1, old(log1.View()), Ids(logs2), table, tiled)
  {
    found := false;
    for i := 0 to |logs2|
      invariant !found && log1.View() == old(log1.View())
      invariant Skipped(log1, tiled) || forall j | 0 <= j < i :: logs2[j].id != log1.id
    {
      if log1.id == logs2[i].id && !Skipped(log1, tiled) {
        log1.Narrow(logs2[i]);
        assert logs2[i].id in Ids(logs2);
        return true;
      }
    }
  }

  /** The RFC 6962 logs of one operator against those of another. */
  method MatchAll(logs1: seq<ListedLog>, logs2: seq<ListedLog>, ghost was: map<ListedLog, Info>, ghost ids: set<string>,
      ghost table: map<string, Info>)
    returns (out: seq<ListedLog>)
    requires NoDuplicates(logs1) && Objects(logs1) !! Objects(logs2)
    requires forall o | o in logs2 :: o.id in table && table[o.id] == o.View()
    requires Ids(logs2) !! ids && Narrowed(logs1, was, ids, table, false)
    modifies logs1
    ensures Narrowed(logs1, was, ids + Ids(logs2), table, false)
    ensures Exactly(out, logs1, Ids(logs2), false)
  {
    out := [];
    for i := 0 to |logs1|
      invariant forall o | o in logs2 :: o.id in table && table[o.id] == o.View()
      invariant Narrowed(logs1[..i], was, ids + Ids(logs2), table, false)
      invariant Narrowed(logs1[i..], was, ids, table, false)
      invariant Exactly(out, logs1[..i], Ids(logs2), false)
    {
      var log1 := logs1[i];
      assert log1 in Objects(logs1) && logs1[i..][0] == log1;
      var found := Match(log1, logs2, false, table);
      assert logs1[..i + 1] == logs1[..i] + [log1] && logs1[i..] == [log1] + logs1[i + 1..];
      ExactlyAdd(out, logs1[..i], log1, Ids(logs2), false);
      if found {
        out := out + [log1];
      }
    }
    assert logs1[..|logs1|] == logs1;
  }

  /** The IDs met among the first operators. */
  ghost function IdsBefore(ops: seq<Operator>, j: nat, tiled: bool): set<string>
    requires j <= |ops|
  {
    set k: nat, o | k < j && o in Part(ops[k], tiled) :: o.id
  }

  lemma IdsBeforeNext(ops: seq<Operator>, j: nat, tiled: bool)
    requires j < |ops| && ListOk(ops) && UniqueIds(ops, tiled)
    ensures IdsBefore(ops, j + 1, tiled) == IdsBefore(ops, j, tiled) + Ids(Part(ops[j], tiled))
    ensures IdsBefore(ops, j, tiled) !! Ids(Part(ops[j], tiled))
  {
    forall id | id in IdsBefore(ops, j, tiled) ensures id !in Ids(Part(ops[j], tiled)) {
      var k: nat, o :| k < j && o in Part(ops[k], tiled) && o.id == id;
      forall p | p in Part(ops[j], tiled) ensures p.id != id {
        OtherOperator(ops, k, j, tiled, o, p);
        assert o in Members(ops, tiled) && p in Members(ops, tiled);
      }
    }
  }

  lemma OtherOperator(ops: seq<Operator>, k: nat, j: nat, tiled: bool, o: ListedLog, p: ListedLog)
    requires k < j < |ops| && ListOk(ops) && o in Part(ops[k], tiled) && p in Part(ops[j], tiled)
    ensures o != p
  {
    assert Footprint(ops[k]) !! Footprint(ops[j]);
    assert o in Footprint(ops[k]);
  }

  lemma IdsBeforeAll(ops: seq<Operator>, tiled: bool)
    ensures IdsBefore(ops, |ops|, tiled) == MemberIds(ops, tiled)
  {
    forall id | id in IdsBefore(ops, |ops|, tiled) ensures id in MemberIds(ops, tiled) {
      var k: nat, o :| k < |ops| && o in Part(ops[k], tiled) && o.id == id;
      assert o in Members(ops, tiled);
    }
  }

  lemma ExactlyMore(out: seq<ListedLog>, more: seq<ListedLog>, logs1: seq<ListedLog>, ids: set<string>,
      ids2: set<string>, tiled: bool)
    requires Exactly(out, logs1, ids, tiled) && Exactly(more, logs1, ids2, tiled) && ids !! ids2
    ensures Exactly(out + more, logs1, ids + ids2, tiled)
  {
    ObjectsConcat(out, more);
    forall j, k | 0 <= j < |out| && 0 <= k < |more| ensures out[j] != more[k] {
      assert out[j] in Objects(out) && more[k] in Objects(more);
    }
  }

  /** The RFC 6962 logs of one operator against the whole second list. */
  method MatchLogs(op1: Operator, ll2: seq<Operator>, ghost was: map<ListedLog, Info>, ghost table: map<string, Info>)
    returns (out: seq<ListedLog>)
    requires NoDuplicates(op1.logs) && ListOk(ll2) && UniqueIds(ll2, false)
    requires Objects(op1.logs) !! Members(ll2, false)
    requires Describes(table, ll2, false) && Narrowed(op1.logs, was, {}, table, false)
    modifies op1.logs
    ensures Describes(table, ll2, false)
    ensures Narrowed(op1.logs, was, MemberIds(ll2, false), table, false)
    ensures Exactly(out, op1.logs, MemberIds(ll2, false), false)
  {
    out := [];
    for j := 0 to |ll2|
      invariant Describes(table, ll2, false)
      invariant Narrowed(op1.logs, was, IdsBefore(ll2, j, false), table, false)
      invariant Exactly(out, op1.logs, IdsBefore(ll2, j, false), false)
    {
      IdsBeforeNext(ll2, j, false);
      PartIsListed(ll2, j, false);
      var more := MatchAll(op1.logs, ll2[j].logs, was, IdsBefore(ll2, j, false), table);
      ExactlyMore(out, more, op1.logs, IdsBefore(ll2, j, false), Ids(ll2[j].logs), false);
      out := out + more;
    }
    IdsBeforeAll(ll2, false);
  }

  lemma PartIsListed(ops: seq<Operator>, j: nat, tiled: bool)
    requires j < |ops|
    ensures Objects(Part(ops[j], tiled)) <= Members(ops, tiled)
  {
  }

  /** One tiled log against the whole second list. */
  method MatchTiledLog(log1: ListedLog, ll2: seq<Operator>, ghost table: map<string, Info>)
    returns (out: seq<ListedLog>)
    requires ListOk(ll2) && UniqueIds(ll2, true) && log1 !in Members(ll2, true)
    requires Describes(table, ll2, true)
    modifies log1
    ensures Describes(table, ll2, true)
    ensures log1.View() == After(log1, old(log1.View()), MemberIds(ll2, true), table, true)
    ensures out == if log1.id in MemberIds(ll2, true) then [log1] else []
  {
    out := [];
    for j := 0 to |ll2|
      invariant Describes(table, ll2, true)
      invariant log1.View() == After(log1, old(log1.View()), IdsBefore(ll2, j, true), table, true)
      invariant out == if log1.id in IdsBefore(ll2, j, true) then [log1] else []
    {
      IdsBeforeNext(ll2, j, true);
      PartIsListed(ll2, j, true);
      var found := Match(log1, ll2[j].tiled, true, table);
      if found {
        out := out + [log1];
      }
    }
    IdsBeforeAll(ll2, true);
  }

  /** The tiled logs of one operator against the whole second list. */
  method MatchTiledLogs(op1: Operator, ll2: seq<Operator>, ghost was: map<ListedLog, Info>, ghost table: map<string,
      Info>)
    returns (out: seq<ListedLog>)
    requires NoDuplicates(op1.tiled) && ListOk(ll2) && UniqueIds(ll2, true)
    requires Objects(op1.tiled) !! Members(ll2, true)
    requires Describes(table, ll2, true) && Narrowed(op1.tiled, was, {}, table, true)
    modifies op1.tiled
    ensures Describes(table, ll2, true)
    ensures Narrowed(op1.tiled, was, MemberIds(ll2, true), table, true)
    ensures Exactly(out, op1.tiled, MemberIds(ll2, true), true)
  {
    out := [];
    var tiled := op1.tiled;
    for i := 0 to |tiled|
      invariant Describes(table, ll2, true)
      invariant forall k | 0 <= k < i ::
            tiled[k] in was && tiled[k].View() == After(tiled[k], was[tiled[k]], MemberIds(ll2, true), table, true)
      invariant forall k | i <= k < |tiled| :: tiled[k] in was && tiled[k].View() == was[tiled[k]]
      invariant Exactly(out, tiled[..i], MemberIds(ll2, true), true)
    {
      var log1 := tiled[i];
      assert log1 in Objects(tiled);
      var more := MatchTiledLog(log1, ll2, table);
      assert tiled[..i + 1] == tiled[..i] + [log1];
      ExactlyAdd(out, tiled[..i], log1, MemberIds(ll2, true), true);
      out := out + more;
    }
    assert tiled[..|tiled|] == tiled;
  }

  // ---- Whole lists ----

  ghost predicate OperatorNarrowed(op: Operator, was: map<ListedLog, Info>, ids: set<string>, table: map<string, Info>,
      tiledIds: set<string>, tiledTable: map<string, Info>)
    reads Footprint(op)
  {
    Narrowed(op.logs, was, ids, table, false) && Narrowed(op.tiled, was, tiledIds, tiledTable, true)
  }

  /** `op` holds exactly the logs of `op1` that the second list has too. */
  ghost predicate IsKept(op: Operator, op1: Operator, ids: set<string>, tiledIds: set<string>) {
    op.name == op1.name && Exactly(op.logs, op1.logs, ids, false) && Exactly(op.tiled, op1.tiled, tiledIds, true)
  }

  lemma ObjectsApart(logs: seq<ListedLog>, others: set<ListedLog>)
    requires Objects(logs) !! others
    ensures forall o | o in logs :: o !in others
    ensures forall o | o in others :: o !in logs
  {
  }

  method IntersectOperator(op1: Operator, ll2: seq<Operator>, ghost was: map<ListedLog, Info>,
      ghost table: map<string, Info>, ghost tiledTable: map<string, Info>)
    returns (op: Operator)
    requires OperatorOk(op1) && ListOk(ll2) && UniqueIds(ll2, false) && UniqueIds(ll2, true)
    requires Footprint(op1) !! Members(ll2, false) && Footprint(op1) !! Members(ll2, true)
    requires Describes(table, ll2, false) && Describes(tiledTable, ll2, true)
    requires OperatorNarrowed(op1, was, {}, table, {}, tiledTable)
    modifies Footprint(op1)
    ensures Describes(table, ll2, false) && Describes(tiledTable, ll2, true)
    ensures OperatorNarrowed(op1, was, MemberIds(ll2, false), table, MemberIds(ll2, true), tiledTable)
    ensures IsKept(op, op1, MemberIds(ll2, false), MemberIds(ll2, true))
  {
    ObjectsApart(op1.logs, Objects(op1.tiled));
    assert Objects(op1.logs) !! Members(ll2, true);
    var logs := MatchLogs(op1, ll2, was, table);
    forall k | 0 <= k < |op1.tiled|
      ensures op1.tiled[k] in was && op1.tiled[k].View() == After(op1.tiled[k], was[op1.tiled[k]], {}, tiledTable, true)
    {
      assert op1.tiled[k] in Objects(op1.tiled);
    }
    assert Narrowed(op1.tiled, was, {}, tiledTable, true);
    assert Describes(tiledTable, ll2, true);
    var tiled := MatchTiledLogs(op1, ll2, was, tiledTable);
    assert Describes(table, ll2, false) by {
      assert Objects(op1.tiled) !! Members(ll2, false);
    }
    forall k | 0 <= k < |op1.logs|
      ensures op1.logs[k] in was
      ensures op1.logs[k].View() == After(op1.logs[k], was[op1.logs[k]], MemberIds(ll2, false), table, false)
    {
      assert op1.logs[k] in Objects(op1.logs);
    }
    op := Operator(op1.name, logs, tiled);
  }

  ghost function AllLogs(ops: seq<Operator>): set<ListedLog> {
    set k: nat, o | k < |ops| && o in Footprint(ops[k]) :: o
  }

  ghost function TableOf(ops: seq<Operator>, tiled: bool): map<string, Info>
    reads Members(ops, tiled)
  {
    map id | id in MemberIds(ops, tiled) :: var o :| o in Members(ops, tiled) && o.id == id; o.View()
  }

  lemma TableDescribes(ops: seq<Operator>, tiled: bool)
    requires UniqueIds(ops, tiled)
    ensures Describes(TableOf(ops, tiled), ops, tiled)
  {
    var table := TableOf(ops, tiled);
    forall o | o in Members(ops, tiled) ensures o.id in table && table[o.id] == o.View() {
      assert o.id in MemberIds(ops, tiled);
      assert o.id in table;
      var p: ListedLog :| p in Members(ops, tiled) && p.id == o.id && table[o.id] == p.View();
      assert p == o;
    }
  }

  /** The result holds, for each operator of the first list with any match, exactly its matches. */
  ghost predicate IsIntersection(result: seq<Operator>, ll1: seq<Operator>, from: seq<nat>, n: nat, ids: set<string>,
      tiledIds: set<string>)
    requires n <= |ll1|
  {
    && |from| == |result|
    && (forall j, k | 0 <= j < k < |from| :: from[j] < from[k])
    && (forall k | 0 <= k < |from| ::
          from[k] < n && IsKept(result[k], ll1[from[k]], ids, tiledIds) && !Empty(result[k]))
    && (forall j: nat | j < n && j !in from :: NoMatch(ll1[j], ids, tiledIds))
  }

  predicate Empty(op: Operator) {
    |op.logs| == 0 && |op.tiled| == 0
  }

  ghost predicate NoMatch(op: Operator, ids: set<string>, tiledIds: set<string>) {
    Matching(op.logs, ids, false) == {} && Matching(op.tiled, tiledIds, true) == {}
  }

  lemma IntersectionNext(result: seq<Operator>, ll1: seq<Operator>, from: seq<nat>, n: nat, ids: set<string>,
      tiledIds: set<string>, op: Operator)
    requires n < |ll1| && IsIntersection(result, ll1, from, n, ids, tiledIds)
    requires IsKept(op, ll1[n], ids, tiledIds)
    ensures if Empty(op) then IsIntersection(result, ll1, from, n + 1, ids, tiledIds)
            else IsIntersection(result + [op], ll1, from + [n], n + 1, ids, tiledIds)
  {
    if Empty(op) {
      assert NoMatch(ll1[n], ids, tiledIds);
    } else {
      assert forall j: nat :: j in from + [n] <==> j in from || j == n;
    }
  }

  /** Operator `k` has been narrowed if it is among the first `n`. */
  ghost predicate StepOk(ll1: seq<Operator>, k: nat, n: nat, was: map<ListedLog, Info>, ids: set<string>,
      table: map<string, Info>, tiledIds: set<string>, tiledTable: map<string, Info>)
    requires k < |ll1|
    reads Footprint(ll1[k])
  {
    OperatorNarrowed(ll1[k], was, if k < n then ids else {}, table, if k < n then tiledIds else {}, tiledTable)
  }

  /** The first `n` operators have been narrowed, the others not yet. */
  ghost predicate Progress(ll1: seq<Operator>, n: nat, was: map<ListedLog, Info>, ids: set<string>, table: map<string,
      Info>,
      tiledIds: set<string>, tiledTable: map<string, Info>)
    reads AllLogs(ll1)
  {
    forall k: nat | k < |ll1| :: StepOk(ll1, k, n, was, ids, table, tiledIds, tiledTable)
  }

  lemma FootprintIsListed(ops: seq<Operator>, k: nat)
    requires k < |ops|
    ensures Footprint(ops[k]) <= AllLogs(ops)
  {
  }

  lemma MembersAreListed(ops: seq<Operator>, tiled: bool)
    ensures Members(ops, tiled) <= AllLogs(ops)
  {
    forall o | o in Members(ops, tiled) ensures o in AllLogs(ops) {
      var k: nat :| k < |ops| && o in Part(ops[k], tiled);
      assert o in Footprint(ops[k]);
    }
  }

  /** One operator, with the others left alone. */
  method IntersectNext(ll1: seq<Operator>, i: nat, ll2: seq<Operator>, ghost was: map<ListedLog, Info>,
      ghost table: map<string, Info>, ghost tiledTable: map<string, Info>)
    returns (op: Operator)
    requires i < |ll1| && ListOk(ll1) && ListOk(ll2) && UniqueIds(ll2, false) && UniqueIds(ll2, true)
    requires AllLogs(ll1) !! AllLogs(ll2)
    requires Describes(table, ll2, false) && Describes(tiledTable, ll2, true)
    requires Progress(ll1, i, was, MemberIds(ll2, false), table, MemberIds(ll2, true), tiledTable)
    modifies Footprint(ll1[i])
    ensures Describes(table, ll2, false) && Describes(tiledTable, ll2, true)
    ensures Progress(ll1, i + 1, was, MemberIds(ll2, false), table, MemberIds(ll2, true), tiledTable)
    ensures IsKept(op, ll1[i], MemberIds(ll2, false), MemberIds(ll2, true))
  {
    FootprintIsListed(ll1, i);
    MembersAreListed(ll2, false);
    MembersAreListed(ll2, true);
    assert StepOk(ll1, i, i, was, MemberIds(ll2, false), table, MemberIds(ll2, true), tiledTable);
    op := IntersectOperator(ll1[i], ll2, was, table, tiledTable);
    ghost var n := i + 1;
    forall k: nat | k < |ll1|
      ensures StepOk(ll1, k, n, was, MemberIds(ll2, false), table, MemberIds(ll2, true), tiledTable)
    {
      if k != i {
        assert Footprint(ll1[k]) !! Footprint(ll1[i]);
        assert StepOk(ll1, k, i, was, MemberIds(ll2, false), table, MemberIds(ll2, true), tiledTable);
      }
    }
  }

  /** Every object of a list holds what it held, narrowed by the second list. */
  ghost predicate AllNarrowed(ll1: seq<Operator>, was: map<ListedLog, Info>, ids: set<string>, table: map<string, Info>,
      tiled: bool)
    reads Members(ll1, tiled)
  {
    forall o | o in Members(ll1, tiled) :: o in was && o.View() == After(o, was[o], ids, table, tiled)
  }

  ghost function Views(ops: seq<Operator>): map<ListedLog, Info>
    reads AllLogs(ops)
  {
    map o | o in AllLogs(ops) :: o.View()
  }

  lemma StepsNarrowAll(ll1: seq<Operator>, was: map<ListedLog, Info>, ids: set<string>, table: map<string, Info>,
      tiledIds: set<string>, tiledTable: map<string, Info>)
    requires Progress(ll1, |ll1|, was, ids, table, tiledIds, tiledTable)
    ensures AllNarrowed(ll1, was, ids, table, false) && AllNarrowed(ll1, was, tiledIds, tiledTable, true)
  {
    forall o | o in Members(ll1, false) ensures o in was && o.View() == After(o, was[o], ids, table, false) {
      var k: nat :| k < |ll1| && o in Part(ll1[k], false);
      assert StepOk(ll1, k, |ll1|, was, ids, table, tiledIds, tiledTable);
    }
    forall o | o in Members(ll1, true) ensures o in was && o.View() == After(o, was[o], tiledIds, tiledTable, true) {
      var k: nat :| k < |ll1| && o in Part(ll1[k], true);
      assert StepOk(ll1, k, |ll1|, was, ids, table, tiledIds, tiledTable);
    }
  }

  lemma NothingNarrowedYet(ll1: seq<Operator>, ids: set<string>, table: map<string, Info>,
      tiledIds: set<string>, tiledTable: map<string, Info>)
    ensures Progress(ll1, 0, Views(ll1), ids, table, tiledIds, tiledTable)
  {
    forall k: nat | k < |ll1| ensures StepOk(ll1, k, 0, Views(ll1), ids, table, tiledIds, tiledTable) {
      FootprintIsListed(ll1, k);
      assert forall o | o in ll1[k].logs :: o in Footprint(ll1[k]);
      assert forall o | o in ll1[k].tiled :: o in Footprint(ll1[k]);
    }
  }

  // ---- What an intersection holds ----

  /** The logs of one type that another list, with these IDs, has too. */
  ghost function Common(ll1: seq<Operator>, ids: set<string>, tiled: bool): set<ListedLog> {
    set o | o in Members(ll1, tiled) && o.id in ids && !Skipped(o, tiled)
  }

  lemma KeptPart(op: Operator, op1: Operator, ids: set<string>, tiledIds: set<string>, tiled: bool, o: ListedLog)
    requires IsKept(op, op1, ids, tiledIds)
    ensures o in Part(op, tiled) <==> o in Matching(Part(op1, tiled), if tiled then tiledIds else ids, tiled)
  {
    assert o in Part(op, tiled) <==> o in Objects(Part(op, tiled));
  }

  lemma IntersectionMembers(result: seq<Operator>, ll1: seq<Operator>, from: seq<nat>, ids: set<string>,
      tiledIds: set<string>, tiled: bool)
    requires IsIntersection(result, ll1, from, |ll1|, ids, tiledIds)
    ensures Members(result, tiled) == Common(ll1, if tiled then tiledIds else ids, tiled)
  {
    var wanted := if tiled then tiledIds else ids;
    forall o | o in Members(result, tiled) ensures o in Common(ll1, wanted, tiled) {
      var k: nat :| k < |result| && o in Part(result[k], tiled);
      KeptPart(result[k], ll1[from[k]], ids, tiledIds, tiled, o);
      assert o in Part(ll1[from[k]], tiled);
    }
    forall o | o in Common(ll1, wanted, tiled) ensures o in Members(result, tiled) {
      var j: nat :| j < |ll1| && o in Part(ll1[j], tiled);
      assert o in Matching(Part(ll1[j], tiled), wanted, tiled);
      assert j in from;
      var k: nat :| k < |from| && from[k] == j;
      KeptPart(result[k], ll1[j], ids, tiledIds, tiled, o);
    }
  }

  lemma KeptFootprint(op: Operator, op1: Operator, ids: set<string>, tiledIds: set<string>)
    requires IsKept(op, op1, ids, tiledIds) && OperatorOk(op1)
    ensures OperatorOk(op) && Footprint(op) <= Footprint(op1)
  {
    assert Objects(op.logs) <= Objects(op1.logs) && Objects(op.tiled) <= Objects(op1.tiled);
  }

  /** Each log stands in the result once. */
  lemma IntersectionOk(result: seq<Operator>, ll1: seq<Operator>, from: seq<nat>, ids: set<string>,
      tiledIds: set<string>)
    requires ListOk(ll1) && IsIntersection(result, ll1, from, |ll1|, ids, tiledIds)
    ensures ListOk(result) && AllLogs(result) <= AllLogs(ll1)
  {
    forall k | 0 <= k < |result| ensures OperatorOk(result[k]) && Footprint(result[k]) <= Footprint(ll1[from[k]]) {
      KeptFootprint(result[k], ll1[from[k]], ids, tiledIds);
    }
    forall j, k | 0 <= j < k < |result| ensures Footprint(result[j]) !! Footprint(result[k]) {
      assert from[j] < from[k];
      assert Footprint(ll1[from[j]]) !! Footprint(ll1[from[k]]);
    }
    forall o | o in AllLogs(result) ensures o in AllLogs(ll1) {
      var k: nat :| k < |result| && o in Footprint(result[k]);
      FootprintIsListed(ll1, from[k]);
    }
  }

  /**
    `intersect`: the result holds exactly the first list's logs that the second list has too; the
    objects of the first list, in the result or not, are narrowed by the second list's.
   */
  method Intersect(ll1: seq<Operator>, ll2: seq<Operator>) returns (result: seq<Operator>, ghost from: seq<nat>)
    requires ListOk(ll1) && ListOk(ll2) && UniqueIds(ll2, false) && UniqueIds(ll2, true)
    requires AllLogs(ll1) !! AllLogs(ll2)
    modifies AllLogs(ll1)
    ensures ListOk(result) && AllLogs(result) <= AllLogs(ll1)
    ensures IsIntersection(result, ll1, from, |ll1|, MemberIds(ll2, false), MemberIds(ll2, true))
    ensures Members(result, false) == Common(ll1, MemberIds(ll2, false), false)
    ensures forall o | o in Members(ll1, false) :: o in Members(result, false) <==>
              o.id in MemberIds(ll2, false) && !exists before, after :: o.url == before + "bogus" + after
    ensures Members(result, true) == Common(ll1, MemberIds(ll2, true), true)
    ensures AllNarrowed(ll1, old(Views(ll1)), MemberIds(ll2, false), old(TableOf(ll2, false)), false)
    ensures AllNarrowed(ll1, old(Views(ll1)), MemberIds(ll2, true), old(TableOf(ll2, true)), true)
  {
    result, from := [], [];
    ghost var was := Views(ll1);
    ghost var table, tiledTable := TableOf(ll2, false), TableOf(ll2, true);
    TableDescribes(ll2, false);
    TableDescribes(ll2, true);
    NothingNarrowedYet(ll1, MemberIds(ll2, false), table, MemberIds(ll2, true), tiledTable);
    for i := 0 to |ll1|
      invariant Describes(table, ll2, false) && Describes(tiledTable, ll2, true)
      invariant Progress(ll1, i, was, MemberIds(ll2, false), table, MemberIds(ll2, true), tiledTable)
      invariant IsIntersection(result, ll1, from, i, MemberIds(ll2, false), MemberIds(ll2, true))
    {
      FootprintIsListed(ll1, i);
      var op := IntersectNext(ll1, i, ll2, was, table, tiledTable);
      IntersectionNext(result, ll1, from, i, MemberIds(ll2, false), MemberIds(ll2, true), op);
      if |op.logs| > 0 || |op.tiled| > 0 {
        result, from := result + [op], from + [i];
      }
    }
    StepsNarrowAll(ll1, was, MemberIds(ll2, false), table, MemberIds(ll2, true), tiledTable);
    IntersectionOk(result, ll1, from, MemberIds(ll2, false), MemberIds(ll2, true));
    IntersectionMembers(result, ll1, from, MemberIds(ll2, false), MemberIds(ll2, true), false);
    IntersectionMembers(result, ll1, from, MemberIds(ll2, false), MemberIds(ll2, true), true);
    forall o | o in Members(ll1, false)
      ensures o in Members(result, false) <==>
              o.id in MemberIds(ll2, false) && !exists before, after :: o.url == before + "bogus" + after
    {
      BogusIsContained(o.url);
    }
  }

  /**
    `r` is what `infos[0]` becomes when narrowed by the others: from the latest start to the earliest
    end, Usable since the latest time, among the logs that state one.
   */
  ghost predicate IsMeet(infos: seq<Info>, r: Info)
    requires infos != []
  {
    && (r.interval.Some? <==> infos[0].interval.Some?)
    && (r.usable.Some? <==> infos[0].usable.Some?)
    && (r.interval.Some? ==>
          && (forall k | 0 <= k < |infos| && infos[k].interval.Some? ::
                r.interval.value.start >= infos[k].interval.value.start
                    && r.interval.value.end <= infos[k].interval.value.end)
          && (exists k :: 0 <= k < |infos| && infos[k].interval.Some?
                && r.interval.value.start == infos[k].interval.value.start)
          && (exists k :: 0 <= k < |infos| && infos[k].interval.Some?
                && r.interval.value.end == infos[k].interval.value.end))
    && (r.usable.Some? ==>
          && (forall k | 0 <= k < |infos| && infos[k].usable.Some? :: r.usable.value >= infos[k].usable.value)
          && (exists k :: 0 <= k < |infos| && infos[k].usable == r.usable))
  }

  lemma MergeIsMeet(infos: seq<Info>, r: Info, b: Info)
    requires infos != [] && IsMeet(infos, r)
    ensures IsMeet(infos + [b], Merge(r, b))
  {
    var all, m := infos + [b], Merge(r, b);
    assert all[|infos|] == b && all[0] == infos[0];
    if r.interval.Some? {
      var k :| 0 <= k < |infos| && infos[k].interval.Some? && r.interval.value.start == infos[k].interval.value.start;
      var l :| 0 <= l < |infos| && infos[l].interval.Some? && r.interval.value.end == infos[l].interval.value.end;
      assert all[k] == infos[k] && all[l] == infos[l];
    }
    if r.usable.Some? {
      var k :| 0 <= k < |infos| && infos[k].usable == r.usable;
      assert all[k] == infos[k];
    }
  }

  lemma MergeTwiceIsMeet(a: Info, b: Info, c: Info)
    ensures IsMeet([a, b, c], Merge(Merge(a, b), c))
  {
    assert [a][0] == a && IsMeet([a], a);
    MergeIsMeet([a], a, b);
    assert [a] + [b] == [a, b];
    MergeIsMeet([a, b], Merge(a, b), c);
    assert [a, b] + [c] == [a, b, c];
  }

  /** One object after both intersections. */
  ghost predicate Met(o: ListedLog, was: map<ListedLog, Info>, second: map<string, Info>, third: map<string, Info>)
    reads o
  {
    && o in was && o.id in second && o.id in third
    && IsMeet([was[o], second[o.id], third[o.id]], o.View())
  }

  /** After the first intersection, in values: what the objects of one type hold. */
  ghost predicate NarrowedTo(ll1: seq<Operator>, was: map<ListedLog, Info>, now: map<ListedLog, Info>,
      table: map<string, Info>, tiled: bool) {
    forall o | o in Members(ll1, tiled) && o in now :: o in was && now[o] == After(o, was[o], table.Keys, table, tiled)
  }

  lemma NarrowedValues(ll1: seq<Operator>, both: seq<Operator>, was: map<ListedLog, Info>, table: map<string, Info>,
      tiled: bool)
    requires AllNarrowed(ll1, was, table.Keys, table, tiled)
    ensures NarrowedTo(ll1, was, Views(both), table, tiled)
  {
  }

  /** A log that passed both intersections was narrowed by both. */
  lemma NarrowedTwice(chrome: seq<Operator>, both: seq<Operator>, result: seq<Operator>, tiled: bool,
      was: map<ListedLog, Info>, mid: map<ListedLog, Info>, second: map<string, Info>, third: map<string, Info>)
    requires Members(both, tiled) == Common(chrome, second.Keys, tiled)
    requires Members(result, tiled) == Common(both, third.Keys, tiled)
    requires NarrowedTo(chrome, was, mid, second, tiled) && AllNarrowed(both, mid, third.Keys, third, tiled)
    ensures Members(result, tiled) == Common(chrome, second.Keys * third.Keys, tiled)
    ensures forall o | o in Members(result, tiled) :: Met(o, was, second, third)
  {
    forall o | o in Members(result, tiled) ensures Met(o, was, second, third) {
      assert o in Members(both, tiled) && o in Members(chrome, tiled);
      MergeTwiceIsMeet(was[o], second[o.id], third[o.id]);
    }
  }

  /** The logs of one type that all three lists have, narrowed to what all three say. */
  ghost predicate AgreedBy(result: seq<Operator>, chrome: seq<Operator>, was: map<ListedLog, Info>,
      second: map<string, Info>, third: map<string, Info>, tiled: bool)
    reads Members(result, tiled)
  {
    && Members(result, tiled) == Common(chrome, second.Keys * third.Keys, tiled)
    && forall o | o in Members(result, tiled) :: Met(o, was, second, third)
  }

  /** The second intersection, of a list that the first one has narrowed. */
  method IntersectAgain(both: seq<Operator>, mozilla: seq<Operator>, ghost chrome: seq<Operator>,
      ghost was: map<ListedLog, Info>,
      ghost second: map<string, Info>, ghost secondTiled: map<string, Info>)
    returns (result: seq<Operator>)
    requires ListOk(both) && ListOk(mozilla) && UniqueIds(mozilla, false) && UniqueIds(mozilla, true)
    requires AllLogs(both) !! AllLogs(mozilla)
    requires Members(both, false) == Common(chrome, second.Keys, false)
    requires Members(both, true) == Common(chrome, secondTiled.Keys, true)
    requires NarrowedTo(chrome, was, Views(both), second, false)
    requires NarrowedTo(chrome, was, Views(both), secondTiled, true)
    modifies AllLogs(both)
    ensures ListOk(result)
    ensures AgreedBy(result, chrome, was, second, old(TableOf(mozilla, false)), false)
    ensures AgreedBy(result, chrome, was, secondTiled, old(TableOf(mozilla, true)), true)
  {
    ghost var mid := Views(both);
    ghost var third, thirdTiled := TableOf(mozilla, false), TableOf(mozilla, true);
    ghost var from;
    result, from := Intersect(both, mozilla);
    assert AgreedBy(result, chrome, was, second, third, false) by {
      NarrowedTwice(chrome, both, result, false, was, mid, second, third);
    }
    assert AgreedBy(result, chrome, was, secondTiled, thirdTiled, true) by {
      NarrowedTwice(chrome, both, result, true, was, mid, secondTiled, thirdTiled);
    }
  }

  /**
    `determineUsableTLSLogs`: the logs that all three programmes list, once each, every one narrowed
    to what all three agree on, although the first list's objects are narrowed where they stand.
   */
  method DetermineUsableTLSLogs(chrome: seq<Operator>, apple: seq<Operator>, mozilla: seq<Operator>)
    returns (result: seq<Operator>)
    requires ListOk(chrome) && ListOk(apple) && ListOk(mozilla)
    requires UniqueIds(apple, false) && UniqueIds(apple, true) && UniqueIds(mozilla, false) && UniqueIds(mozilla, true)
    requires AllLogs(chrome) !! AllLogs(apple) && AllLogs(chrome) !! AllLogs(mozilla)
    modifies AllLogs(chrome)
    ensures ListOk(result)
    ensures AgreedBy(result, chrome, old(Views(chrome)), old(TableOf(apple, false)), old(TableOf(mozilla, false)),
          false)
    ensures AgreedBy(result, chrome, old(Views(chrome)), old(TableOf(apple, true)), old(TableOf(mozilla, true)), true)
  {
    ghost var was := Views(chrome);
    ghost var second, secondTiled := TableOf(apple, false), TableOf(apple, true);
    ghost var third, thirdTiled := TableOf(mozilla, false), TableOf(mozilla, true);
    ghost var from;
    var both;
    both, from := Intersect(chrome, apple);
    NarrowedValues(chrome, both, was, second, false);
    NarrowedValues(chrome, both, was, secondTiled, true);
    MembersAreListed(mozilla, false);
    MembersAreListed(mozilla, true);
    assert third == TableOf(mozilla, false) && thirdTiled == TableOf(mozilla, true);
    result := IntersectAgain(both, mozilla, chrome, was, second, secondTiled);
  }
}
