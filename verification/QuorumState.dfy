/**
  The mutable `quorumState` and the strategy it annotates. Each method is tied to the value-level
  function of the same name in `Quorum` or `Trim`.
 */
module QuorumStates {
  import opened Logs
  import opened Finite
  import Q = Quorum
  import L = KeepLaw
  import T = Trim

  /** The strategy: fixed logs, and the two columns that `submit` writes. */
  class Strategy {
    const logs: seq<Log>
    var outcome: seq<Outcome>
    var began: set<nat>  // the members whose BeganAfter is set

    constructor (logs: seq<Log>, outcome: seq<Outcome>)
      requires |outcome| == |logs|
      ensures this.logs == logs && this.outcome == outcome && began == {}
    {
      this.logs, this.outcome, this.began := logs, outcome, {};
    }
  }

  class QuorumState {
    var indices: seq<nat>
    var responses: seq<Response>
    var scts: seq<Sct>
    var operators: set<string>
    var hasRFC6962: bool
    var hasStatic: bool

    function View(): Q.Quorum
      reads this
    {
      Q.Quorum(indices, responses, scts, operators, hasRFC6962, hasStatic)
    }

    ghost predicate Aligned(logs: seq<Log>)
      reads this
    {
      && |indices| == |responses| == |scts|
      && (forall k | 0 <= k < |indices| :: indices[k] < |logs|)
      && Q.InRange(logs, Q.Indices(View()))
    }

    constructor ()
      ensures View() == Q.EMPTY
    {
      indices, responses, scts, operators, hasRFC6962, hasStatic := [], [], [], {}, false, false;
    }

    method AddSuccess(logs: seq<Log>, i: nat, r: Response, s: Sct)
      requires i < |logs|
      modifies this
      ensures View() == Q.AddSuccess(old(View()), logs, i, r, s)
    {
      responses := responses + [r];
      scts := scts + [s];
      indices := indices + [i];
      operators := operators + {logs[i].operator};
      if logs[i].logType == RFC6962 {
        hasRFC6962 := true;
      }
      if logs[i].logType == Static {
        hasStatic := true;
      }
    }

    method IsQuorumMet(sr: Request) returns (b: bool)
      ensures b == Q.IsQuorumMet(View(), sr)
    {
      if |responses| < sr.scts { return false; }
      if |operators| < sr.operators { return false; }
      if sr.requireRFC6962 && !hasRFC6962 { return false; }
      return true;
    }

    method HelpsQuorum(sr: Request, log: Log) returns (b: bool)
      ensures b == Q.HelpsQuorum(View(), sr, log)
    {
      if |responses| < sr.scts { return true; }
      if |operators| < sr.operators && log.operator !in operators { return true; }
      if sr.requireRFC6962 && !hasRFC6962 && log.logType == RFC6962 { return true; }
      if sr.preferStatic && !hasStatic && log.logType == Static { return true; }
      return false;
    }

    /** The in-flight set is visited in any order. */
    method WouldHelp(sr: Request, log: Log, logs: seq<Log>, inFlight: set<nat>) returns (b: bool)
      requires Q.InRange(logs, inFlight)
      ensures b == Q.WouldHelp(View(), sr, log, logs, inFlight)
    {
      var optimisticScts := |responses| + |inFlight|;
      var optimisticOperators := operators;
      var optimisticRFC6962 := hasRFC6962;
      var optimisticStatic := hasStatic;
      var rest := inFlight;
      while rest != {}
        invariant rest <= inFlight
        invariant optimisticOperators == operators + Q.Operators(logs, inFlight - rest)
        invariant optimisticRFC6962 <==> hasRFC6962 || Q.HasType(logs, inFlight - rest, RFC6962)
        invariant optimisticStatic <==> hasStatic || Q.HasType(logs, inFlight - rest, Static)
        decreases rest
      {
        var idx :| idx in rest;
        assert inFlight - (rest - {idx}) == (inFlight - rest) + {idx};
        Q.AddOperator(logs, inFlight - rest, idx);
        Q.AddType(logs, inFlight - rest, idx);
        rest := rest - {idx};
        optimisticOperators := optimisticOperators + {logs[idx].operator};
        if logs[idx].logType == RFC6962 { optimisticRFC6962 := true; }
        if logs[idx].logType == Static { optimisticStatic := true; }
      }
      assert inFlight - {} == inFlight;
      if optimisticScts < sr.scts { return true; }
      if |optimisticOperators| < sr.operators && log.operator !in optimisticOperators { return true; }
      if sr.requireRFC6962 && !optimisticRFC6962 && log.logType == RFC6962 { return true; }
      if sr.preferStatic && !optimisticStatic && log.logType == Static { return true; }
      return false;
    }

    method TrimToQuorum(sr: Request, strategy: Strategy)
      requires Aligned(strategy.logs) && |strategy.outcome| == |strategy.logs|
      modifies this`indices, this`responses, this`scts, strategy`outcome
      ensures View() == T.TrimToQuorum(old(View()), strategy.logs, sr)
      ensures 0 <= sr.scts ==> T.TrimsRight(old(View()), View(), strategy.logs, sr)
      ensures strategy.outcome == TrimOutcomes(old(strategy.outcome), old(View()), strategy.logs, sr)
    {
      if 0 <= sr.scts { T.TrimIsRight(View(), strategy.logs, sr); }
      if |responses| <= sr.scts { return; }
      var logs := strategy.logs;
      var entries := T.Entries(View(), logs);
      var selected := new bool[|responses|](_ => false);
      assert Chosen(selected[..]) == {};
      var count := SelectDiverse(selected, entries, sr);
      count := SelectRFC6962(selected, entries, sr, count);
      count := SelectStatic(selected, entries, sr, count);
      Fill(selected, sr, count);
      Rebuild(selected, strategy);
    }

    /** Keep the selected entries, and mark the rest as not needed. */
    method Rebuild(selected: array<bool>, strategy: Strategy)
      requires Markable(View(), strategy.outcome) && selected.Length == |indices|
      modifies this`indices, this`responses, this`scts, strategy`outcome
      ensures var c, q := Chosen(selected[..]), old(View());
              View() == q.(indices := T.Keep(q.indices, c),
                           responses := T.Keep(q.responses, c),
                           scts := T.Keep(q.scts, c))
      ensures strategy.outcome == MarkDropped(old(strategy.outcome), old(indices), Chosen(selected[..]))
    {
      ghost var c, q, marks := Chosen(selected[..]), View(), strategy.outcome;
      var responses', scts', indices' := [], [], [];
      for i := 0 to |responses|
        invariant unchanged(this)
        invariant Rebuilt(responses', scts', indices', strategy.outcome) == RebuiltFrom(q, marks, c, i)
      {
        if selected[i] {
          responses' := responses' + [responses[i]];
          scts' := scts' + [scts[i]];
          indices' := indices' + [indices[i]];
        } else {
          strategy.outcome := strategy.outcome[indices[i] := NotNeeded];
        }
      }
      RebuiltAll(q, marks, c);
      responses, scts, indices := responses', scts', indices';
    }
  }

  // ---- trimToQuorum ----

  lemma KeepNext<T>(s: seq<T>, c: set<nat>, i: nat)
    requires i < |s|
    ensures T.Keep(s[..i + 1], c) == T.Keep(s[..i], c) + if i in c then [s[i]] else []
  {
    assert s[..i + 1][..i] == s[..i];
  }

  ghost predicate Markable(q: Q.Quorum, marks: seq<Outcome>) {
    && |q.indices| == |q.responses| == |q.scts|
    && forall k | 0 <= k < |q.indices| :: q.indices[k] < |marks|
  }

  /** What the rebuilding loop works on: the three lists, and the outcomes. */
  datatype Rebuilt = Rebuilt(responses: seq<Response>, scts: seq<Sct>, indices: seq<nat>, outcome: seq<Outcome>)

  /** Of the first `i` entries the selected ones are kept, and the outcomes of the others are marked. */
  ghost function RebuiltFrom(q: Q.Quorum, marks: seq<Outcome>, c: set<nat>, i: nat): (r: Rebuilt)
    requires Markable(q, marks) && i <= |q.indices|
    ensures |r.outcome| == |marks|
  {
    if i == 0 then Rebuilt([], [], [], marks)
    else
      var r, n := RebuiltFrom(q, marks, c, i - 1), i - 1;
      if n in c then
        r.(responses := r.responses + [q.responses[n]], scts := r.scts + [q.scts[n]],
           indices := r.indices + [q.indices[n]])
      else r.(outcome := r.outcome[q.indices[n] := NotNeeded])
  }

  lemma {:induction false} ResponsesAreKept(q: Q.Quorum, marks: seq<Outcome>, c: set<nat>, i: nat)
    requires Markable(q, marks) && i <= |q.indices|
    ensures RebuiltFrom(q, marks, c, i).responses == T.Keep(q.responses[..i], c)
  {
    if i > 0 {
      ResponsesAreKept(q, marks, c, i - 1);
      KeepNext(q.responses, c, i - 1);
    }
  }

  lemma {:induction false} SctsAreKept(q: Q.Quorum, marks: seq<Outcome>, c: set<nat>, i: nat)
    requires Markable(q, marks) && i <= |q.indices|
    ensures RebuiltFrom(q, marks, c, i).scts == T.Keep(q.scts[..i], c)
  {
    if i > 0 {
      SctsAreKept(q, marks, c, i - 1);
      KeepNext(q.scts, c, i - 1);
    }
  }

  lemma {:induction false} IndicesAreKept(q: Q.Quorum, marks: seq<Outcome>, c: set<nat>, i: nat)
    requires Markable(q, marks) && i <= |q.indices|
    ensures RebuiltFrom(q, marks, c, i).indices == T.Keep(q.indices[..i], c)
  {
    if i > 0 {
      IndicesAreKept(q, marks, c, i - 1);
      KeepNext(q.indices, c, i - 1);
    }
  }

  lemma {:induction false} OthersAreMarked(q: Q.Quorum, marks: seq<Outcome>, c: set<nat>, i: nat)
    requires Markable(q, marks) && i <= |q.indices|
    ensures RebuiltFrom(q, marks, c, i).outcome == MarkDropped(marks, q.indices[..i], c)
  {
    if i > 0 {
      OthersAreMarked(q, marks, c, i - 1);
      MarkDroppedNext(marks, q.indices, c, i - 1);
    }
  }

  lemma RebuiltAll(q: Q.Quorum, marks: seq<Outcome>, c: set<nat>)
    requires Markable(q, marks)
    ensures RebuiltFrom(q, marks, c, |q.responses|) == Rebuilt(T.Keep(q.responses, c), T.Keep(q.scts, c),
              T.Keep(q.indices, c), MarkDropped(marks, q.indices, c))
  {
    ResponsesAreKept(q, marks, c, |q.responses|);
    SctsAreKept(q, marks, c, |q.responses|);
    IndicesAreKept(q, marks, c, |q.responses|);
    OthersAreMarked(q, marks, c, |q.responses|);
    assert q.responses[..|q.responses|] == q.responses && q.scts[..|q.scts|] == q.scts;
    assert q.indices[..|q.indices|] == q.indices;
  }

  lemma MarkDroppedNext(outcome: seq<Outcome>, indices: seq<nat>, c: set<nat>, i: nat)
    requires i < |indices| && forall k | 0 <= k < |indices| :: indices[k] < |outcome|
    ensures var marked := MarkDropped(outcome, indices[..i], c);
            MarkDropped(outcome, indices[..i + 1], c) == if i in c then marked else marked[indices[i] := NotNeeded]
  {
    assert indices[..i + 1][..i] == indices[..i];
  }

  method CanDropSafely(dropIdx: nat, selected: array<bool>, e: seq<Log>, sr: Request) returns (b: bool)
    requires selected.Length == |e| && dropIdx < |e|
    ensures b == T.CanDropSafely(e, Chosen(selected[..]), dropIdx, sr)
  {
    ghost var c := Chosen(selected[..]);
    var droppedOp := e[dropIdx].operator;
    for j := 0 to |e|
      invariant forall k | k in c && k < j :: k != dropIdx ==> e[k].operator != droppedOp
    {
      if j != dropIdx && selected[j] && e[j].operator == droppedOp {
        assert j in c && e[j].operator == e[dropIdx].operator;
        return true;
      }
    }
    var totalUnique := CountOtherOperators(dropIdx, selected, e);
    return totalUnique >= sr.operators;
  }

  /** The number of distinct operators selected without entry `dropIdx`. */
  method CountOtherOperators(dropIdx: nat, selected: array<bool>, e: seq<Log>) returns (totalUnique: nat)
    requires selected.Length == |e| && dropIdx < |e|
    ensures totalUnique == |Q.Operators(e, Chosen(selected[..]) - {dropIdx})|
  {
    ghost var rest := Chosen(selected[..]) - {dropIdx};
    ghost var scanned: set<nat> := {};
    var seen: set<string> := {};
    totalUnique := 0;
    for j := 0 to |e|
      invariant scanned <= rest
      invariant forall k | k in rest :: k in scanned <==> k < j
      invariant seen == Q.Operators(e, scanned)
      invariant totalUnique == |seen|
    {
      if j != dropIdx && selected[j] {
        var op := e[j].operator;
        Q.AddOperator(e, scanned, j);
        scanned := scanned + {j};
        if op !in seen {
          seen := seen + {op};
          totalUnique := totalUnique + 1;
        }
      }
    }
    assert scanned == rest;
  }

  method HasSelected(selected: array<bool>, e: seq<Log>, t: LogType) returns (has: bool)
    requires selected.Length == |e|
    ensures has == Q.HasType(e, Chosen(selected[..]), t)
  {
    ghost var c := Chosen(selected[..]);
    for i := 0 to |e|
      invariant forall k | k in c && k < i :: e[k].logType != t
    {
      if selected[i] && e[i].logType == t {
        assert i in c && e[i].logType == t;
        return true;
      }
    }
    return false;
  }

  method Select(selected: array<bool>, i: nat, count: nat) returns (count': nat)
    requires i < selected.Length && !selected[i]
    requires count == |Chosen(selected[..])|
    modifies selected
    ensures Chosen(selected[..]) == old(Chosen(selected[..])) + {i}
    ensures count' == |Chosen(selected[..])|
  {
    ghost var before := selected[..];
    ChosenUpdate(before, i, true);
    assert i !in Chosen(before);
    selected[i] := true;
    assert selected[..] == before[i := true];
    return count + 1;
  }

  /** Select the first unselected entry of type `t`, if there is one. */
  method SelectFirst(selected: array<bool>, e: seq<Log>, t: LogType, count: nat) returns (count': nat)
    requires selected.Length == |e|
    requires count == |Chosen(selected[..])|
    modifies selected
    ensures var c := old(Chosen(selected[..]));
            Chosen(selected[..]) == T.AddFirst(c, T.Unselected(e, c, t))
    ensures count' == |Chosen(selected[..])|
  {
    ghost var c := Chosen(selected[..]);
    ghost var from := T.Unselected(e, c, t);
    for i := 0 to |e|
      invariant selected[..] == old(selected[..])
      invariant forall k | k in from :: i <= k
    {
      if !selected[i] && e[i].logType == t {
        assert i in from;
        assert i == MinOf(from);
        count' := Select(selected, i, count);
        return;
      }
    }
    assert from == {};
    return count;
  }

  /** Phase 1 has looked at the first `i` entries: what is chosen, the operators seen, and the count. */
  ghost predicate Picked(bits: seq<bool>, e: seq<Log>, i: nat, scts: int, seen: set<string>, count: nat)
    requires i <= |e| == |bits|
  {
    && Chosen(bits) == T.Diverse(e, i, scts)
    && seen == Q.Operators(e, T.Diverse(e, i, scts))
    && count == |Chosen(bits)|
  }

  lemma PickedAll(bits: seq<bool>, e: seq<Log>, i: nat, scts: int, seen: set<string>, count: nat)
    requires i <= |e| == |bits| && Picked(bits, e, i, scts, seen, count)
    requires i == |e| || count >= scts
    ensures Chosen(bits) == T.Diverse(e, |e|, scts)
  {
    if i < |e| {
      T.DiverseStaysFull(e, i, |e|, scts);
    }
  }

  /** Phase 1: one entry per operator. */
  method SelectDiverse(selected: array<bool>, e: seq<Log>, sr: Request) returns (count: nat)
    requires selected.Length == |e|
    requires Chosen(selected[..]) == {}
    modifies selected
    ensures Chosen(selected[..]) == T.Diverse(e, |e|, sr.scts)
    ensures count == |Chosen(selected[..])|
  {
    count := 0;
    var seen: set<string> := {};
    var i := 0;
    while i < |e| && count < sr.scts
      invariant i <= |e|
      invariant Picked(selected[..], e, i, sr.scts, seen, count)
    {
      seen, count := SelectIfNew(selected, e, i, sr.scts, seen, count);
      i := i + 1;
    }
    PickedAll(selected[..], e, i, sr.scts, seen, count);
  }

  method SelectIfNew(selected: array<bool>, e: seq<Log>, i: nat, scts: int, seen: set<string>, count: nat)
    returns (seen': set<string>, count': nat)
    requires selected.Length == |e| && i < |e| && count < scts
    requires Picked(selected[..], e, i, scts, seen, count)
    modifies selected
    ensures Picked(selected[..], e, i + 1, scts, seen', count')
  {
    seen', count' := seen, count;
    ghost var c := Chosen(selected[..]);
    var op := e[i].operator;
    if op !in seen {
      assert i !in c;
      Q.AddOperator(e, c, i);
      seen' := seen + {op};
      count' := Select(selected, i, count);
      assert Chosen(selected[..]) == c + {i};
    }
  }

  method Deselect(selected: array<bool>, i: int, count: nat) returns (count': nat)
    requires -1 <= i < selected.Length && (i >= 0 ==> selected[i])
    requires count == |Chosen(selected[..])|
    modifies selected
    ensures Chosen(selected[..]) == if i < 0 then old(Chosen(selected[..])) else old(Chosen(selected[..])) - {i}
    ensures count' == |Chosen(selected[..])|
  {
    if i < 0 { return count; }
    ghost var before := selected[..];
    ChosenUpdate(before, i, false);
    assert i in Chosen(before);
    selected[i] := false;
    assert selected[..] == before[i := false];
    return count - 1;
  }

  /** The last entry that may make way for a required RFC6962 SCT, or -1. */
  method FindDropForRFC6962(selected: array<bool>, e: seq<Log>, sr: Request) returns (i: int)
    requires selected.Length == |e|
    ensures -1 <= i < |e|
    ensures var from := T.DropForRFC6962(e, Chosen(selected[..]), sr);
            if i < 0 then from == {} else from != {} && i == MaxOf(from) && selected[i]
  {
    ghost var c := Chosen(selected[..]);
    ghost var from := T.DropForRFC6962(e, c, sr);
    i := |e| - 1;
    while i >= 0
      invariant -1 <= i < |e|
      invariant forall k | k in from :: k <= i
    {
      if selected[i] && e[i].logType != RFC6962 {
        var drop := CanDropSafely(i, selected, e, sr);
        if drop {
          assert i in from;
          return;
        }
      }
      i := i - 1;
    }
  }

  /** Phase 2: RFC6962 coverage. */
  method SelectRFC6962(selected: array<bool>, e: seq<Log>, sr: Request, count: nat) returns (count': nat)
    requires selected.Length == |e|
    requires count == |Chosen(selected[..])|
    modifies selected
    ensures Chosen(selected[..]) == T.WithRFC6962(e, old(Chosen(selected[..])), sr)
    ensures L.SwappedIn(e, old(Chosen(selected[..])), Chosen(selected[..]), sr.requireRFC6962, RFC6962, sr)
    ensures count' == |Chosen(selected[..])|
  {
    count' := count;
    T.RFC6962SwapsIn(e, Chosen(selected[..]), sr);
    if sr.requireRFC6962 {
      var has := HasSelected(selected, e, RFC6962);
      if !has {
        count' := SelectFirst(selected, e, RFC6962, count');
        if count' > sr.scts {
          var i := FindDropForRFC6962(selected, e, sr);
          count' := Deselect(selected, i, count');
        }
      }
    }
  }

  /** The last entry that may make way for a preferred Static SCT, or -1. */
  method FindDropForStatic(selected: array<bool>, e: seq<Log>, sr: Request) returns (i: int)
    requires selected.Length == |e|
    ensures -1 <= i < |e|
    ensures var from := T.DropForStatic(e, Chosen(selected[..]), sr);
            if i < 0 then from == {} else from != {} && i == MaxOf(from) && selected[i]
  {
    ghost var c := Chosen(selected[..]);
    ghost var from := T.DropForStatic(e, c, sr);
    i := |e| - 1;
    while i >= 0
      invariant -1 <= i < |e|
      invariant forall k | k in from :: k <= i
    {
      if selected[i] {
        var only := OnlyRFC6962(i, selected, e, sr);
        if !only && e[i].logType != Static {
          var drop := CanDropSafely(i, selected, e, sr);
          if drop {
            assert i in from;
            return;
          }
        }
      }
      i := i - 1;
    }
  }

  /** Phase 3: the Static preference. */
  method SelectStatic(selected: array<bool>, e: seq<Log>, sr: Request, count: nat) returns (count': nat)
    requires selected.Length == |e|
    requires count == |Chosen(selected[..])|
    modifies selected
    ensures Chosen(selected[..]) == T.WithStatic(e, old(Chosen(selected[..])), sr)
    ensures L.SwappedIn(e, old(Chosen(selected[..])), Chosen(selected[..]), sr.preferStatic, Static, sr)
    ensures count' == |Chosen(selected[..])|
  {
    count' := count;
    T.StaticSwapsIn(e, Chosen(selected[..]), sr);
    if sr.preferStatic {
      var has := HasSelected(selected, e, Static);
      if !has {
        count' := SelectFirst(selected, e, Static, count');
        if count' > sr.scts {
          var i := FindDropForStatic(selected, e, sr);
          count' := Deselect(selected, i, count');
        }
      }
    }
  }

  /** Is entry `i` the only selected RFC6962 entry, while one is required? */
  method OnlyRFC6962(i: nat, selected: array<bool>, e: seq<Log>, sr: Request) returns (only: bool)
    requires selected.Length == |e| && i < |e|
    ensures var c := Chosen(selected[..]);
            only <==> sr.requireRFC6962 && e[i].logType == RFC6962 && !Q.HasType(e, c - {i}, RFC6962)
  {
    ghost var c := Chosen(selected[..]);
    if !(sr.requireRFC6962 && e[i].logType == RFC6962) { return false; }
    for j := 0 to |e|
      invariant forall k | k in c - {i} && k < j :: e[k].logType != RFC6962
    {
      if j != i && selected[j] && e[j].logType == RFC6962 {
        assert j in c - {i} && e[j].logType == RFC6962;
        return false;
      }
    }
    return true;
  }

  /** Phase 4: fill the remaining slots in arrival order. */
  method Fill(selected: array<bool>, sr: Request, count: nat)
    requires count == |Chosen(selected[..])|
    modifies selected
    ensures Chosen(selected[..]) == T.Filled(selected.Length, old(Chosen(selected[..])), 0, sr.scts)
  {
    ghost var c := Chosen(selected[..]);
    var n, i := count, 0;
    while i < selected.Length && n < sr.scts
      invariant i <= selected.Length
      invariant n == |Chosen(selected[..])|
      invariant T.Filled(selected.Length, c, 0, sr.scts) == T.Filled(selected.Length, Chosen(selected[..]), i, sr.scts)
    {
      ghost var before := Chosen(selected[..]);
      if !selected[i] {
        n := Select(selected, i, n);
      }
      assert Chosen(selected[..]) == before + {i};
      i := i + 1;
    }
  }

  ghost function Chosen(selected: seq<bool>): (c: set<nat>)
    ensures Under(c, |selected|)
  {
    set i: nat | i < |selected| && selected[i]
  }

  lemma ChosenUpdate(selected: seq<bool>, i: nat, b: bool)
    requires i < |selected|
    ensures Chosen(selected[i := b]) == if b then Chosen(selected) + {i} else Chosen(selected) - {i}
  {
  }

  /** Every collected entry that is not selected is marked as not needed. */
  ghost function MarkDropped(outcome: seq<Outcome>, indices: seq<nat>, c: set<nat>): (r: seq<Outcome>)
    requires forall k | 0 <= k < |indices| :: indices[k] < |outcome|
    ensures |r| == |outcome|
  {
    if indices == [] then outcome
    else
      var n := |indices| - 1;
      var o := MarkDropped(outcome, indices[..n], c);
      if n in c then o else o[indices[n] := NotNeeded]
  }

  ghost function TrimOutcomes(outcome: seq<Outcome>, q: Q.Quorum, logs: seq<Log>, sr: Request): (r: seq<Outcome>)
    requires |outcome| == |logs|
    requires forall k | 0 <= k < |q.indices| :: q.indices[k] < |logs|
    requires Q.InRange(logs, Q.Indices(q))
    ensures |r| == |outcome|
  {
    if |q.responses| <= sr.scts then outcome
    else MarkDropped(outcome, q.indices, T.Selection(T.Entries(q, logs), sr))
  }
}
