/**
  What `trimToQuorum` selects. The entries are the logs behind the collected SCTs, in arrival
  order; a selection is a set of positions in that list. The four phases of the source are
  four functions on selections, and `TrimKeepsQuorum` says what the last one guarantees.
 */
module Trim {
  import opened Logs
  import opened Finite
  import opened Quorum
  import opened KeepLaw

  /** Phase 1, after the first `n` entries: one entry per operator, stopping at `scts`. */
  ghost function Diverse(e: seq<Log>, n: nat, scts: int): (c: set<nat>)
    requires n <= |e|
    ensures Under(c, n)
  {
    if n == 0 then {} else PickIfNew(e, Diverse(e, n - 1, scts), n - 1, scts)
  }

  ghost function PickIfNew(e: seq<Log>, c: set<nat>, i: nat, scts: int): set<nat>
    requires InRange(e, c) && i < |e|
  {
    if |c| < scts && e[i].operator !in Operators(e, c) then c + {i} else c
  }

  ghost predicate CanDropSafely(e: seq<Log>, c: set<nat>, i: nat, sr: Request)
    requires InRange(e, c) && i < |e|
  {
    || (exists j | j in c :: j != i && e[j].operator == e[i].operator)
    || |Operators(e, c - {i})| >= sr.operators
  }

  ghost function AddFirst(c: set<nat>, from: set<nat>): set<nat> {
    if from == {} then c else c + {MinOf(from)}
  }

  ghost function DropLast(c: set<nat>, from: set<nat>): set<nat> {
    if from == {} then c else c - {MaxOf(from)}
  }

  ghost function Unselected(e: seq<Log>, c: set<nat>, t: LogType): set<nat> {
    set i: nat | i < |e| && i !in c && e[i].logType == t
  }

  /** Entries that may make way for a required RFC6962 SCT. */
  ghost function DropForRFC6962(e: seq<Log>, c: set<nat>, sr: Request): set<nat>
    requires InRange(e, c)
  {
    set i | i in c && e[i].logType != RFC6962 && CanDropSafely(e, c, i, sr)
  }

  /** Entries that may make way for a preferred Static SCT. */
  ghost function DropForStatic(e: seq<Log>, c: set<nat>, sr: Request): set<nat>
    requires InRange(e, c)
  {
    set i | i in c
      && !(sr.requireRFC6962 && e[i].logType == RFC6962 && !HasType(e, c - {i}, RFC6962))
      && e[i].logType != Static && CanDropSafely(e, c, i, sr)
  }

  /** Phase 2: swap in an RFC6962 entry if one is required and none is selected. */
  ghost function WithRFC6962(e: seq<Log>, c: set<nat>, sr: Request): (c': set<nat>)
    requires InRange(e, c)
    ensures InRange(e, c')
  {
    if !sr.requireRFC6962 || HasType(e, c, RFC6962) then c
    else
      var added := AddFirst(c, Unselected(e, c, RFC6962));
      if |added| > sr.scts then DropLast(added, DropForRFC6962(e, added, sr)) else added
  }

  /** Phase 3: swap in a Static entry if one is preferred and none is selected. */
  ghost function WithStatic(e: seq<Log>, c: set<nat>, sr: Request): (c': set<nat>)
    requires InRange(e, c)
    ensures InRange(e, c')
  {
    if !sr.preferStatic || HasType(e, c, Static) then c
    else
      var added := AddFirst(c, Unselected(e, c, Static));
      if |added| > sr.scts then DropLast(added, DropForStatic(e, added, sr)) else added
  }

  /** Phase 4: fill the remaining slots in arrival order, from position `i` on. */
  ghost function Filled(n: nat, c: set<nat>, i: nat, scts: int): (c': set<nat>)
    requires i <= n
    requires Under(c, n)
    ensures c <= c' && Under(c', n)
    decreases n - i
  {
    if i == n || |c| >= scts then c else Filled(n, c + {i}, i + 1, scts)
  }

  ghost function Selection(e: seq<Log>, sr: Request): (c: set<nat>)
    ensures Under(c, |e|)
  {
    var c1 := Diverse(e, |e|, sr.scts);
    Filled(|e|, WithStatic(e, WithRFC6962(e, c1, sr), sr), 0, sr.scts)
  }

  // ---- Phase 1 ----

  /** One entry per operator, as many as there are operators or slots. */
  ghost predicate Covers(e: seq<Log>, c: set<nat>, n: nat, scts: int)
    requires n <= |e|
  {
    && Under(c, n)
    && |c| == |Operators(e, c)| <= scts
    && (|c| < scts ==> Operators(e, c) == Operators(e, Below(n)))
  }

  lemma OperatorsNext(e: seq<Log>, i: nat)
    requires i < |e|
    ensures Operators(e, Below(i + 1)) == Operators(e, Below(i)) + {e[i].operator}
  {
    assert Below(i + 1) == Below(i) + {i};
    AddOperator(e, Below(i), i);
  }

  lemma PickNew(e: seq<Log>, c: set<nat>, i: nat)
    requires i < |e| && Under(c, i) && |c| == |Operators(e, c)| && e[i].operator !in Operators(e, c)
    ensures |c + {i}| == |Operators(e, c + {i})| == |c| + 1
    ensures Operators(e, c + {i}) == Operators(e, c) + {e[i].operator}
  {
    AddOperator(e, c, i);
    assert i !in c;
  }

  lemma PickCovers(e: seq<Log>, c: set<nat>, i: nat, scts: int)
    requires i < |e| && Covers(e, c, i, scts)
    ensures Covers(e, PickIfNew(e, c, i, scts), i + 1, scts)
  {
    OperatorsNext(e, i);
    if |c| < scts && e[i].operator !in Operators(e, c) {
      PickNew(e, c, i);
    }
  }

  lemma {:induction false} DiverseCovers(e: seq<Log>, n: nat, scts: nat)
    requires n <= |e|
    ensures Covers(e, Diverse(e, n, scts), n, scts)
  {
    if n == 0 {
      assert Operators(e, {}) == {};
    } else {
      DiverseCovers(e, n - 1, scts);
      PickCovers(e, Diverse(e, n - 1, scts), n - 1, scts);
    }
  }

  // ---- Phases 2 and 3: the drop searches succeed ----

  /** What a selection must still guarantee after every phase. */
  ghost predicate Diversified(e: seq<Log>, c: set<nat>, sr: Request) {
    InRange(e, c) && |Operators(e, c)| >= sr.operators
  }

  /** Dropping an entry that is safe to drop keeps the operators diverse. */
  lemma DropIsSafe(e: seq<Log>, c: set<nat>, i: nat, sr: Request)
    requires Diversified(e, c, sr) && i in c && CanDropSafely(e, c, i, sr)
    ensures Diversified(e, c - {i}, sr)
  {
    if exists j | j in c :: j != i && e[j].operator == e[i].operator {
      assert Operators(e, c) == Operators(e, c - {i}) by {
        forall o | o in Operators(e, c) ensures o in Operators(e, c - {i}) {
          var k :| k in c && e[k].operator == o;
          if k == i {
            var j :| j in c && j != i && e[j].operator == o;
            assert j in c - {i};
          } else {
            assert k in c - {i};
          }
        }
      }
    }
  }

  /**
    In a selection of more than `operators` entries some entry other than a given `x` is safe to drop.
   */
  lemma SomeDropIsSafe(e: seq<Log>, c: set<nat>, x: nat, sr: Request) returns (i: nat)
    requires InRange(e, c) && x in c && |c| > sr.operators && |c| > 1
    ensures i in c && i != x && CanDropSafely(e, c, i, sr)
  {
    if k, j :| k in c && j in c && k != j && e[k].operator == e[j].operator {
      i := if k == x then j else k;
    } else {
      if c - {x} == {} { SubsetSize(c, {x}); }
      i :| i in c - {x};
      var rest := c - {i};
      InjectiveSize(e, rest);
    }
  }

  lemma InjectiveSize(e: seq<Log>, c: set<nat>)
    requires InRange(e, c)
    requires forall k, j | k in c && j in c && k != j :: e[k].operator != e[j].operator
    ensures |Operators(e, c)| == |c|
    decreases c
  {
    if c != {} {
      var i :| i in c;
      InjectiveSize(e, c - {i});
      AddOperator(e, c - {i}, i);
      assert c == (c - {i}) + {i};
      assert e[i].operator !in Operators(e, c - {i});
    }
  }

  lemma AddKeeps(e: seq<Log>, c: set<nat>, x: nat, sr: Request)
    requires Diversified(e, c, sr) && x < |e| && x !in c
    ensures Diversified(e, c + {x}, sr) && |c + {x}| == |c| + 1
  {
    AddOperator(e, c, x);
    SubsetSize(Operators(e, c), Operators(e, c + {x}));
  }

  /** The drop search after an RFC6962 entry `x` overflowed a selection without one. */
  lemma RFC6962Drop(e: seq<Log>, c: set<nat>, x: nat, sr: Request)
    requires Diversified(e, c, sr) && |c| == sr.scts + 1
    requires 1 <= sr.operators <= sr.scts
    requires x in c && forall i | i in c :: e[i].logType == RFC6962 <==> i == x
    ensures var c' := DropLast(c, DropForRFC6962(e, c, sr));
            && Diversified(e, c', sr) && |c'| == sr.scts && x in c'
  {
    var i := SomeDropIsSafe(e, c, x, sr);
    assert i in DropForRFC6962(e, c, sr);
    var dropped := MaxOf(DropForRFC6962(e, c, sr));
    DropIsSafe(e, c, dropped, sr);
  }

  lemma RFC6962Added(e: seq<Log>, c: set<nat>, x: nat, sr: Request)
    requires Diversified(e, c, sr) && |c| <= sr.scts
    requires 1 <= sr.operators <= sr.scts
    requires !HasType(e, c, RFC6962) && x < |e| && x !in c && e[x].logType == RFC6962
    ensures var added := c + {x};
            var c' := if |added| > sr.scts then DropLast(added, DropForRFC6962(e, added, sr)) else added;
            && Diversified(e, c', sr) && |c'| <= sr.scts && x in c'
  {
    AddKeeps(e, c, x, sr);
    if |c| == sr.scts {
      RFC6962Drop(e, c + {x}, x, sr);
    }
  }

  /** Phase 2 keeps diversity, stays within the slots, and selects an RFC6962 entry. */
  lemma WithRFC6962Keeps(e: seq<Log>, c: set<nat>, sr: Request)
    requires Diversified(e, c, sr) && |c| <= sr.scts
    requires 1 <= sr.operators <= sr.scts
    requires sr.requireRFC6962 ==> HasType(e, Below(|e|), RFC6962)
    ensures var c' := WithRFC6962(e, c, sr);
            && Diversified(e, c', sr) && |c'| <= sr.scts
            && (sr.requireRFC6962 ==> HasType(e, c', RFC6962))
  {
    if sr.requireRFC6962 && !HasType(e, c, RFC6962) {
      var k :| k in Below(|e|) && e[k].logType == RFC6962;
      var from := Unselected(e, c, RFC6962);
      assert k in from;
      RFC6962Added(e, c, MinOf(from), sr);
    }
  }

  /** The one case in which the trimmed result exceeds the requested count. */
  ghost predicate KeepsBothTypes(e: seq<Log>, sr: Request) {
    sr.scts == 1 && sr.requireRFC6962 && sr.preferStatic && HasType(e, Below(|e|), Static)
  }

  /** Phase 3 keeps diversity and the RFC6962 entry, and selects a Static entry if there is one. */
  lemma WithStaticKeeps(e: seq<Log>, c: set<nat>, sr: Request)
    requires Diversified(e, c, sr) && |c| <= sr.scts
    requires 1 <= sr.operators <= sr.scts
    requires sr.requireRFC6962 ==> HasType(e, c, RFC6962)
    ensures var c' := WithStatic(e, c, sr);
            && Diversified(e, c', sr)
            && (sr.requireRFC6962 ==> HasType(e, c', RFC6962))
            && (sr.preferStatic && HasType(e, Below(|e|), Static) ==> HasType(e, c', Static))
            && (if KeepsBothTypes(e, sr) then |c'| == 2 else |c'| <= sr.scts)
  {
    if sr.preferStatic && HasType(e, c, Static) {
      if KeepsBothTypes(e, sr) {
        var r :| r in c && e[r].logType == RFC6962;
        var s :| s in c && e[s].logType == Static;
        SubsetSize({r, s}, c);
      }
    } else if sr.preferStatic && HasType(e, Below(|e|), Static) {
      var k :| k in Below(|e|) && e[k].logType == Static;
      var from := Unselected(e, c, Static);
      assert k in from;
      StaticAdded(e, c, MinOf(from), sr);
    } else if sr.preferStatic {
      assert Unselected(e, c, Static) == {};
    }
  }

  lemma StaticAdded(e: seq<Log>, c: set<nat>, x: nat, sr: Request)
    requires Diversified(e, c, sr) && |c| <= sr.scts
    requires 1 <= sr.operators <= sr.scts
    requires !HasType(e, c, Static) && x < |e| && x !in c && e[x].logType == Static
    requires sr.requireRFC6962 ==> HasType(e, c, RFC6962)
    ensures var added := c + {x};
            var c' := if |added| > sr.scts then DropLast(added, DropForStatic(e, added, sr)) else added;
            && Diversified(e, c', sr) && x in c'
            && (sr.requireRFC6962 ==> HasType(e, c', RFC6962))
            && (if sr.scts == 1 && sr.requireRFC6962 then |c'| == 2 else |c'| <= sr.scts)
  {
    AddKeeps(e, c, x, sr);
    if |c| == sr.scts {
      StaticDrop(e, c, x, sr);
    } else if sr.requireRFC6962 {
      var r :| r in c && e[r].logType == RFC6962;
      SubsetSize({r}, c);
    }
  }

  /** With a single slot, the only RFC6962 entry never makes way, and both types stay. */
  lemma OnlyEntryStays(e: seq<Log>, c: set<nat>, x: nat, sr: Request)
    requires InRange(e, c + {x}) && |c| == 1 && sr.requireRFC6962
    requires forall i | i in c :: e[i].logType == RFC6962
    requires x !in c && e[x].logType == Static
    ensures DropForStatic(e, c + {x}, sr) == {}
  {
    var r :| r in c;
    assert c == {r} by { SubsetSize({r}, c); }
    assert (c + {x}) - {r} == {x};
  }

  /** Otherwise some entry other than the Static one can make way. */
  lemma SomeEntryMakesWay(e: seq<Log>, c: set<nat>, x: nat, sr: Request) returns (i: nat)
    requires InRange(e, c + {x}) && |c| == sr.scts && 1 <= sr.operators <= sr.scts
    requires forall i | i in c :: e[i].logType == RFC6962
    requires x !in c && e[x].logType == Static && (sr.requireRFC6962 ==> sr.scts > 1)
    ensures i in DropForStatic(e, c + {x}, sr)
  {
    i := SomeDropIsSafe(e, c + {x}, x, sr);
    if sr.requireRFC6962 {
      if c - {i} == {} { SubsetSize(c, {i}); }
      var j :| j in c - {i};
      assert j in (c + {x}) - {i};
    }
  }

  /** The drop search after a Static entry `x` overflowed a selection of RFC6962 entries. */
  lemma StaticDrop(e: seq<Log>, c: set<nat>, x: nat, sr: Request)
    requires Diversified(e, c, sr) && |c| == sr.scts
    requires 1 <= sr.operators <= sr.scts
    requires !HasType(e, c, Static) && x < |e| && x !in c && e[x].logType == Static
    requires Diversified(e, c + {x}, sr)
    requires sr.requireRFC6962 ==> HasType(e, c, RFC6962)
    ensures var c' := DropLast(c + {x}, DropForStatic(e, c + {x}, sr));
            && InRange(e, c') && Diversified(e, c', sr)
            && x in c'
            && (sr.requireRFC6962 ==> HasType(e, c', RFC6962))
            && (if sr.scts == 1 && sr.requireRFC6962 then c' == c + {x} else |c'| == sr.scts)
  {
    var added := c + {x};
    var from := DropForStatic(e, added, sr);
    forall i | i in c ensures e[i].logType == RFC6962 {
      assert e[i].logType != Static;
    }
    if sr.scts == 1 && sr.requireRFC6962 {
      OnlyEntryStays(e, c, x, sr);
      GrowKeepsTypes(e, c, added);
    } else {
      var i := SomeEntryMakesWay(e, c, x, sr);
      var dropped := MaxOf(from);
      DropIsSafe(e, added, dropped, sr);
      if sr.requireRFC6962 {
        assert HasType(e, added - {dropped}, RFC6962);
      }
    }
  }

  // ---- Phase 4 and the whole ----

  lemma {:induction false} FilledSize(n: nat, c: set<nat>, i: nat, scts: nat)
    requires i <= n && Under(c, n) && Below(i) <= c && |c| <= scts <= n
    ensures |Filled(n, c, i, scts)| == scts
    decreases n - i
  {
    if |c| < scts {
      if i == n {
        BelowSize(n);
        SubsetSize(Below(n), c);
      } else {
        FilledSize(n, c + {i}, i + 1, scts);
      }
    }
  }

  /**
    Trimming any collection that meets the quorum leaves a quorum. It has exactly `scts`
    entries, unless a single SCT was asked for with both type flags set and a Static SCT was
    collected: then it keeps one of each type.
   */
  lemma TrimKeepsQuorum(e: seq<Log>, sr: Request)
    requires 1 <= sr.operators <= sr.scts < |e|
    requires Satisfies(e, Below(|e|), sr)
    ensures var c := Selection(e, sr);
            && InRange(e, c)
            && Satisfies(e, c, sr)
            && (sr.preferStatic && HasType(e, Below(|e|), Static) ==> HasType(e, c, Static))
            && |c| == if KeepsBothTypes(e, sr) then 2 else sr.scts
  {
    var c1 := Diverse(e, |e|, sr.scts);
    DiverseCovers(e, |e|, sr.scts);
    var c2 := WithRFC6962(e, c1, sr);
    WithRFC6962Keeps(e, c1, sr);
    var c3 := WithStatic(e, c2, sr);
    WithStaticKeeps(e, c2, sr);
    var c := Filled(|e|, c3, 0, sr.scts);
    if !KeepsBothTypes(e, sr) { FilledSize(|e|, c3, 0, sr.scts); }
    SubsetSize(Operators(e, c3), Operators(e, c));
    GrowKeepsTypes(e, c3, c);
  }

  /** The elements of `s` at the selected positions, in order. */
  function Keep<T>(s: seq<T>, c: set<nat>): (r: seq<T>)
    ensures |r| <= |s|
  {
    if s == [] then []
    else
      var n := |s| - 1;
      Keep(s[..n], c) + if n in c then [s[n]] else []
  }

  lemma PicksOne<T>(s: seq<T>, r: seq<T>, c: set<nat>, n: nat, k: nat)
    requires n < |s| && n !in c && Under(c, n) && Picks(s[..n], r, c) && k in c + {n}
    ensures |Earlier(c + {n}, k)| < |r| + 1 && (r + [s[n]])[|Earlier(c + {n}, k)|] == s[k]
  {
    assert Earlier(c + {n}, k) == if k == n then c else Earlier(c, k);
  }

  lemma PicksSnoc<T>(s: seq<T>, r: seq<T>, c: set<nat>, n: nat)
    requires n < |s| && n !in c && Under(c, n) && Picks(s[..n], r, c)
    ensures Picks(s, r + [s[n]], c + {n})
  {
    forall k | k in c + {n}
      ensures k < |s| && |Earlier(c + {n}, k)| < |r| + 1 && (r + [s[n]])[|Earlier(c + {n}, k)|] == s[k]
    {
      PicksOne(s, r, c, n, k);
    }
  }

  /** Keeping positions picks the elements there. */
  lemma {:induction false} KeepPicks<T>(s: seq<T>, c: set<nat>)
    requires Under(c, |s|)
    ensures Picks(s, Keep(s, c), c)
  {
    if s != [] {
      var n := |s| - 1;
      KeepPicks(s[..n], c - {n});
      KeepBelow(s[..n], c, c - {n});
      if n in c {
        PicksSnoc(s, Keep(s[..n], c), c - {n}, n);
        assert c - {n} + {n} == c;
      } else {
        assert c - {n} == c;
      }
    }
  }

  // ---- Which entries are kept ----

  lemma {:induction false} DiverseLeads(e: seq<Log>, n: nat, scts: nat)
    requires n <= |e|
    ensures forall i: nat :: i in Diverse(e, n, scts) <==> i < n && HasOperatorSlot(e, i, scts)
    ensures |Diverse(e, n, scts)| < scts ==> Diverse(e, n, scts) == Leaders(e, n)
  {
    if n > 0 {
      DiverseLeads(e, n - 1, scts);
      DiverseCovers(e, n - 1, scts);
      PickLeads(e, Diverse(e, n - 1, scts), n - 1, scts);
    } else {
      assert Leaders(e, 0) == {};
    }
  }

  lemma SlotIfPicked(e: seq<Log>, c: set<nat>, i: nat, scts: nat)
    requires i < |e| && Covers(e, c, i, scts) && c <= Leaders(e, i)
    requires |c| < scts ==> c == Leaders(e, i)
    ensures HasOperatorSlot(e, i, scts) <==> |c| < scts && e[i].operator !in Operators(e, c)
  {
    SubsetSize(c, Leaders(e, i));
    LeadsIfNew(e, i);
  }

  lemma SlotsNext(e: seq<Log>, c: set<nat>, c': set<nat>, i: nat, scts: nat)
    requires i < |e| && c' == if HasOperatorSlot(e, i, scts) then c + {i} else c
    requires forall j: nat :: j in c <==> j < i && HasOperatorSlot(e, j, scts)
    requires |c| < scts ==> c == Leaders(e, i)
    ensures forall j: nat :: j in c' <==> j < i + 1 && HasOperatorSlot(e, j, scts)
    ensures |c'| < scts ==> c' == Leaders(e, i + 1)
  {
    LeadersNext(e, i);
    SubsetSize(c, c');
  }

  lemma PickLeads(e: seq<Log>, c: set<nat>, i: nat, scts: nat)
    requires i < |e| && Covers(e, c, i, scts)
    requires forall j: nat :: j in c <==> j < i && HasOperatorSlot(e, j, scts)
    requires |c| < scts ==> c == Leaders(e, i)
    ensures forall j: nat :: j in PickIfNew(e, c, i, scts) <==> j < i + 1 && HasOperatorSlot(e, j, scts)
    ensures |PickIfNew(e, c, i, scts)| < scts ==> PickIfNew(e, c, i, scts) == Leaders(e, i + 1)
  {
    assert c <= Leaders(e, i);
    SlotIfPicked(e, c, i, scts);
    SlotsNext(e, c, PickIfNew(e, c, i, scts), i, scts);
  }

  lemma LeadersNext(e: seq<Log>, i: nat)
    requires i < |e|
    ensures Leaders(e, i + 1) == Leaders(e, i) + if Leads(e, i) then {i} else {}
  {
  }

  lemma LeadsIfNew(e: seq<Log>, i: nat)
    requires i < |e|
    ensures Leads(e, i) <==> e[i].operator !in Operators(e, Below(i))
  {
    if e[i].operator !in Operators(e, Below(i)) {
      forall j: nat | j < i ensures e[j].operator != e[i].operator {
        assert j in Below(i);
      }
    }
  }

  lemma SlotsAreTaken(e: seq<Log>, a: set<nat>, b: set<nat>, n: nat, m: nat, scts: nat)
    requires n <= m <= |e| && |a| >= scts
    requires forall i: nat :: i in a <==> i < n && HasOperatorSlot(e, i, scts)
    requires forall i: nat :: i in b <==> i < m && HasOperatorSlot(e, i, scts)
    ensures a == b
  {
    forall i | i in b ensures i in a {
      if i >= n {
        assert a <= Leaders(e, i);
        SubsetSize(a, Leaders(e, i));
      }
    }
  }

  lemma {:induction false} NoSlotsNoPicks(e: seq<Log>, n: nat, scts: int)
    requires n <= |e| && scts < 0
    ensures Diverse(e, n, scts) == {}
  {
    if n > 0 {
      NoSlotsNoPicks(e, n - 1, scts);
    }
  }

  /** Once every slot is taken, scanning the rest of the entries changes nothing. */
  lemma DiverseStaysFull(e: seq<Log>, n: nat, m: nat, scts: int)
    requires n <= m <= |e| && |Diverse(e, n, scts)| >= scts
    ensures Diverse(e, m, scts) == Diverse(e, n, scts)
  {
    if scts < 0 {
      NoSlotsNoPicks(e, n, scts);
      NoSlotsNoPicks(e, m, scts);
    } else {
      DiverseLeads(e, n, scts);
      DiverseLeads(e, m, scts);
      SlotsAreTaken(e, Diverse(e, n, scts), Diverse(e, m, scts), n, m, scts);
    }
  }

  lemma FirstUnselected(e: seq<Log>, c: set<nat>, t: LogType)
    requires InRange(e, c) && !HasType(e, c, t)
    ensures Unselected(e, c, t) == {} <==> !HasType(e, Below(|e|), t)
    ensures Unselected(e, c, t) != {} ==> FirstOfType(e, MinOf(Unselected(e, c, t)), t)
  {
    var from := Unselected(e, c, t);
    forall j: nat | j < |e| && e[j].logType == t ensures j in from && j in Below(|e|) {
    }
    if from != {} {
      assert MinOf(from) in Below(|e|);
    }
  }

  lemma DropMakesRoom(e: seq<Log>, c: set<nat>, from: set<nat>, t: LogType, sr: Request)
    requires InRange(e, c) && forall d :: d in from <==> MakesWay(e, c, d, t, sr)
    ensures MadeRoom(e, c, if |c| > sr.scts then DropLast(c, from) else c, t, sr)
  {
    if |c| > sr.scts && from != {} {
      assert LastToMakeWay(e, c, MaxOf(from), t, sr);
    }
  }

  lemma RFC6962MakesRoom(e: seq<Log>, c: set<nat>, sr: Request)
    requires InRange(e, c)
    ensures MadeRoom(e, c, if |c| > sr.scts then DropLast(c, DropForRFC6962(e, c, sr)) else c, RFC6962, sr)
  {
    DropMakesRoom(e, c, DropForRFC6962(e, c, sr), RFC6962, sr);
  }

  lemma RFC6962SwapsIn(e: seq<Log>, c: set<nat>, sr: Request)
    requires InRange(e, c)
    ensures SwappedIn(e, c, WithRFC6962(e, c, sr), sr.requireRFC6962, RFC6962, sr)
  {
    if sr.requireRFC6962 && !HasType(e, c, RFC6962) {
      FirstUnselected(e, c, RFC6962);
      var added := AddFirst(c, Unselected(e, c, RFC6962));
      RFC6962MakesRoom(e, added, sr);
    }
  }

  lemma StaticMakesRoom(e: seq<Log>, c: set<nat>, sr: Request)
    requires InRange(e, c)
    ensures MadeRoom(e, c, if |c| > sr.scts then DropLast(c, DropForStatic(e, c, sr)) else c, Static, sr)
  {
    DropMakesRoom(e, c, DropForStatic(e, c, sr), Static, sr);
  }

  lemma StaticSwapsIn(e: seq<Log>, c: set<nat>, sr: Request)
    requires InRange(e, c)
    ensures SwappedIn(e, c, WithStatic(e, c, sr), sr.preferStatic, Static, sr)
  {
    if sr.preferStatic && !HasType(e, c, Static) {
      FirstUnselected(e, c, Static);
      var added := AddFirst(c, Unselected(e, c, Static));
      StaticMakesRoom(e, added, sr);
    }
  }

  lemma InOrderFromNext(c: set<nat>, c': set<nat>, i: nat)
    requires Below(i) <= c <= c' && i in c' && InOrder(c + {i}, c')
    ensures InOrder(c, c')
  {
    forall a: nat, b: nat | a in c' && a !in c && b < a ensures b in c' {
      if a == i {
        assert b in Below(i);
      }
    }
  }

  lemma {:induction false} FilledInOrder(n: nat, c: set<nat>, i: nat, scts: int)
    requires i <= n && Under(c, n) && Below(i) <= c
    ensures InOrder(c, Filled(n, c, i, scts))
    decreases n - i
  {
    if i < n && |c| < scts {
      FilledInOrder(n, c + {i}, i + 1, scts);
      InOrderFromNext(c, Filled(n, c + {i}, i + 1, scts), i);
    }
  }

  lemma FilledIsFilledUp(n: nat, c: set<nat>, scts: int)
    requires Under(c, n) && scts <= n
    ensures FilledUp(c, Filled(n, c, 0, scts), scts)
  {
    FilledInOrder(n, c, 0, scts);
    if |c| <= scts { FilledSize(n, c, 0, scts); }
  }

  /** The four phases select what has to be kept. */
  lemma SelectionKeepsRight(e: seq<Log>, sr: Request)
    requires 0 <= sr.scts <= |e|
    ensures KeepsRight(e, Selection(e, sr), sr)
  {
    var c1 := Diverse(e, |e|, sr.scts);
    DiverseLeads(e, |e|, sr.scts);
    var c2 := WithRFC6962(e, c1, sr);
    RFC6962SwapsIn(e, c1, sr);
    var c3 := WithStatic(e, c2, sr);
    StaticSwapsIn(e, c2, sr);
    FilledIsFilledUp(|e|, c3, sr.scts);
    assert Phases(e, c1, c2, c3, Selection(e, sr), sr);
  }

  function Entries(q: Quorum, logs: seq<Log>): seq<Log>
    requires InRange(logs, Indices(q))
  {
    seq(|q.indices|, k requires 0 <= k < |q.indices| => IndexInRange(q, logs, k); logs[q.indices[k]])
  }

  lemma IndexInRange(q: Quorum, logs: seq<Log>, k: nat)
    requires InRange(logs, Indices(q)) && k < |q.indices|
    ensures q.indices[k] < |logs|
  {
    assert q.indices[k] in Indices(q);
  }

  /** The state after trimming. Its operator set and type flags are left as they were. */
  ghost function TrimToQuorum(q: Quorum, logs: seq<Log>, sr: Request): Quorum
    requires InRange(logs, Indices(q))
  {
    if |q.responses| <= sr.scts then q
    else
      var c := Selection(Entries(q, logs), sr);
      q.(indices := Keep(q.indices, c), responses := Keep(q.responses, c), scts := Keep(q.scts, c))
  }

  ghost function At(s: seq<nat>, c: set<nat>): set<nat>
    requires Under(c, |s|)
  {
    set k | k in c :: s[k]
  }

  lemma {:induction false} KeepElements(s: seq<nat>, c: set<nat>)
    requires Under(c, |s|)
    ensures Elements(Keep(s, c)) == At(s, c)
  {
    if s != [] {
      var n := |s| - 1;
      var init, c0 := s[..n], c - {n};
      KeepElements(init, c0);
      KeepBelow(init, c, c0);
      assert At(s, c) == At(init, c0) + if n in c then {s[n]} else {};
      if n in c {
        LastElement(Keep(s, c));
        assert Keep(s, c)[..|Keep(s, c)| - 1] == Keep(init, c);
      } else {
        assert Keep(s, c) == Keep(init, c);
      }
    } else {
      assert c == {};
    }
  }

  lemma {:induction false} KeepBelow<T>(s: seq<T>, c: set<nat>, c': set<nat>)
    requires forall k | k in Below(|s|) :: k in c <==> k in c'
    ensures Keep(s, c) == Keep(s, c')
  {
    if s != [] {
      KeepBelow(s[..|s| - 1], c, c');
      assert |s| - 1 in Below(|s|);
    }
  }

  lemma {:induction false} KeepSize<T>(s: seq<T>, c: set<nat>)
    requires Under(c, |s|)
    ensures |Keep(s, c)| == |c|
  {
    if s != [] {
      var n := |s| - 1;
      KeepSize(s[..n], c - {n});
      KeepBelow(s[..n], c, c - {n});
    }
  }

  lemma {:induction false} KeepDistinct(s: seq<nat>, c: set<nat>)
    requires Under(c, |s|) && Distinct(s)
    ensures Distinct(Keep(s, c))
  {
    if s != [] {
      var n := |s| - 1;
      KeepDistinct(s[..n], c - {n});
      KeepBelow(s[..n], c, c - {n});
      KeepElements(s[..n], c - {n});
      forall k | 0 <= k < |Keep(s[..n], c)| ensures Keep(s[..n], c)[k] != s[n] {
        assert Keep(s[..n], c)[k] in At(s[..n], c - {n});
      }
    }
  }

  /** Positions in the entry list and the logs they stand for satisfy the same policy. */
  lemma EntriesAreLogs(q: Quorum, logs: seq<Log>, c: set<nat>)
    requires Valid(q, logs) && Under(c, |q.indices|)
    ensures var e, ids := Entries(q, logs), At(q.indices, c);
            && InRange(logs, ids) && InRange(e, c)
            && ids <= Indices(q)
            && |ids| == |c|
            && Operators(e, c) == Operators(logs, ids)
            && (forall t :: HasType(e, c, t) <==> HasType(logs, ids, t))
  {
    var e, ids := Entries(q, logs), At(q.indices, c);
    KeepElements(q.indices, c);
    KeepDistinct(q.indices, c);
    KeepSize(q.indices, c);
    DistinctSize(Keep(q.indices, c));
    forall i | i in ids ensures i in Indices(q) && i < |logs| {
      var k :| k in c && q.indices[k] == i;
    }
    SameOperators(q, logs, c);
    SameTypes(q, logs, c);
  }

  lemma SameOperators(q: Quorum, logs: seq<Log>, c: set<nat>)
    requires Valid(q, logs) && Under(c, |q.indices|)
    requires InRange(logs, At(q.indices, c))
    ensures Operators(Entries(q, logs), c) == Operators(logs, At(q.indices, c))
  {
    var e, ids := Entries(q, logs), At(q.indices, c);
    forall o | o in Operators(e, c) ensures o in Operators(logs, ids) {
      var k :| k in c && e[k].operator == o;
      assert q.indices[k] in ids;
    }
    forall o | o in Operators(logs, ids) ensures o in Operators(e, c) {
      var i :| i in ids && logs[i].operator == o;
      var k :| k in c && q.indices[k] == i;
      assert e[k].operator == o;
    }
  }

  lemma SameTypes(q: Quorum, logs: seq<Log>, c: set<nat>)
    requires Valid(q, logs) && Under(c, |q.indices|)
    requires InRange(logs, At(q.indices, c))
    ensures forall t :: HasType(Entries(q, logs), c, t) <==> HasType(logs, At(q.indices, c), t)
  {
    var e, ids := Entries(q, logs), At(q.indices, c);
    forall t ensures HasType(e, c, t) <==> HasType(logs, ids, t) {
      if HasType(e, c, t) {
        var k :| k in c && e[k].logType == t;
        assert q.indices[k] in ids;
      }
      if HasType(logs, ids, t) {
        var i :| i in ids && logs[i].logType == t;
        var k :| k in c && q.indices[k] == i;
        assert e[k].logType == t;
      }
    }
  }

  lemma AllEntries(q: Quorum)
    ensures At(q.indices, Below(|q.indices|)) == Indices(q)
  {
    forall i | i in Indices(q) ensures i in At(q.indices, Below(|q.indices|)) {
      var k :| 0 <= k < |q.indices| && q.indices[k] == i;
      assert k in Below(|q.indices|);
    }
  }

  lemma BothTypesTakeTwo(q: Quorum, logs: seq<Log>)
    requires Valid(q, logs)
    requires HasType(logs, Indices(q), RFC6962) && HasType(logs, Indices(q), Static)
    ensures |q.responses| >= 2
  {
    var r :| r in Indices(q) && logs[r].logType == RFC6962;
    var s :| s in Indices(q) && logs[s].logType == Static;
    assert r < |logs| && s < |logs|;
    SubsetSize({r, s}, Indices(q));
  }

  /** Trimming leaves the state alone, or leaves exactly the entries that have to be kept, in their order. */
  ghost predicate TrimsRight(q: Quorum, q': Quorum, logs: seq<Log>, sr: Request)
    requires InRange(logs, Indices(q))
  {
    if |q.responses| <= sr.scts then q' == q
    else exists kept ::
        && KeepsRight(Entries(q, logs), kept, sr)
        && Picks(q.indices, q'.indices, kept) && Picks(q.responses, q'.responses, kept) && Picks(q.scts, q'.scts, kept)
  }

  lemma TrimIsRight(q: Quorum, logs: seq<Log>, sr: Request)
    requires InRange(logs, Indices(q)) && |q.indices| == |q.responses| == |q.scts| && 0 <= sr.scts
    ensures TrimsRight(q, TrimToQuorum(q, logs, sr), logs, sr)
  {
    if |q.responses| > sr.scts {
      var e := Entries(q, logs);
      var c := Selection(e, sr);
      SelectionKeepsRight(e, sr);
      KeepPicks(q.indices, c);
      KeepPicks(q.responses, c);
      KeepPicks(q.scts, c);
    }
  }

  /**
    The contract of `trimToQuorum`: from any state that meets the quorum it leaves distinct,
    aligned entries of that state which satisfy the policy on their own, keep a preferred
    Static SCT whenever one was collected, number exactly `scts` in all but one case, and are
    the ones that have to be kept.
   */
  lemma TrimmedIsQuorum(q: Quorum, logs: seq<Log>, sr: Request)
    requires Valid(q, logs) && IsQuorumMet(q, sr)
    requires 1 <= sr.operators <= sr.scts
    ensures var q' := TrimToQuorum(q, logs, sr);
            && |q'.indices| == |q'.responses| == |q'.scts|
            && Distinct(q'.indices)
            && Indices(q') <= Indices(q)
            && Satisfies(logs, Indices(q'), sr)
            && (sr.preferStatic && q.hasStatic ==> HasType(logs, Indices(q'), Static))
            && (|q'.indices| ==
                  if sr.scts == 1 && sr.requireRFC6962 && sr.preferStatic && q.hasStatic then 2 else sr.scts)
            && TrimsRight(q, q', logs, sr)
  {
    QuorumMetIsPolicy(q, logs, sr);
    TrimIsRight(q, logs, sr);
    if sr.requireRFC6962 && q.hasStatic {
      BothTypesTakeTwo(q, logs);
    }
    if |q.responses| > sr.scts {
      var e, all := Entries(q, logs), Below(|q.indices|);
      EntriesAreLogs(q, logs, all);
      AllEntries(q);
      TrimKeepsQuorum(e, sr);
      var c := Selection(e, sr);
      EntriesAreLogs(q, logs, c);
      KeepElements(q.indices, c);
      KeepDistinct(q.indices, c);
      KeepSize(q.indices, c);
      KeepSize(q.responses, c);
      KeepSize(q.scts, c);
    }
  }

  /** The logs and the request of the one case in which trimming keeps two entries. */
  const STATIC_FIRST := [Log("s", "A", Static, Neutral), Log("r", "B", RFC6962, Neutral)]
  const BOTH_TYPES := Request(false, false, 1, 1, true, true)

  /** A Static success and then an RFC6962 one; `submit` accepts both, since the first alone is no quorum. */
  function StaticThenRFC6962(r0: Response, s0: Sct, r1: Response, s1: Sct): Quorum {
    AddSuccess(AddSuccess(EMPTY, STATIC_FIRST, 0, r0, s0), STATIC_FIRST, 1, r1, s1)
  }

  lemma BothAreAccepted(r0: Response, s0: Sct, r1: Response, s1: Sct)
    ensures var q0 := AddSuccess(EMPTY, STATIC_FIRST, 0, r0, s0);
            && HelpsQuorum(EMPTY, BOTH_TYPES, STATIC_FIRST[0]) && !IsQuorumMet(q0, BOTH_TYPES)
            && HelpsQuorum(q0, BOTH_TYPES, STATIC_FIRST[1])
    ensures Valid(StaticThenRFC6962(r0, s0, r1, s1), STATIC_FIRST)
    ensures IsQuorumMet(StaticThenRFC6962(r0, s0, r1, s1), BOTH_TYPES)
  {
    assert Valid(EMPTY, STATIC_FIRST);
    AddSuccessValid(EMPTY, STATIC_FIRST, 0, r0, s0);
    AddSuccessValid(AddSuccess(EMPTY, STATIC_FIRST, 0, r0, s0), STATIC_FIRST, 1, r1, s1);
  }

  /**
    The source says that trimming reduces the SCTs to exactly the requested number. With one SCT
    requested, RFC6962 required and Static preferred, a Static success followed by an RFC6962 one shows
    that it does not: both stay.
   */
  lemma TrimMayKeepTwo(r0: Response, s0: Sct, r1: Response, s1: Sct)
    ensures var q := StaticThenRFC6962(r0, s0, r1, s1);
            && InRange(STATIC_FIRST, Indices(q))
            && |TrimToQuorum(q, STATIC_FIRST, BOTH_TYPES).scts| == 2 != BOTH_TYPES.scts
  {
    BothAreAccepted(r0, s0, r1, s1);
    TrimmedIsQuorum(StaticThenRFC6962(r0, s0, r1, s1), STATIC_FIRST, BOTH_TYPES);
  }
}
