/**
  Which entries trimming has to keep, said without any search: the first entry of each operator, for
  each wanted type that is then missing the first entry of it in place of the last one that can be
  spared, and the earliest of the rest. The law leaves no choice.
 */
module KeepLaw {
  import opened Logs
  import opened Finite
  import opened Quorum

  /** No earlier entry has the operator of entry `i`. */
  ghost predicate Leads(e: seq<Log>, i: nat)
    requires i < |e|
  {
    forall j: nat | j < i :: e[j].operator != e[i].operator
  }

  /** The first entry of each operator, among the first `n`. */
  ghost function Leaders(e: seq<Log>, n: nat): set<nat>
    requires n <= |e|
  {
    set i: nat | i < n && Leads(e, i)
  }

  /** One of the first `scts` entries that are their operator's first. */
  ghost predicate HasOperatorSlot(e: seq<Log>, i: nat, scts: int) {
    i < |e| && Leads(e, i) && |Leaders(e, i)| < scts
  }

  ghost predicate FirstOfType(e: seq<Log>, x: nat, t: LogType) {
    x < |e| && e[x].logType == t && forall j: nat | j < x :: e[j].logType != t
  }

  /**
    Entry `d` may make way for one of type `t`: it is of the other type, not the only one of a required RFC 6962
    type, and either another entry of its operator stays or enough operators do.
   */
  ghost predicate MakesWay(e: seq<Log>, c: set<nat>, d: nat, t: LogType, sr: Request)
    requires InRange(e, c)
  {
    && d in c && e[d].logType != t
    && (sr.requireRFC6962 && e[d].logType == RFC6962 ==> HasType(e, c - {d}, RFC6962))
    && ((exists j | j in c :: j != d && e[j].operator == e[d].operator) || |Operators(e, c - {d})| >= sr.operators)
  }

  ghost predicate LastToMakeWay(e: seq<Log>, c: set<nat>, d: nat, t: LogType, sr: Request)
    requires InRange(e, c)
  {
    MakesWay(e, c, d, t, sr) && forall k | k in c && k > d :: !MakesWay(e, c, k, t, sr)
  }

  /** If there are more entries than slots, the last entry that can be spared goes, if one can. */
  ghost predicate MadeRoom(e: seq<Log>, c: set<nat>, c': set<nat>, t: LogType, sr: Request)
    requires InRange(e, c)
  {
    if |c| <= sr.scts || forall d | d in c :: !MakesWay(e, c, d, t, sr) then c' == c
    else exists d :: LastToMakeWay(e, c, d, t, sr) && c' == c - {d}
  }

  /** If type `t` is wanted and not selected yet, its first entry is selected, and room is made. */
  ghost predicate SwappedIn(e: seq<Log>, c: set<nat>, c': set<nat>, wanted: bool, t: LogType, sr: Request)
    requires InRange(e, c)
  {
    if !wanted || HasType(e, c, t) then c' == c
    else if !HasType(e, Below(|e|), t) then MadeRoom(e, c, c', t, sr)
    else exists x :: FirstOfType(e, x, t) && MadeRoom(e, c + {x}, c', t, sr)
  }

  /** Before everything that is added there is nothing left to add. */
  ghost predicate InOrder(c: set<nat>, c': set<nat>) {
    forall a: nat, b: nat | a in c' && a !in c && b < a :: b in c'
  }

  /** The slots that are left go to the earliest entries. */
  ghost predicate FilledUp(c: set<nat>, c': set<nat>, scts: int) {
    && c <= c' && |c'| == (if |c| > scts then |c| else scts)
    && InOrder(c, c')
  }

  ghost predicate Phases(e: seq<Log>, c1: set<nat>, c2: set<nat>, c3: set<nat>, kept: set<nat>, sr: Request) {
    && (forall i: nat :: i in c1 <==> HasOperatorSlot(e, i, sr.scts))
    && InRange(e, c1) && InRange(e, c2) && InRange(e, kept)
    && SwappedIn(e, c1, c2, sr.requireRFC6962, RFC6962, sr)
    && SwappedIn(e, c2, c3, sr.preferStatic, Static, sr)
    && FilledUp(c3, kept, sr.scts)
  }

  /** `kept` are the positions of the entries that trimming keeps. */
  ghost predicate KeepsRight(e: seq<Log>, kept: set<nat>, sr: Request) {
    exists c1, c2, c3 :: Phases(e, c1, c2, c3, kept, sr)
  }

  ghost function Earlier(kept: set<nat>, k: nat): set<nat> {
    set i | i in kept && i < k
  }

  /** `r` holds the elements of `s` at the positions `kept`, in order. */
  ghost predicate Picks<T>(s: seq<T>, r: seq<T>, kept: set<nat>) {
    && |r| == |kept|
    && forall k | k in kept :: k < |s| && |Earlier(kept, k)| < |r| && r[|Earlier(kept, k)|] == s[k]
  }

  // ---- The law leaves no choice ----

  lemma FirstIsUnique(e: seq<Log>, x: nat, y: nat, t: LogType)
    requires FirstOfType(e, x, t) && FirstOfType(e, y, t)
    ensures x == y
  {
  }

  lemma LastIsUnique(e: seq<Log>, c: set<nat>, x: nat, y: nat, t: LogType, sr: Request)
    requires InRange(e, c) && LastToMakeWay(e, c, x, t, sr) && LastToMakeWay(e, c, y, t, sr)
    ensures x == y
  {
  }

  lemma RoomIsUnique(e: seq<Log>, c: set<nat>, a: set<nat>, b: set<nat>, t: LogType, sr: Request)
    requires InRange(e, c) && MadeRoom(e, c, a, t, sr) && MadeRoom(e, c, b, t, sr)
    ensures a == b
  {
    if !(|c| <= sr.scts || forall d | d in c :: !MakesWay(e, c, d, t, sr)) {
      var x :| LastToMakeWay(e, c, x, t, sr) && a == c - {x};
      var y :| LastToMakeWay(e, c, y, t, sr) && b == c - {y};
      LastIsUnique(e, c, x, y, t, sr);
    }
  }

  lemma EntryToSwapIn(e: seq<Log>, c: set<nat>, c': set<nat>, t: LogType, sr: Request) returns (x: nat)
    requires InRange(e, c) && SwappedIn(e, c, c', true, t, sr) && !HasType(e, c, t) && HasType(e, Below(|e|), t)
    ensures FirstOfType(e, x, t) && MadeRoom(e, c + {x}, c', t, sr)
  {
    x :| FirstOfType(e, x, t) && MadeRoom(e, c + {x}, c', t, sr);
  }

  lemma SwapIsUnique(e: seq<Log>, c: set<nat>, a: set<nat>, b: set<nat>, wanted: bool, t: LogType, sr: Request)
    requires InRange(e, c) && SwappedIn(e, c, a, wanted, t, sr) && SwappedIn(e, c, b, wanted, t, sr)
    ensures a == b
  {
    if wanted && !HasType(e, c, t) && HasType(e, Below(|e|), t) {
      var x := EntryToSwapIn(e, c, a, t, sr);
      var y := EntryToSwapIn(e, c, b, t, sr);
      FirstIsUnique(e, x, y, t);
      RoomIsUnique(e, c + {x}, a, b, t, sr);
    } else if wanted && !HasType(e, c, t) {
      RoomIsUnique(e, c, a, b, t, sr);
    }
  }

  lemma FillsAreNested(c: set<nat>, a: set<nat>, b: set<nat>, scts: int)
    requires FilledUp(c, a, scts) && FilledUp(c, b, scts)
    ensures a <= b || b <= a
  {
  }

  lemma FillIsUnique(c: set<nat>, a: set<nat>, b: set<nat>, scts: int)
    requires FilledUp(c, a, scts) && FilledUp(c, b, scts)
    ensures a == b
  {
    FillsAreNested(c, a, b, scts);
    SubsetSize(if a <= b then a else b, if a <= b then b else a);
  }

  /** There is exactly one right choice of entries to keep. */
  lemma KeepIsUnique(e: seq<Log>, a: set<nat>, b: set<nat>, sr: Request)
    requires KeepsRight(e, a, sr) && KeepsRight(e, b, sr)
    ensures a == b
  {
    var a1, a2, a3 :| Phases(e, a1, a2, a3, a, sr);
    var b1, b2, b3 :| Phases(e, b1, b2, b3, b, sr);
    assert a1 == b1;
    SwapIsUnique(e, a1, a2, b2, sr.requireRFC6962, RFC6962, sr);
    SwapIsUnique(e, a2, a3, b3, sr.preferStatic, Static, sr);
    FillIsUnique(a3, a, b, sr.scts);
  }

  // ---- What it means for one entry ----

  lemma SwappedIsFirst(e: seq<Log>, c: set<nat>, c': set<nat>, wanted: bool, t: LogType, sr: Request, i: nat)
    requires InRange(e, c) && SwappedIn(e, c, c', wanted, t, sr) && i in c' && i !in c
    ensures FirstOfType(e, i, t)
  {
    var x := EntryToSwapIn(e, c, c', t, sr);
    assert c' <= c + {x};
  }

  /** An entry kept without an operator's slot has every earlier entry of its type kept with it. */
  lemma EarlierAreKept(e: seq<Log>, kept: set<nat>, sr: Request, i: nat, j: nat)
    requires KeepsRight(e, kept, sr) && i in kept && !HasOperatorSlot(e, i, sr.scts)
    requires j < i < |e| && e[j].logType == e[i].logType
    ensures j in kept
  {
    var c1, c2, c3 :| Phases(e, c1, c2, c3, kept, sr);
    if i in c3 {
      if i in c2 {
        SwappedIsFirst(e, c1, c2, sr.requireRFC6962, RFC6962, sr, i);
      } else {
        SwappedIsFirst(e, c2, c3, sr.preferStatic, Static, sr, i);
      }
    }
  }
}
