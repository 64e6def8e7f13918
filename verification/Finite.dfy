/** Facts about finite sets that the counting arguments share. */
module Finite {

  lemma {:induction false} SubsetSize<T>(a: set<T>, b: set<T>)
    requires a <= b
    ensures |a| <= |b|
    ensures |a| == |b| ==> a == b
  {
    if a != {} {
      var x :| x in a;
      SubsetSize(a - {x}, b - {x});
    }
  }

  lemma DifferenceSize<T>(a: set<T>, b: set<T>)
    ensures |a| <= |b| + |a - b|
  {
    SubsetSize(a, b + (a - b));
  }

  /** The smallest element: what a forward scan with an early exit finds. */
  ghost function MinOf(s: set<nat>): (m: nat)
    requires s != {}
    ensures m in s
    ensures forall k | k in s :: m <= k
  {
    var x :| x in s;
    assert s == (s - {x}) + {x};
    if s - {x} == {} then x
    else
      var m := MinOf(s - {x});
      if x < m then x else m
  }

  /** The largest element: what a backward scan with an early exit finds. */
  ghost function MaxOf(s: set<nat>): (m: nat)
    requires s != {}
    ensures m in s
    ensures forall k | k in s :: k <= m
  {
    var x :| x in s;
    assert s == (s - {x}) + {x};
    if s - {x} == {} then x
    else
      var m := MaxOf(s - {x});
      if m < x then x else m
  }

  /** The numbers below `n`; `Precedes` only gives the solver a term to trigger on. */
  ghost function Below(n: nat): set<nat> {
    set k: nat | k < n && Precedes(k, n)
  }

  predicate Precedes(k: nat, n: nat) { k < n }

  ghost predicate Under(s: set<nat>, n: nat) {
    forall k | k in s :: k < n
  }

  lemma {:induction false} BelowSize(n: nat)
    ensures |Below(n)| == n
  {
    if n > 0 {
      BelowSize(n - 1);
      assert Below(n) == Below(n - 1) + {n - 1};
    }
  }

  lemma RemoveOne<T>(a: seq<T>, i: nat)
    requires i < |a|
    ensures multiset(a[..i] + a[i + 1..]) == multiset(a) - multiset{a[i]}
  {
    assert a == a[..i] + [a[i]] + a[i + 1..];
  }
}
