/** Choosing the best parent certificate of each key, and the table of optimal parents. */
module BestParent {
  import opened Logs
  import opened Finite
  import opened Issuers
  import opened Bfs

  /** The logs of one context that accept the same roots. */
  datatype Group = Group(roots: set<Hash>, count: nat)

  /** What candidate chains are compared by. */
  datatype Rank = Rank(score: nat, length: nat, notAfter: int, hash: Hash)

  /** Higher score, then shorter chain, then later expiry, then smaller hash. */
  predicate Better(a: Rank, b: Rank) {
    if a.score != b.score then a.score > b.score
    else if a.length != b.length then a.length < b.length
    else if a.notAfter != b.notAfter then a.notAfter > b.notAfter
    else a.hash < b.hash
  }

  /** How many logs accept the root. */
  ghost function Score(groups: seq<Group>, root: Hash): nat {
    if groups == [] then 0
    else
      var g := groups[|groups| - 1];
      Score(groups[..|groups| - 1], root) + (if root in g.roots then g.count else 0)
  }

  /** The logs that accept the root: log `n` of group `k` is the pair of these numbers. */
  ghost function Accepting(groups: seq<Group>, root: Hash): set<(nat, nat)> {
    set k: nat, n: nat | k < |groups| && n < groups[k].count && root in groups[k].roots :: (k, n)
  }

  ghost function LogsOf(k: nat, count: nat): set<(nat, nat)> {
    set n: nat | n < count :: (k, n)
  }

  lemma {:induction false} LogsOfSize(k: nat, count: nat)
    ensures |LogsOf(k, count)| == count
  {
    if count > 0 {
      LogsOfSize(k, count - 1);
      assert LogsOf(k, count) == LogsOf(k, count - 1) + {(k, count - 1)};
    }
  }

  lemma AcceptingNext(groups: seq<Group>, root: Hash)
    requires groups != []
    ensures var k := |groups| - 1;
            && Accepting(groups, root)
               == Accepting(groups[..k], root) + (if root in groups[k].roots then LogsOf(k, groups[k].count) else {})
            && Accepting(groups[..k], root) !! LogsOf(k, groups[k].count)
  {
    var k := |groups| - 1;
    assert forall j: nat | j < k :: groups[..k][j] == groups[j];
  }

  /** The score is the number of logs that accept the root. */
  lemma {:induction false} ScoreIsSize(groups: seq<Group>, root: Hash)
    ensures Score(groups, root) == |Accepting(groups, root)|
  {
    if groups == [] {
      assert Accepting(groups, root) == {};
    } else {
      var k := |groups| - 1;
      ScoreIsSize(groups[..k], root);
      AcceptingNext(groups, root);
      LogsOfSize(k, groups[k].count);
    }
  }

  lemma {:induction false} ScoreRemove(groups: seq<Group>, i: nat, root: Hash)
    requires i < |groups|
    ensures Score(groups, root) == Score(groups[..i] + groups[i + 1..], root) + Score([groups[i]], root)
    decreases |groups|
  {
    var n := |groups| - 1;
    assert [groups[i]][..0] == [];
    if i == n {
      assert groups[..i] + groups[i + 1..] == groups[..n];
    } else {
      ScoreRemove(groups[..n], i, root);
      var rest := groups[..i] + groups[i + 1..];
      assert rest[..n - 1] == groups[..n][..i] + groups[..n][i + 1..];
      assert rest[n - 1] == groups[n];
    }
  }

  /** The groups come out of a map in any order; the score does not depend on it. */
  lemma {:induction false} ScoreIgnoresOrder(a: seq<Group>, b: seq<Group>, root: Hash)
    requires multiset(a) == multiset(b)
    ensures Score(a, root) == Score(b, root)
    decreases |a|
  {
    if a == [] {
      assert |multiset(a)| == |multiset(b)|;
    } else {
      var n := |a| - 1;
      assert a[n] in multiset(b);
      var i: nat :| i < |b| && b[i] == a[n];
      RemoveOne(a, n);
      RemoveOne(b, i);
      assert a[..n] + a[n + 1..] == a[..n];
      ScoreIgnoresOrder(a[..n], b[..i] + b[i + 1..], root);
      ScoreRemove(a, n, root);
      ScoreRemove(b, i, root);
    }
  }

  method ScoreOf(groups: seq<Group>, root: Hash) returns (score: nat)
    ensures score == Score(groups, root)
  {
    score := 0;
    for i := 0 to |groups|
      invariant score == Score(groups[..i], root)
    {
      assert groups[..i + 1][..i] == groups[..i];
      if root in groups[i].roots {
        score := score + groups[i].count;
      }
    }
    assert groups[..|groups|] == groups;
  }

  // ---- What is chosen ----

  /** The chains considered for a candidate: a shortest one to each root, or itself when there is none. */
  ghost predicate IsChain(index: Index, c: Cert, q: seq<Cert>) {
    if exists p :: RootPath(index, c, p) then ShortestRootPath(index, c, q) else q == [c]
  }

  ghost function RankOf(groups: seq<Group>, c: Cert, q: seq<Cert>): Rank
    requires q != []
  {
    Rank(Score(groups, Last(q).hash), |q|, c.notAfter, c.hash)
  }

  ghost predicate Ranked(index: Index, groups: seq<Group>, candidates: seq<Cert>, r: Rank) {
    exists c, q :: c in candidates && IsChain(index, c, q) && q != [] && r == RankOf(groups, c, q)
  }

  /**
    Nothing scores, or the choice is the rank of a candidate's chain such that no chain of any candidate has a
    higher score; at that score none is shorter; at that length too no candidate expires later; and among those
    that expire together none has a smaller hash.
   */
  ghost predicate IsBest(index: Index, groups: seq<Group>, candidates: seq<Cert>, best: Option<Rank>) {
    && (best.Some? ==> Ranked(index, groups, candidates, best.value) && best.value.score > 0)
    && (forall r | Ranked(index, groups, candidates, r) && r.score > 0 ::
          && best.Some? && r.score <= best.value.score
          && (r.score == best.value.score ==> r.length >= best.value.length)
          && (r.score == best.value.score && r.length == best.value.length ==> r.notAfter <= best.value.notAfter)
          && (r.score == best.value.score && r.length == best.value.length && r.notAfter == best.value.notAfter ==>
                r.hash >= best.value.hash))
  }

  /** If path `p` from `c` scores, the choice is no worse in score, then length, then expiry, then hash. */
  ghost predicate Unbeaten(groups: seq<Group>, best: Option<Rank>, c: Cert, p: seq<Cert>)
    requires p != []
  {
    var score := Score(groups, Last(p).hash);
    score > 0 ==>
      && best.Some? && score <= best.value.score
      && (score == best.value.score ==>
            && |p| >= best.value.length
            && (|p| == best.value.length ==> c.notAfter <= best.value.notAfter)
            && (|p| == best.value.length && c.notAfter == best.value.notAfter ==> c.hash >= best.value.hash))
  }

  /** No candidate beats the choice by any of its paths to a root, the longer ones included. */
  lemma NoCandidateBeats(index: Index, groups: seq<Group>, candidates: seq<Cert>, best: Option<Rank>, c: Cert,
      p: seq<Cert>)
    requires IsBest(index, groups, candidates, best) && c in candidates && RootPath(index, c, p)
    ensures Unbeaten(groups, best, c, p)
  {
    var q := ShortestExists(index, c, p);
    assert IsChain(index, c, q);
    assert Ranked(index, groups, candidates, RankOf(groups, c, q));
  }

  /** Two rankings that are each no worse than the other are the same. */
  lemma BestIsUnique(index: Index, groups: seq<Group>, candidates: seq<Cert>, a: Option<Rank>, b: Option<Rank>)
    requires IsBest(index, groups, candidates, a) && IsBest(index, groups, candidates, b)
    ensures a == b
  {
  }

  /** The ranks seen by the selection loops are those of the candidates so far. */
  ghost predicate Covers(index: Index, groups: seq<Group>, candidates: seq<Cert>, ranks: set<Rank>) {
    forall r :: r in ranks <==> Ranked(index, groups, candidates, r)
  }

  ghost predicate BestIn(ranks: set<Rank>, best: Option<Rank>) {
    && (best.Some? ==> best.value in ranks && best.value.score > 0)
    && (forall r | r in ranks && r.score > 0 :: best.Some? && !Better(r, best.value))
  }

  ghost function RanksOf(groups: seq<Group>, c: Cert, chains: seq<seq<Cert>>): set<Rank> {
    set k: nat | k < |chains| && chains[k] != [] :: RankOf(groups, c, chains[k])
  }

  /** The chains that the selection looks at for one candidate. */
  ghost predicate ChainsOf(index: Index, c: Cert, chains: seq<seq<Cert>>) {
    if SelfSigned(c) then chains == [[c]] else ChainsFor(index, c, chains)
  }

  lemma ChainsAreChains(index: Index, c: Cert, chains: seq<seq<Cert>>, k: nat)
    requires ChainsOf(index, c, chains) && k < |chains|
    ensures chains[k] != [] && IsChain(index, c, chains[k])
  {
    if SelfSigned(c) {
      assert RootPath(index, c, [c]);
      forall q | RootPath(index, c, q) ensures |q| == 1 {
        SelfSignedReachesItself(index, c, q);
      }
    } else if exists p :: RootPath(index, c, p) {
      assert ShortestRootPath(index, c, chains[k]);
    }
  }

  lemma NoChainIsEmpty(index: Index, c: Cert, chains: seq<seq<Cert>>)
    requires ChainsOf(index, c, chains)
    ensures forall k | 0 <= k < |chains| :: chains[k] != []
  {
    forall k | 0 <= k < |chains| ensures chains[k] != [] {
      ChainsAreChains(index, c, chains, k);
    }
  }

  /** One shortest chain per root is enough: every chain has a listed one of the same rank. */
  lemma ChainIsListed(index: Index, groups: seq<Group>, c: Cert, chains: seq<seq<Cert>>, q: seq<Cert>)
    requires ChainsOf(index, c, chains) && IsChain(index, c, q) && q != []
    ensures RankOf(groups, c, q) in RanksOf(groups, c, chains)
  {
    if SelfSigned(c) {
      assert RootPath(index, c, [c]);
      SelfSignedReachesItself(index, c, q);
      assert chains[0] == q;
    } else if exists p :: RootPath(index, c, p) {
      assert Last(q) in RootsOf(chains);
      var k: nat :| k < |chains| && chains[k] != [] && Last(chains[k]) == Last(q);
      assert ShortestRootPath(index, c, chains[k]);
    } else {
      assert chains[0] == q;
    }
  }

  lemma RanksAreRanked(index: Index, groups: seq<Group>, c: Cert, chains: seq<seq<Cert>>, r: Rank)
    requires ChainsOf(index, c, chains)
    ensures r in RanksOf(groups, c, chains) <==> Ranked(index, groups, [c], r)
  {
    if r in RanksOf(groups, c, chains) {
      var k: nat :| k < |chains| && chains[k] != [] && r == RankOf(groups, c, chains[k]);
      ChainsAreChains(index, c, chains, k);
      assert c in [c];
    }
    if Ranked(index, groups, [c], r) {
      var q :| IsChain(index, c, q) && q != [] && r == RankOf(groups, c, q);
      ChainIsListed(index, groups, c, chains, q);
    }
  }

  lemma CoversMore(index: Index, groups: seq<Group>, before: seq<Cert>, c: Cert, chains: seq<seq<Cert>>,
      ranks: set<Rank>)
    requires Covers(index, groups, before, ranks) && ChainsOf(index, c, chains)
    ensures Covers(index, groups, before + [c], ranks + RanksOf(groups, c, chains))
  {
    forall r ensures r in ranks + RanksOf(groups, c, chains) <==> Ranked(index, groups, before + [c], r) {
      RanksAreRanked(index, groups, c, chains, r);
      RankedSnoc(index, groups, before, c, r);
    }
  }

  lemma CoversNext(index: Index, groups: seq<Group>, candidates: seq<Cert>, i: nat, chains: seq<seq<Cert>>,
      ranks: set<Rank>)
    requires i < |candidates| && ChainsOf(index, candidates[i], chains)
    requires Covers(index, groups, candidates[..i], ranks)
    ensures Covers(index, groups, candidates[..i + 1], ranks + RanksOf(groups, candidates[i], chains))
  {
    assert candidates[..i + 1] == candidates[..i] + [candidates[i]];
    CoversMore(index, groups, candidates[..i], candidates[i], chains, ranks);
  }

  lemma RankedSnoc(index: Index, groups: seq<Group>, before: seq<Cert>, c: Cert, r: Rank)
    ensures Ranked(index, groups, before + [c], r) <==>
          Ranked(index, groups, before, r) || Ranked(index, groups, [c], r)
  {
    forall d ensures d in before + [c] <==> d in before || d in [c] {
    }
  }

  lemma BestFromCover(index: Index, groups: seq<Group>, candidates: seq<Cert>, ranks: set<Rank>, best: Option<Rank>)
    requires Covers(index, groups, candidates, ranks) && BestIn(ranks, best)
    ensures IsBest(index, groups, candidates, best)
  {
  }

  // ---- The selection loops ----

  method ChainsOfCandidate(index: Index, c: Cert) returns (chains: seq<seq<Cert>>)
    requires WellIndexed(index) && c in Universe(index)
    ensures ChainsOf(index, c, chains) && forall k | 0 <= k < |chains| :: chains[k] != []
  {
    if SelfSigned(c) {
      chains := [[c]];
    } else {
      chains := BuildChains(c, index);
    }
    NoChainIsEmpty(index, c, chains);
  }

  /** The running best after one more chain was ranked. */
  method TakeBetter(best0: Option<Rank>, r: Rank, ghost ranks: set<Rank>) returns (best: Option<Rank>)
    requires BestIn(ranks, best0)
    ensures BestIn(ranks + {r}, best)
  {
    best := best0;
    if r.score > 0 {
      var wins :=
        if best.None? || r.score > best.value.score then true
        else if r.score < best.value.score then false
        else if r.length < best.value.length then true
        else if r.length > best.value.length then false
        else if r.notAfter > best.value.notAfter then true
        else if r.notAfter < best.value.notAfter then false
        else r.hash < best.value.hash;
      if wins {
        best := Some(r);
      }
    }
  }

  /** The running best over the chains of one candidate. */
  method SelectChain(groups: seq<Group>, c: Cert, chains: seq<seq<Cert>>, best0: Option<Rank>, ghost ranks: set<Rank>)
    returns (best: Option<Rank>)
    requires BestIn(ranks, best0) && forall k | 0 <= k < |chains| :: chains[k] != []
    ensures BestIn(ranks + RanksOf(groups, c, chains), best)
    ensures forall k | 0 <= k < |chains| :: Unbeaten(groups, best, c, chains[k])
  {
    best := best0;
    for j := 0 to |chains|
      invariant BestIn(ranks + RanksOf(groups, c, chains[..j]), best)
    {
      var chain := chains[j];
      var score := ScoreOf(groups, chain[|chain| - 1].hash);
      best := TakeBetter(best, Rank(score, |chain|, c.notAfter, c.hash), ranks + RanksOf(groups, c, chains[..j]));
      RanksSnoc(groups, c, chains, j);
      assert ranks + RanksOf(groups, c, chains[..j + 1])
          == ranks + RanksOf(groups, c, chains[..j]) + {RankOf(groups, c, chain)};
    }
    assert chains[..|chains|] == chains;
    forall k | 0 <= k < |chains| ensures Unbeaten(groups, best, c, chains[k]) {
      RankIsUnbeaten(groups, c, chains, ranks, best, k);
    }
  }

  lemma RankIsUnbeaten(groups: seq<Group>, c: Cert, chains: seq<seq<Cert>>, ranks: set<Rank>, best: Option<Rank>,
      k: nat)
    requires BestIn(ranks + RanksOf(groups, c, chains), best) && k < |chains| && chains[k] != []
    ensures Unbeaten(groups, best, c, chains[k])
  {
    assert RankOf(groups, c, chains[k]) in RanksOf(groups, c, chains);
  }

  lemma RanksSnoc(groups: seq<Group>, c: Cert, chains: seq<seq<Cert>>, j: nat)
    requires j < |chains| && chains[j] != []
    ensures RanksOf(groups, c, chains[..j + 1]) == RanksOf(groups, c, chains[..j]) + {RankOf(groups, c, chains[j])}
  {
    var more := chains[..j + 1];
    assert more[j] == chains[j];
    forall r | r in RanksOf(groups, c, chains[..j]) ensures r in RanksOf(groups, c, more) {
      var k: nat :| k < j && chains[k] != [] && r == RankOf(groups, c, chains[k]);
      assert more[k] == chains[k];
    }
  }

  /** The selection over all candidates of one key, for one context. */
  method SelectParent(index: Index, groups: seq<Group>, candidates: seq<Cert>) returns (best: Option<Rank>)
    requires WellIndexed(index) && forall k | 0 <= k < |candidates| :: candidates[k] in Universe(index)
    ensures IsBest(index, groups, candidates, best)
    ensures forall c, p | c in candidates && RootPath(index, c, p) :: Unbeaten(groups, best, c, p)
  {
    best := None;
    ghost var ranks: set<Rank> := {};
    for i := 0 to |candidates|
      invariant Covers(index, groups, candidates[..i], ranks) && BestIn(ranks, best)
    {
      var chains := ChainsOfCandidate(index, candidates[i]);
      best := SelectChain(groups, candidates[i], chains, best, ranks);
      CoversNext(index, groups, candidates, i, chains, ranks);
      ranks := ranks + RanksOf(groups, candidates[i], chains);
    }
    assert candidates[..|candidates|] == candidates;
    BestFromCover(index, groups, candidates, ranks, best);
    forall c, p | c in candidates && RootPath(index, c, p) ensures Unbeaten(groups, best, c, p) {
      NoCandidateBeats(index, groups, candidates, best, c, p);
    }
  }

  // ---- Order independence ----

  /** The same certificates under each key, in whatever order. */
  ghost predicate SameMembers(a: Index, b: Index) {
    forall k, c {:trigger c in Candidates(a, k)} :: c in Candidates(a, k) <==> c in Candidates(b, k)
  }

  lemma SameWalks(a: Index, b: Index, start: Cert, p: seq<Cert>)
    requires SameMembers(a, b) && Walk(a, start, p)
    ensures Walk(b, start, p)
  {
    forall i | 0 <= i < |p| - 1 ensures !SelfSigned(p[i]) && IsParent(b, p[i], p[i + 1]) {
      assert IsParent(a, p[i], p[i + 1]);
      assert p[i + 1] in Candidates(a, AkiKey(p[i]));
    }
  }

  lemma SameMembersSym(a: Index, b: Index)
    requires SameMembers(a, b)
    ensures SameMembers(b, a)
  {
    forall k, c {:trigger c in Candidates(b, k)} ensures c in Candidates(b, k) <==> c in Candidates(a, k) {
      assert c in Candidates(a, k) <==> c in Candidates(b, k);
    }
  }

  lemma SameChains(a: Index, b: Index, c: Cert, q: seq<Cert>)
    requires SameMembers(a, b) && IsChain(a, c, q)
    ensures IsChain(b, c, q)
  {
    SameMembersSym(a, b);
    forall p ensures RootPath(a, c, p) <==> RootPath(b, c, p) {
      if RootPath(a, c, p) { SameWalks(a, b, c, p); }
      if RootPath(b, c, p) { SameWalks(b, a, c, p); }
    }
    if exists p :: RootPath(a, c, p) {
      var p :| RootPath(a, c, p);
      assert RootPath(b, c, p) && ShortestRootPath(b, c, q);
    }
  }

  lemma SameRanks(a: Index, b: Index, gs: seq<Group>, hs: seq<Group>, cs: seq<Cert>, ds: seq<Cert>, r: Rank)
    requires SameMembers(a, b) && multiset(gs) == multiset(hs)
    requires forall c :: c in cs <==> c in ds
    requires Ranked(a, gs, cs, r)
    ensures Ranked(b, hs, ds, r)
  {
    var c, q :| c in cs && IsChain(a, c, q) && q != [] && r == RankOf(gs, c, q);
    SameChains(a, b, c, q);
    ScoreIgnoresOrder(gs, hs, Last(q).hash);
    assert r == RankOf(hs, c, q);
  }

  lemma SameRanking(a: Index, b: Index, gs: seq<Group>, hs: seq<Group>, cs: seq<Cert>, ds: seq<Cert>, r: Rank)
    requires SameMembers(a, b) && SameMembers(b, a) && multiset(gs) == multiset(hs)
    requires forall c :: c in cs <==> c in ds
    ensures Ranked(a, gs, cs, r) <==> Ranked(b, hs, ds, r)
  {
    if Ranked(a, gs, cs, r) { SameRanks(a, b, gs, hs, cs, ds, r); }
    if Ranked(b, hs, ds, r) { SameRanks(b, a, hs, gs, ds, cs, r); }
  }

  /** The best of equal rankings is the same. */
  lemma SameBest(a: Index, b: Index, gs: seq<Group>, hs: seq<Group>, cs: seq<Cert>, ds: seq<Cert>,
      x: Option<Rank>, y: Option<Rank>)
    requires forall r :: Ranked(a, gs, cs, r) <==> Ranked(b, hs, ds, r)
    requires IsBest(a, gs, cs, x) && IsBest(b, hs, ds, y)
    ensures x == y
  {
    if x.Some? { assert Ranked(b, hs, ds, x.value); }
    if y.Some? { assert Ranked(a, gs, cs, y.value); }
  }

  /** The order of the certificates of a key, of the candidates and of the groups does not change the choice. */
  lemma ChoiceIgnoresOrder(a: Index, b: Index, gs: seq<Group>, hs: seq<Group>, cs: seq<Cert>, ds: seq<Cert>,
      x: Option<Rank>, y: Option<Rank>)
    requires SameMembers(a, b) && multiset(gs) == multiset(hs)
    requires forall c :: c in cs <==> c in ds
    requires IsBest(a, gs, cs, x) && IsBest(b, hs, ds, y)
    ensures x == y
  {
    SameMembersSym(a, b);
    forall r ensures Ranked(a, gs, cs, r) <==> Ranked(b, hs, ds, r) {
      SameRanking(a, b, gs, hs, cs, ds, r);
    }
    SameBest(a, b, gs, hs, cs, ds, x, y);
  }

  // ---- The table ----

  /** The rows of the optimal parents file: for each key, the best parent in each context. */
  type Table = map<KeyId, seq<Option<Hash>>>

  ghost predicate ParentOk(index: Index, groups: seq<Group>, k: KeyId, parent: Option<Hash>) {
    exists best ::
      && IsBest(index, groups, Candidates(index, k), best)
      && parent == (if best.Some? then Some(best.value.hash) else None)
  }

  ghost predicate RowOk(index: Index, contexts: seq<seq<Group>>, k: KeyId, row: seq<Option<Hash>>) {
    |row| == |contexts| && forall i | 0 <= i < |row| :: ParentOk(index, contexts[i], k, row[i])
  }

  predicate HasParent(row: seq<Option<Hash>>) {
    exists i :: 0 <= i < |row| && row[i].Some?
  }

  /** Each key that has candidates has its row, unless no context has a parent for it. */
  ghost predicate TableOk(index: Index, contexts: seq<seq<Group>>, table: Table) {
    && (forall k | k in table :: k in index && RowOk(index, contexts, k, table[k]) && HasParent(table[k]))
    && (forall k | k in index && k !in table :: exists row :: RowOk(index, contexts, k, row) && !HasParent(row))
  }

  lemma CandidatesAreKnown(index: Index, k: KeyId)
    ensures forall j | 0 <= j < |Candidates(index, k)| :: Candidates(index, k)[j] in Universe(index)
  {
    forall j | 0 <= j < |Candidates(index, k)| ensures Candidates(index, k)[j] in Universe(index) {
      assert k in index && Candidates(index, k)[j] in index[k];
    }
  }

  /** The parent of one key in one context. */
  method BuildParent(index: Index, groups: seq<Group>, k: KeyId) returns (parent: Option<Hash>)
    requires WellIndexed(index)
    ensures ParentOk(index, groups, k, parent)
  {
    CandidatesAreKnown(index, k);
    var best := SelectParent(index, groups, Candidates(index, k));
    parent := if best.Some? then Some(best.value.hash) else None;
  }

  /** The two sequences agree entry by entry. */
  ghost predicate Each<A, B>(ok: (A, B) -> bool, xs: seq<A>, ys: seq<B>) {
    |xs| == |ys| && forall i | 0 <= i < |xs| :: ok(xs[i], ys[i])
  }

  lemma EachSnoc<A, B>(ok: (A, B) -> bool, xs: seq<A>, ys: seq<B>, i: nat, y: B)
    requires i < |xs| && Each(ok, xs[..i], ys) && ok(xs[i], y)
    ensures Each(ok, xs[..i + 1], ys + [y])
  {
    forall j | 0 <= j <= i ensures ok(xs[..i + 1][j], (ys + [y])[j]) {
      assert j < i ==> ok(xs[..i][j], ys[j]);
    }
  }

  method BuildRow(index: Index, contexts: seq<seq<Group>>, k: KeyId) returns (row: seq<Option<Hash>>)
    requires WellIndexed(index) && k in index
    ensures RowOk(index, contexts, k, row)
  {
    row := [];
    ghost var ok := (groups, parent) => ParentOk(index, groups, k, parent);
    for i := 0 to |contexts|
      invariant Each(ok, contexts[..i], row)
    {
      var parent := BuildParent(index, contexts[i], k);
      EachSnoc(ok, contexts, row, i, parent);
      row := row + [parent];
    }
    assert contexts[..|contexts|] == contexts;
  }

  method BuildTable(index: Index, contexts: seq<seq<Group>>) returns (table: Table)
    requires WellIndexed(index)
    ensures TableOk(index, contexts, table)
  {
    table := map[];
    var keys := index.Keys;
    while keys != {}
      invariant keys <= index.Keys
      invariant forall k | k in table :: k in index && RowOk(index, contexts, k, table[k]) && HasParent(table[k])
      invariant forall k | k in index && k !in table && k !in keys :: exists row ::
            RowOk(index, contexts, k, row) && !HasParent(row)
      decreases |keys|
    {
      var k :| k in keys;
      keys := keys - {k};
      var row := BuildRow(index, contexts, k);
      if HasParent(row) {
        table := table[k := row];
      }
    }
  }
}
