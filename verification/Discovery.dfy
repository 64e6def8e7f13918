/** `DiscoverChain`, which follows the table of optimal parents one hop at a time. */
module Discovery {
  import opened Logs
  import opened Issuers
  import opened BestParent

  /** A submitted or stored certificate: its DER either parses or does not. */
  datatype Der = Good(cert: Cert) | Bad(digest: Hash)

  function HashOf(d: Der): Hash {
    if d.Good? then d.cert.hash else d.digest
  }

  /** The CA certificates known at run time. */
  type Store = map<Hash, Der>

  /** Why the walk ended. */
  datatype Stop = NoEntry | Cycle(hash: Hash) | Unknown | Unparsable | AtRoot(root: Cert) | NoKey

  datatype Found = Found(added: seq<Cert>, stop: Stop)

  ghost predicate Columns(table: Table, ctx: nat) {
    forall k | k in table :: ctx < |table[k]|
  }

  /** The certificates that the walk appends from key `aki` on, and why it ends. */
  ghost function Follow(table: Table, ctx: nat, store: Store, seen: set<Hash>, aki: KeyId): Found
    requires Columns(table, ctx)
    decreases store.Keys - seen
  {
    if aki !in table || table[aki][ctx].None? then Found([], NoEntry)
    else
      var h := table[aki][ctx].value;
      if h in seen then Found([], Cycle(h))
      else if h !in store then Found([], Unknown)
      else if store[h].Bad? then Found([], Unparsable)
      else
        var c := store[h].cert;
        if SelfSigned(c) then Found([], AtRoot(c))
        else if AkiKey(c) == "" then Found([c], NoKey)
        else
          var rest := Follow(table, ctx, store, seen + {h}, AkiKey(c));
          Found([c] + rest.added, rest.stop)
  }

  function Ders(certs: seq<Cert>): seq<Der> {
    seq(|certs|, i requires 0 <= i < |certs| => Good(certs[i]))
  }

  ghost function Digests(ders: seq<Der>): set<Hash> {
    set i: nat | i < |ders| :: HashOf(ders[i])
  }

  /** The submitted chain with what was discovered, or nothing when nothing was. */
  ghost function Answer(partial: seq<Der>, found: Found): Option<seq<Der>> {
    if found.added == [] then None else Some(partial + Ders(found.added))
  }

  method SeenIn(partial: seq<Der>) returns (seen: set<Hash>)
    ensures seen == Digests(partial)
  {
    seen := {};
    for i := 0 to |partial|
      invariant seen == Digests(partial[..i])
    {
      seen := seen + {HashOf(partial[i])};
      assert partial[..i + 1][i] == partial[i];
      forall h | h in Digests(partial[..i]) ensures h in Digests(partial[..i + 1]) {
        var j: nat :| j < i && HashOf(partial[..i][j]) == h;
        assert partial[..i + 1][j] == partial[j];
      }
    }
    assert partial[..|partial|] == partial;
  }

  /** One appended certificate, in front of what the walk appends from there. */
  lemma FollowAppends(table: Table, ctx: nat, store: Store, seen: set<Hash>, aki: KeyId, c: Cert, added: seq<Cert>)
    requires Columns(table, ctx) && aki in table && table[aki][ctx].Some? && table[aki][ctx].value !in seen
    requires table[aki][ctx].value in store && store[table[aki][ctx].value] == Good(c) && !SelfSigned(c)
    ensures var seen' := seen + {table[aki][ctx].value};
            added + Follow(table, ctx, store, seen, aki).added ==
            added + [c] + if AkiKey(c) == "" then [] else Follow(table, ctx, store, seen', AkiKey(c)).added
  {
  }

  method DiscoverChain(partial: seq<Der>, ctx: nat, table: Table, store: Store) returns (chain: Option<seq<Der>>)
    requires partial != [] && Columns(table, ctx)
    ensures var last := partial[|partial| - 1];
            chain == (if last.Bad? then None
                      else Answer(partial, Follow(table, ctx, store, Digests(partial), AkiKey(last.cert))))
  {
    var seen := SeenIn(partial);
    var last := partial[|partial| - 1];
    if last.Bad? { return None; }
    var aki := AkiKey(last.cert);
    var added: seq<Cert> := [];
    ghost var whole := Follow(table, ctx, store, seen, aki);
    while true
      invariant whole.added == added + Follow(table, ctx, store, seen, aki).added
      decreases store.Keys - seen
    {
      if aki !in table { break; }
      var parent := table[aki][ctx];
      if parent.None? { break; }
      var hash := parent.value;
      if hash in seen { break; }
      ghost var before := seen;
      seen := seen + {hash};
      if hash !in store { break; }
      var der := store[hash];
      if der.Bad? { break; }
      if SelfSigned(der.cert) { break; }
      FollowAppends(table, ctx, store, before, aki, der.cert, added);
      added := added + [der.cert];
      aki := AkiKey(der.cert);
      if aki == "" { break; }
    }
    assert whole.added == added;
    if |added| > 0 {
      return Some(partial + Ders(added));
    }
    return None;
  }

  // ---- Greedy hops reproduce the optimum ----

  /** At run time the certificates of the index are the ones the store holds. */
  ghost predicate StoreOk(index: Index, store: Store) {
    forall c | c in Universe(index) :: c.hash in store && store[c.hash] == Good(c)
  }

  /** The accepted roots are self-signed. */
  ghost predicate PoolsOk(index: Index, groups: seq<Group>) {
    forall i, c | 0 <= i < |groups| && c in Universe(index) && c.hash in groups[i].roots :: SelfSigned(c)
  }

  lemma {:induction false} OnlyRootsScore(index: Index, groups: seq<Group>, c: Cert)
    requires PoolsOk(index, groups) && c in Universe(index) && !SelfSigned(c)
    ensures Score(groups, c.hash) == 0
  {
    if groups != [] {
      var before := groups[..|groups| - 1];
      assert PoolsOk(index, before) by {
        forall i, d | 0 <= i < |before| && d in Universe(index) && d.hash in before[i].roots ensures SelfSigned(d) {
          assert before[i] == groups[i];
        }
      }
      OnlyRootsScore(index, before, c);
      assert c.hash !in groups[|groups| - 1].roots;
    }
  }

  ghost predicate BestAt(index: Index, groups: seq<Group>, k: KeyId, best: Option<Rank>) {
    IsBest(index, groups, Candidates(index, k), best)
  }

  /** The certificate behind a scoring rank, with a shortest path from it to a root of that score. */
  lemma BestCert(index: Index, groups: seq<Group>, k: KeyId, r: Rank) returns (c: Cert, q: seq<Cert>)
    requires WellIndexed(index) && PoolsOk(index, groups)
    requires BestAt(index, groups, k, Some(r))
    ensures c in Candidates(index, k) && c in Universe(index) && c.ski == Some(k)
    ensures ShortestRootPath(index, c, q) && r == RankOf(groups, c, q)
    ensures r.length == 1 <==> SelfSigned(c)
  {
    c, q :| c in Candidates(index, k) && IsChain(index, c, q) && q != [] && r == RankOf(groups, c, q);
    assert HeldByKey(index, k, c) && k in index && c in index[k];
    if SelfSigned(c) {
      assert RootPath(index, c, [c]);
      SelfSignedReachesItself(index, c, q);
    } else {
      OnlyRootsScore(index, groups, c);
      assert ShortestRootPath(index, c, q);
    }
  }

  /** Any root path of a candidate bounds the best choice from below. */
  lemma PathBoundsBest(index: Index, groups: seq<Group>, k: KeyId, best: Option<Rank>, c: Cert, p: seq<Cert>)
    requires BestAt(index, groups, k, best) && c in Candidates(index, k)
    requires RootPath(index, c, p) && Score(groups, Last(p).hash) > 0
    ensures best.Some? && best.value.score >= Score(groups, Last(p).hash)
    ensures best.value.score == Score(groups, Last(p).hash) ==> best.value.length <= |p|
  {
    var q := ShortestExists(index, c, p);
    assert IsChain(index, c, q);
    assert Ranked(index, groups, Candidates(index, k), RankOf(groups, c, q));
  }

  lemma RootPathTail(index: Index, start: Cert, p: seq<Cert>)
    requires RootPath(index, start, p) && |p| > 1
    ensures !SelfSigned(start) && IsParent(index, start, p[1]) && RootPath(index, p[1], p[1..])
          && Last(p[1..]) == Last(p)
  {
    WalkTail(index, start, p);
  }

  /** A candidate that is not self-signed has its parents under another key. */
  lemma ParentIsElsewhere(index: Index, k: KeyId, c: Cert, p: Cert)
    requires WellIndexed(index) && c in Candidates(index, k) && !SelfSigned(c)
    requires AkiKey(c) != "" && p in Candidates(index, AkiKey(c))
    ensures IsParent(index, c, p)
  {
    assert HeldByKey(index, k, c) && HeldByKey(index, AkiKey(c), p);
    assert k in index && c in index[k] && AkiKey(c) in index && p in index[AkiKey(c)];
    assert c in Universe(index) && p in Universe(index);
  }

  /** The next key's best gives a chain for this key: one certificate longer, with the same root. */
  lemma HopBack(index: Index, groups: seq<Group>, k: KeyId, r: Rank, c: Cert, next: Rank)
    requires WellIndexed(index) && PoolsOk(index, groups) && BestAt(index, groups, k, Some(r))
    requires c in Candidates(index, k) && !SelfSigned(c) && AkiKey(c) != ""
    requires BestAt(index, groups, AkiKey(c), Some(next))
    ensures r.score >= next.score && (r.score == next.score ==> r.length <= next.length + 1)
  {
    var d, p := BestCert(index, groups, AkiKey(c), next);
    ParentIsElsewhere(index, k, c, d);
    WalkCons(index, c, p);
    assert Last([c] + p) == Last(p);
    PathBoundsBest(index, groups, k, Some(r), c, [c] + p);
  }

  /** This key's best gives a chain for the next key: one certificate shorter, with the same root. */
  lemma HopForth(index: Index, groups: seq<Group>, k: KeyId, r: Rank, c: Cert, q: seq<Cert>, next: Option<Rank>)
    requires BestAt(index, groups, k, Some(r)) && BestAt(index, groups, AkiKey(c), next)
    requires RootPath(index, c, q) && r == RankOf(groups, c, q) && |q| > 1
    ensures !SelfSigned(c) && AkiKey(c) != ""
    ensures next.Some? && next.value.score >= r.score
    ensures next.value.score == r.score ==> next.value.length <= r.length - 1
  {
    RootPathTail(index, c, q);
    assert q[1] in Candidates(index, AkiKey(c));
    assert r.score == Score(groups, Last(q[1..]).hash) && r.score > 0;
    PathBoundsBest(index, groups, AkiKey(c), next, q[1], q[1..]);
  }

  /**
    One hop. If the best entry of a key has score S and length L > 1, then the best entry of its
    certificate's own issuer key has score S and length L - 1.
   */
  lemma Hop(index: Index, groups: seq<Group>, k: KeyId, r: Rank, c: Cert, q: seq<Cert>, next: Option<Rank>)
    requires WellIndexed(index) && PoolsOk(index, groups) && BestAt(index, groups, k, Some(r))
    requires c in Candidates(index, k) && RootPath(index, c, q) && r == RankOf(groups, c, q) && |q| > 1
    requires BestAt(index, groups, AkiKey(c), next)
    ensures !SelfSigned(c) && AkiKey(c) != ""
    ensures next.Some? && next.value.score == r.score && next.value.length == r.length - 1
  {
    HopForth(index, groups, k, r, c, q, next);
    HopBack(index, groups, k, r, c, next.value);
  }

  /** The keys under which the walk looks up its hops. */
  ghost function KeyAt(k: KeyId, certs: seq<Cert>, i: nat): KeyId
    requires i <= |certs|
  {
    if i == 0 then k else AkiKey(certs[i - 1])
  }

  /** Hop `i` is the best of its key; the score stays, and the length falls by one each time. */
  ghost predicate HopOk(index: Index, groups: seq<Group>, k: KeyId, r: Rank, certs: seq<Cert>, ranks: seq<Rank>, i: nat)
    requires i < |certs| == |ranks|
  {
    && BestAt(index, groups, KeyAt(k, certs, i), Some(ranks[i]))
    && certs[i] in Candidates(index, KeyAt(k, certs, i)) && certs[i].hash == ranks[i].hash
    && ranks[i].score == r.score && ranks[i].length == r.length - i
    && (SelfSigned(certs[i]) <==> i == r.length - 1)
    && (i < r.length - 1 ==> AkiKey(certs[i]) != "")
  }

  ghost predicate Hops(index: Index, groups: seq<Group>, k: KeyId, r: Rank, certs: seq<Cert>, ranks: seq<Rank>) {
    && |certs| == |ranks| <= r.length
    && forall i | 0 <= i < |certs| :: HopOk(index, groups, k, r, certs, ranks, i)
  }

  /** The complete trail of best parents, from the key to a root. */
  ghost predicate Trail(index: Index, groups: seq<Group>, k: KeyId, r: Rank, certs: seq<Cert>, ranks: seq<Rank>) {
    Hops(index, groups, k, r, certs, ranks) && |certs| == r.length > 0
  }

  /** Every key of the index has a best choice, which the table records. */
  lemma TableHasBest(index: Index, contexts: seq<seq<Group>>, table: Table, ctx: nat, k: KeyId)
    returns (best: Option<Rank>)
    requires TableOk(index, contexts, table) && ctx < |contexts|
    ensures BestAt(index, contexts[ctx], k, best)
    ensures best.Some? ==> k in table && ctx < |table[k]| && table[k][ctx] == Some(best.value.hash)
    ensures best.None? ==> k !in table || (ctx < |table[k]| && table[k][ctx] == None)
  {
    if k !in index {
      best := None;
    } else {
      var row :| RowOk(index, contexts, k, row) && if k in table then row == table[k] else !HasParent(row);
      assert ParentOk(index, contexts[ctx], k, row[ctx]);
      best :| BestAt(index, contexts[ctx], k, best) && row[ctx] == if best.Some? then Some(best.value.hash) else None;
    }
  }

  /** The next certificate of the trail. */
  lemma NextHop(index: Index, contexts: seq<seq<Group>>, table: Table, ctx: nat, k: KeyId, r: Rank)
    returns (c: Cert, next: Option<Rank>)
    requires WellIndexed(index) && TableOk(index, contexts, table) && ctx < |contexts|
    requires PoolsOk(index, contexts[ctx]) && BestAt(index, contexts[ctx], k, Some(r))
    ensures c in Candidates(index, k) && c.hash == r.hash && r.length > 0
    ensures r.length == 1 <==> SelfSigned(c)
    ensures r.length > 1 ==> AkiKey(c) != "" && next.Some? && BestAt(index, contexts[ctx], AkiKey(c), next)
    ensures r.length > 1 ==> next.value.score == r.score && next.value.length == r.length - 1
  {
    var q;
    c, q := BestCert(index, contexts[ctx], k, r);
    next := TableHasBest(index, contexts, table, ctx, AkiKey(c));
    if r.length > 1 {
      Hop(index, contexts[ctx], k, r, c, q, next);
    }
  }

  lemma HopsSnoc(index: Index, groups: seq<Group>, k: KeyId, r: Rank, certs: seq<Cert>, ranks: seq<Rank>, c: Cert,
      next: Rank)
    requires Hops(index, groups, k, r, certs, ranks) && |certs| < r.length
    requires HopOk(index, groups, k, r, certs + [c], ranks + [next], |certs|)
    ensures Hops(index, groups, k, r, certs + [c], ranks + [next])
  {
    forall i | 0 <= i < |certs| + 1 ensures HopOk(index, groups, k, r, certs + [c], ranks + [next], i) {
      if i < |certs| {
        assert HopOk(index, groups, k, r, certs, ranks, i);
        assert KeyAt(k, certs + [c], i) == KeyAt(k, certs, i);
      }
    }
  }

  /** The trail so far, and the rank at its end, whose certificate comes next. */
  ghost predicate Partway(index: Index, groups: seq<Group>, k: KeyId, r: Rank, certs: seq<Cert>, ranks: seq<Rank>,
      rank: Rank) {
    && Hops(index, groups, k, r, certs, ranks)
    && BestAt(index, groups, KeyAt(k, certs, |certs|), Some(rank))
    && rank.score == r.score && rank.length == r.length - |certs| > 0
  }

  lemma NewHopOk(index: Index, groups: seq<Group>, k: KeyId, r: Rank, certs: seq<Cert>, ranks: seq<Rank>, rank: Rank,
      c: Cert)
    requires |certs| == |ranks|
    requires BestAt(index, groups, KeyAt(k, certs, |certs|), Some(rank))
    requires rank.score == r.score && rank.length == r.length - |certs|
    requires c in Candidates(index, KeyAt(k, certs, |certs|)) && c.hash == rank.hash
    requires rank.length == 1 <==> SelfSigned(c)
    requires rank.length > 1 ==> AkiKey(c) != ""
    ensures HopOk(index, groups, k, r, certs + [c], ranks + [rank], |certs|)
  {
    assert KeyAt(k, certs + [c], |certs|) == KeyAt(k, certs, |certs|);
  }

  lemma OneMoreHop(index: Index, contexts: seq<seq<Group>>, table: Table, ctx: nat, k: KeyId, r: Rank,
      certs: seq<Cert>, ranks: seq<Rank>, rank: Rank)
    returns (c: Cert, next: Option<Rank>)
    requires WellIndexed(index) && TableOk(index, contexts, table) && ctx < |contexts|
    requires PoolsOk(index, contexts[ctx]) && Partway(index, contexts[ctx], k, r, certs, ranks, rank)
    ensures HopOk(index, contexts[ctx], k, r, certs + [c], ranks + [rank], |certs|)
    ensures rank.length > 1 ==> next.Some? && BestAt(index, contexts[ctx], AkiKey(c), next)
    ensures rank.length > 1 ==> next.value.score == r.score && next.value.length == rank.length - 1
  {
    c, next := NextHop(index, contexts, table, ctx, KeyAt(k, certs, |certs|), rank);
    NewHopOk(index, contexts[ctx], k, r, certs, ranks, rank, c);
  }

  lemma {:induction false} TrailFrom(index: Index, contexts: seq<seq<Group>>, table: Table, ctx: nat, k: KeyId, r: Rank,
      certs0: seq<Cert>, ranks0: seq<Rank>, rank: Rank)
    returns (certs: seq<Cert>, ranks: seq<Rank>)
    requires WellIndexed(index) && TableOk(index, contexts, table) && ctx < |contexts|
    requires PoolsOk(index, contexts[ctx]) && Partway(index, contexts[ctx], k, r, certs0, ranks0, rank)
    ensures Trail(index, contexts[ctx], k, r, certs, ranks)
    decreases rank.length
  {
    var c, next := OneMoreHop(index, contexts, table, ctx, k, r, certs0, ranks0, rank);
    HopsSnoc(index, contexts[ctx], k, r, certs0, ranks0, c, rank);
    certs, ranks := certs0 + [c], ranks0 + [rank];
    if rank.length > 1 {
      assert KeyAt(k, certs, |certs|) == AkiKey(c);
      certs, ranks := TrailFrom(index, contexts, table, ctx, k, r, certs, ranks, next.value);
    }
  }

  /** From the best entry of a key a complete trail leads to a root. */
  lemma TrailExists(index: Index, contexts: seq<seq<Group>>, table: Table, ctx: nat, k: KeyId, r: Rank)
    returns (certs: seq<Cert>, ranks: seq<Rank>)
    requires WellIndexed(index) && TableOk(index, contexts, table) && ctx < |contexts|
    requires PoolsOk(index, contexts[ctx]) && BestAt(index, contexts[ctx], k, Some(r))
    ensures Trail(index, contexts[ctx], k, r, certs, ranks)
  {
    var c, q := BestCert(index, contexts[ctx], k, r);
    certs, ranks := TrailFrom(index, contexts, table, ctx, k, r, [], [], r);
  }

  /** No certificate occurs twice on the trail. */
  lemma TrailIsSimple(index: Index, groups: seq<Group>, k: KeyId, r: Rank, certs: seq<Cert>, ranks: seq<Rank>, i: nat,
      j: nat)
    requires WellIndexed(index) && Hops(index, groups, k, r, certs, ranks) && i < |certs| && j < |certs|
    requires certs[i].hash == certs[j].hash
    ensures i == j
  {
    assert HopOk(index, groups, k, r, certs, ranks, i) && HopOk(index, groups, k, r, certs, ranks, j);
    var ki, kj := KeyAt(k, certs, i), KeyAt(k, certs, j);
    assert ki in index && certs[i] in index[ki] && kj in index && certs[j] in index[kj];
    assert certs[i] in Universe(index) && certs[j] in Universe(index);
    BestIsUnique(index, groups, Candidates(index, ki), Some(ranks[i]), Some(ranks[j]));
  }

  /** Where the walk ends: at the first certificate that was submitted, or at the root. */
  ghost predicate EndsAt(submitted: set<Hash>, certs: seq<Cert>, m: nat) {
    && m < |certs|
    && (forall j | 0 <= j < m :: certs[j].hash !in submitted)
    && (m < |certs| - 1 ==> certs[m].hash in submitted)
  }

  /** The table and the store lead to certificate `i` of a trail, which ends at a root. */
  ghost predicate LeadsTo(table: Table, ctx: nat, store: Store, k: KeyId, certs: seq<Cert>, i: nat)
    requires Columns(table, ctx) && i < |certs|
  {
    && KeyAt(k, certs, i) in table && table[KeyAt(k, certs, i)][ctx] == Some(certs[i].hash)
    && certs[i].hash in store && store[certs[i].hash] == Good(certs[i])
    && (SelfSigned(certs[i]) <==> i == |certs| - 1)
    && (i < |certs| - 1 ==> AkiKey(certs[i]) != "")
  }

  ghost predicate Simple(certs: seq<Cert>) {
    forall i, j | 0 <= i < j < |certs| :: certs[i].hash != certs[j].hash
  }

  lemma TrailLeads(index: Index, contexts: seq<seq<Group>>, table: Table, ctx: nat, store: Store,
      k: KeyId, r: Rank, certs: seq<Cert>, ranks: seq<Rank>, i: nat)
    requires WellIndexed(index) && TableOk(index, contexts, table) && ctx < |contexts| && Columns(table, ctx)
    requires StoreOk(index, store) && Trail(index, contexts[ctx], k, r, certs, ranks) && i < |certs|
    ensures LeadsTo(table, ctx, store, k, certs, i)
  {
    var key := KeyAt(k, certs, i);
    assert HopOk(index, contexts[ctx], k, r, certs, ranks, i);
    var best := TableHasBest(index, contexts, table, ctx, key);
    BestIsUnique(index, contexts[ctx], Candidates(index, key), best, Some(ranks[i]));
    assert key in index && certs[i] in index[key];
    assert certs[i] in Universe(index);
  }

  lemma FollowEnds(table: Table, ctx: nat, store: Store, k: KeyId, certs: seq<Cert>, seen: set<Hash>, m: nat)
    requires Columns(table, ctx) && m < |certs| && LeadsTo(table, ctx, store, k, certs, m)
    requires certs[m].hash in seen || m == |certs| - 1
    ensures Follow(table, ctx, store, seen, KeyAt(k, certs, m))
         == Found([], if certs[m].hash in seen then Cycle(certs[m].hash) else AtRoot(certs[m]))
  {
  }

  lemma FollowStep(table: Table, ctx: nat, store: Store, k: KeyId, certs: seq<Cert>, seen: set<Hash>, i: nat)
    requires Columns(table, ctx) && i < |certs| - 1 && LeadsTo(table, ctx, store, k, certs, i)
    requires certs[i].hash !in seen
    ensures var rest := Follow(table, ctx, store, seen + {certs[i].hash}, KeyAt(k, certs, i + 1));
            Follow(table, ctx, store, seen, KeyAt(k, certs, i)) == Found([certs[i]] + rest.added, rest.stop)
  {
  }

  /** From certificate `i` on, only what was submitted has been seen. */
  ghost predicate Ahead(seen: set<Hash>, submitted: set<Hash>, certs: seq<Cert>, i: nat) {
    forall j | i <= j < |certs| :: certs[j].hash in seen <==> certs[j].hash in submitted
  }

  lemma AheadNext(seen: set<Hash>, submitted: set<Hash>, certs: seq<Cert>, i: nat)
    requires Simple(certs) && i < |certs| && Ahead(seen, submitted, certs, i)
    ensures Ahead(seen + {certs[i].hash}, submitted, certs, i + 1)
  {
  }

  lemma {:induction false} FollowIsTrail(table: Table, ctx: nat, store: Store, k: KeyId, certs: seq<Cert>,
      submitted: set<Hash>, seen: set<Hash>, i: nat, m: nat)
    requires Columns(table, ctx) && Simple(certs) && EndsAt(submitted, certs, m) && i <= m
    requires forall j: nat | j < |certs| :: LeadsTo(table, ctx, store, k, certs, j)
    requires Ahead(seen, submitted, certs, i)
    ensures Follow(table, ctx, store, seen, KeyAt(k, certs, i))
         == Found(certs[i..m], if certs[m].hash in submitted then Cycle(certs[m].hash) else AtRoot(certs[m]))
    decreases m - i
  {
    if i < m {
      AheadNext(seen, submitted, certs, i);
      FollowIsTrail(table, ctx, store, k, certs, submitted, seen + {certs[i].hash}, i + 1, m);
      FollowStep(table, ctx, store, k, certs, seen, i);
      assert certs[i..m] == [certs[i]] + certs[i + 1..m];
    } else {
      FollowEnds(table, ctx, store, k, certs, seen, m);
    }
  }

  lemma {:induction false} EndExists(submitted: set<Hash>, certs: seq<Cert>, m0: nat) returns (m: nat)
    requires m0 < |certs| && forall j | 0 <= j < m0 :: certs[j].hash !in submitted
    ensures EndsAt(submitted, certs, m)
    decreases |certs| - m0
  {
    if m0 == |certs| - 1 || certs[m0].hash in submitted {
      m := m0;
    } else {
      m := EndExists(submitted, certs, m0 + 1);
    }
  }

  /** None of the intermediates of the trail was submitted already. */
  ghost predicate Fresh(submitted: set<Hash>, certs: seq<Cert>) {
    forall j | 0 <= j < |certs| - 1 :: certs[j].hash !in submitted
  }

  /** The walk along a trail: why and where it ends. */
  ghost function WalkTo(submitted: set<Hash>, certs: seq<Cert>, m: nat): Found
    requires m < |certs|
  {
    Found(certs[..m], if certs[m].hash in submitted then Cycle(certs[m].hash) else AtRoot(certs[m]))
  }

  lemma FollowFinds(index: Index, contexts: seq<seq<Group>>, table: Table, ctx: nat, store: Store,
      submitted: set<Hash>, k: KeyId, r: Rank, certs: seq<Cert>, ranks: seq<Rank>) returns (m: nat)
    requires WellIndexed(index) && TableOk(index, contexts, table) && ctx < |contexts| && Columns(table, ctx)
    requires StoreOk(index, store) && Trail(index, contexts[ctx], k, r, certs, ranks)
    ensures EndsAt(submitted, certs, m) && Follow(table, ctx, store, submitted, k) == WalkTo(submitted, certs, m)
  {
    forall i: nat | i < |certs| ensures LeadsTo(table, ctx, store, k, certs, i) {
      TrailLeads(index, contexts, table, ctx, store, k, r, certs, ranks, i);
    }
    forall i, j | 0 <= i < j < |certs| ensures certs[i].hash != certs[j].hash {
      if certs[i].hash == certs[j].hash {
        TrailIsSimple(index, contexts[ctx], k, r, certs, ranks, i, j);
      }
    }
    m := EndExists(submitted, certs, 0);
    FollowIsTrail(table, ctx, store, k, certs, submitted, submitted, 0, m);
  }

  /**
    Greedy discovery is optimal. The walk appends the trail of best parents up to the first certificate
    that was submitted, or up to the root. Exactly when no intermediate of the trail was submitted, it
    appends all L - 1 of them and ends because the next best parent is the self-signed root of score S
    (or that root was submitted with the chain).
   */
  lemma GreedyIsOptimal(index: Index, contexts: seq<seq<Group>>, table: Table, ctx: nat, store: Store,
      submitted: set<Hash>, k: KeyId, r: Rank) returns (certs: seq<Cert>, ranks: seq<Rank>, m: nat)
    requires WellIndexed(index) && TableOk(index, contexts, table) && ctx < |contexts| && Columns(table, ctx)
    requires StoreOk(index, store) && PoolsOk(index, contexts[ctx])
    requires BestAt(index, contexts[ctx], k, Some(r))
    ensures Trail(index, contexts[ctx], k, r, certs, ranks)
    ensures EndsAt(submitted, certs, m) && Follow(table, ctx, store, submitted, k) == WalkTo(submitted, certs, m)
    ensures m <= r.length - 1 && (m == r.length - 1 <==> Fresh(submitted, certs))
  {
    certs, ranks := TrailExists(index, contexts, table, ctx, k, r);
    m := FollowFinds(index, contexts, table, ctx, store, submitted, k, r, certs, ranks);
  }

  /** The trail, behind a certificate with that issuer key, is a path to a root of score S. */
  lemma TrailIsPath(index: Index, groups: seq<Group>, leaf: Cert, r: Rank, certs: seq<Cert>, ranks: seq<Rank>)
    requires WellIndexed(index) && Trail(index, groups, AkiKey(leaf), r, certs, ranks) && PoolsOk(index, groups)
    requires !SelfSigned(leaf) && AkiKey(leaf) != "" && certs[0].hash != leaf.hash
    ensures RootPath(index, leaf, [leaf] + certs)
    ensures Score(groups, Last(certs).hash) == r.score
  {
    forall i: nat | i < |certs| ensures Linked(index, AkiKey(leaf), certs, i) {
      assert HopOk(index, groups, AkiKey(leaf), r, certs, ranks, i);
    }
    LinkedIsWalk(index, leaf, certs);
    TrailEnd(index, groups, AkiKey(leaf), r, certs, ranks);
  }

  /** The part of a hop that makes the trail a path. */
  ghost predicate Linked(index: Index, k: KeyId, certs: seq<Cert>, i: nat)
    requires i < |certs|
  {
    && certs[i] in Candidates(index, KeyAt(k, certs, i))
    && (i < |certs| - 1 ==> !SelfSigned(certs[i]) && AkiKey(certs[i]) != "")
  }

  lemma LinkedIsWalk(index: Index, leaf: Cert, certs: seq<Cert>)
    requires WellIndexed(index) && certs != []
    requires !SelfSigned(leaf) && AkiKey(leaf) != "" && certs[0].hash != leaf.hash
    requires forall i: nat | i < |certs| :: Linked(index, AkiKey(leaf), certs, i)
    ensures Walk(index, leaf, [leaf] + certs)
  {
    var p := [leaf] + certs;
    forall i | 0 <= i < |p| - 1 ensures !SelfSigned(p[i]) && IsParent(index, p[i], p[i + 1]) {
      assert Linked(index, AkiKey(leaf), certs, i) && p[i + 1] == certs[i];
      if i > 0 {
        assert Linked(index, AkiKey(leaf), certs, i - 1) && p[i] == certs[i - 1];
        ParentIsElsewhere(index, KeyAt(AkiKey(leaf), certs, i - 1), certs[i - 1], certs[i]);
      }
    }
  }

  lemma TrailEnd(index: Index, groups: seq<Group>, k: KeyId, r: Rank, certs: seq<Cert>, ranks: seq<Rank>)
    requires WellIndexed(index) && Trail(index, groups, k, r, certs, ranks) && PoolsOk(index, groups)
    ensures SelfSigned(Last(certs)) && Score(groups, Last(certs).hash) == r.score
  {
    var n := |certs| - 1;
    assert HopOk(index, groups, k, r, certs, ranks, n);
    var root, q := BestCert(index, groups, KeyAt(k, certs, n), ranks[n]);
    assert SelfSigned(root) && q == [root] by {
      assert |q| == 1 && q[0] == root;
    }
  }

  /**
    No chain above the certificate reaches a better accepted root, nor one as good by a shorter way, nor by as
    short a way through a parent that expires later, or as late with a smaller hash.
   */
  lemma NoChainIsBetter(index: Index, groups: seq<Group>, leaf: Cert, r: Rank, p: seq<Cert>)
    requires BestAt(index, groups, AkiKey(leaf), Some(r)) && RootPath(index, leaf, p) && |p| > 1
    ensures Score(groups, Last(p).hash) <= r.score
    ensures Score(groups, Last(p).hash) == r.score ==> r.length + 1 <= |p|
    ensures Score(groups, Last(p).hash) == r.score && r.length + 1 == |p| ==>
              p[1].notAfter <= r.notAfter && (p[1].notAfter == r.notAfter ==> r.hash <= p[1].hash)
  {
    RootPathTail(index, leaf, p);
    NoCandidateBeats(index, groups, Candidates(index, AkiKey(leaf)), Some(r), p[1], p[1..]);
  }

  /** The hash of the certificate stands for it alone among the certificates of the index. */
  ghost predicate NamesOne(index: Index, last: Cert) {
    forall c | c in Universe(index) && c.hash == last.hash :: c == last
  }

  /**
    The certificate that the walk starts from never stops it: otherwise its issuer key would occur twice
    on the trail, with two different lengths.
   */
  lemma StartIsNotOnTrail(index: Index, groups: seq<Group>, last: Cert, r: Rank, certs: seq<Cert>, ranks: seq<Rank>,
      i: nat)
    requires WellIndexed(index) && Trail(index, groups, AkiKey(last), r, certs, ranks) && i < |certs|
    requires !SelfSigned(last) && NamesOne(index, last)
    ensures certs[i].hash != last.hash
  {
    var k := AkiKey(last);
    assert HopOk(index, groups, k, r, certs, ranks, i) && HopOk(index, groups, k, r, certs, ranks, 0);
    var key := KeyAt(k, certs, i);
    assert key in index && certs[i] in index[key] && certs[i] in Universe(index);
    if certs[i] == last {
      assert HopOk(index, groups, k, r, certs, ranks, i + 1) && KeyAt(k, certs, i + 1) == k;
      BestIsUnique(index, groups, Candidates(index, k), Some(ranks[0]), Some(ranks[i + 1]));
    }
  }

  /** A walk along a trail of which nothing was submitted passes all intermediates. */
  lemma FreshWalk(submitted: set<Hash>, certs: seq<Cert>, m: nat)
    requires EndsAt(submitted, certs, m) && Fresh(submitted, certs) && certs[|certs| - 1].hash !in submitted
    ensures WalkTo(submitted, certs, m) == Found(certs[..|certs| - 1], AtRoot(certs[|certs| - 1]))
  {
  }

  lemma StartIsFresh(index: Index, groups: seq<Group>, last: Cert, r: Rank, certs: seq<Cert>, ranks: seq<Rank>)
    requires WellIndexed(index) && Trail(index, groups, AkiKey(last), r, certs, ranks)
    requires !SelfSigned(last) && NamesOne(index, last)
    ensures Fresh({last.hash}, certs) && certs[|certs| - 1].hash != last.hash
  {
    forall i: nat | i < |certs| ensures certs[i].hash != last.hash {
      StartIsNotOnTrail(index, groups, last, r, certs, ranks, i);
    }
  }

  /** A submission of one certificate that is not self-signed gets all L - 1 intermediates, up to the root. */
  lemma OneCertificateGetsAll(index: Index, contexts: seq<seq<Group>>, table: Table, ctx: nat, store: Store,
      last: Cert, r: Rank) returns (certs: seq<Cert>, ranks: seq<Rank>)
    requires WellIndexed(index) && TableOk(index, contexts, table) && ctx < |contexts| && Columns(table, ctx)
    requires StoreOk(index, store) && PoolsOk(index, contexts[ctx])
    requires BestAt(index, contexts[ctx], AkiKey(last), Some(r))
    requires !SelfSigned(last) && NamesOne(index, last)
    ensures Trail(index, contexts[ctx], AkiKey(last), r, certs, ranks)
    ensures Follow(table, ctx, store, {last.hash}, AkiKey(last)) ==
          Found(certs[..r.length - 1], AtRoot(certs[r.length - 1]))
  {
    var m;
    certs, ranks, m := GreedyIsOptimal(index, contexts, table, ctx, store, {last.hash}, AkiKey(last), r);
    StartIsFresh(index, contexts[ctx], last, r, certs, ranks);
    FreshWalk({last.hash}, certs, m);
  }

  /** Without a best parent for the key, discovery reports failure. */
  lemma NothingToFollow(index: Index, contexts: seq<seq<Group>>, table: Table, ctx: nat, store: Store,
      submitted: set<Hash>, k: KeyId)
    requires TableOk(index, contexts, table) && ctx < |contexts| && Columns(table, ctx)
    requires BestAt(index, contexts[ctx], k, None)
    ensures Follow(table, ctx, store, submitted, k) == Found([], NoEntry)
  {
    var best := TableHasBest(index, contexts, table, ctx, k);
    BestIsUnique(index, contexts[ctx], Candidates(index, k), best, None);
  }

  // ---- Discovering again ----

  ghost function HashesOf(certs: seq<Cert>): set<Hash> {
    set i: nat | i < |certs| :: certs[i].hash
  }

  /** A stored certificate is stored under its own hash. */
  ghost predicate Honest(store: Store) {
    forall h | h in store :: HashOf(store[h]) == h
  }

  lemma HashesCons(c: Cert, certs: seq<Cert>)
    ensures HashesOf([c] + certs) == {c.hash} + HashesOf(certs)
  {
    var all := [c] + certs;
    assert all[0] == c;
    forall h | h in HashesOf(certs) ensures h in HashesOf(all) {
      var i: nat :| i < |certs| && certs[i].hash == h;
      assert all[i + 1] == certs[i];
    }
  }

  /** Where a walk ended, a walk that has seen all of it does not go on. */
  lemma {:induction false} WalkEndsForGood(table: Table, ctx: nat, store: Store, seen: set<Hash>, aki: KeyId)
    requires Columns(table, ctx) && Honest(store) && "" !in table
    requires Follow(table, ctx, store, seen, aki).added != []
    ensures var added := Follow(table, ctx, store, seen, aki).added;
            Follow(table, ctx, store, seen + HashesOf(added), AkiKey(Last(added))).added == []
    decreases store.Keys - seen
  {
    var h := table[aki][ctx].value;
    var c := store[h].cert;
    assert c.hash == h;
    var rest := Follow(table, ctx, store, seen + {h}, AkiKey(c)).added;
    if AkiKey(c) == "" {
      assert HashesOf([c]) == {h} by { HashesCons(c, []); assert [c] + [] == [c]; }
    } else if rest == [] {
      assert HashesOf([c]) == {h} by { HashesCons(c, []); assert [c] + [] == [c]; }
      assert [c] + rest == [c];
    } else {
      WalkEndsForGood(table, ctx, store, seen + {h}, AkiKey(c));
      HashesCons(c, rest);
      assert seen + {h} + HashesOf(rest) == seen + HashesOf([c] + rest);
      assert Last([c] + rest) == Last(rest);
    }
  }

  lemma DigestsOfAnswer(partial: seq<Der>, added: seq<Cert>)
    ensures Digests(partial + Ders(added)) == Digests(partial) + HashesOf(added)
  {
    var all := partial + Ders(added);
    forall h | h in Digests(partial) ensures h in Digests(all) {
      var i: nat :| i < |partial| && HashOf(partial[i]) == h;
      assert all[i] == partial[i];
    }
    forall h | h in HashesOf(added) ensures h in Digests(all) {
      var i: nat :| i < |added| && added[i].hash == h;
      assert all[|partial| + i] == Good(added[i]);
    }
  }

  /** Submitting a discovered chain again discovers nothing more. */
  lemma DiscoveryIsIdempotent(table: Table, ctx: nat, store: Store, partial: seq<Der>, k: KeyId)
    requires Columns(table, ctx) && Honest(store) && "" !in table
    requires Follow(table, ctx, store, Digests(partial), k).added != []
    ensures var added := Follow(table, ctx, store, Digests(partial), k).added;
            var chain := partial + Ders(added);
            && chain[|chain| - 1] == Good(Last(added))
            && Answer(chain, Follow(table, ctx, store, Digests(chain), AkiKey(Last(added)))) == None
  {
    var added := Follow(table, ctx, store, Digests(partial), k).added;
    DigestsOfAnswer(partial, added);
    WalkEndsForGood(table, ctx, store, Digests(partial), k);
  }

  // ---- Both programs together ----

  lemma TableHasColumns(index: Index, contexts: seq<seq<Group>>, table: Table, ctx: nat)
    requires TableOk(index, contexts, table) && ctx < |contexts|
    ensures Columns(table, ctx)
  {
  }

  method StoreOf(certs: seq<Cert>) returns (store: Store)
    requires forall j, k | 0 <= j < k < |certs| :: certs[j].hash != certs[k].hash
    ensures forall c | c in certs :: c.hash in store && store[c.hash] == Good(c)
  {
    store := map[];
    for i := 0 to |certs|
      invariant forall k | 0 <= k < i :: certs[k].hash in store && store[certs[k].hash] == Good(certs[k])
    {
      store := store[certs[i].hash := Good(certs[i])];
    }
  }

  /** What is added above a certificate: the trail from its best parent, as far as it was not submitted. */
  ghost predicate Extends(partial: seq<Der>, chain: Option<seq<Der>>, trail: seq<Cert>) {
    exists m: nat :: EndsAt(Digests(partial), trail, m)
      && chain == if m == 0 then None else Some(partial + Ders(trail[..m]))
  }

  ghost predicate FollowsTrail(index: Index, groups: seq<Group>, k: KeyId, r: Rank, partial: seq<Der>,
      chain: Option<seq<Der>>) {
    exists trail, ranks :: Trail(index, groups, k, r, trail, ranks) && Extends(partial, chain, trail)
  }

  /** The optimal discovery for a certificate with issuer key `k`. */
  ghost predicate IsDiscovery(index: Index, groups: seq<Group>, k: KeyId, partial: seq<Der>, chain: Option<seq<Der>>) {
    exists best :: BestAt(index, groups, k, best)
      && if best.None? then chain == None else FollowsTrail(index, groups, k, best.value, partial, chain)
  }

  lemma WalkIsDiscovery(index: Index, contexts: seq<seq<Group>>, table: Table, ctx: nat, store: Store,
      partial: seq<Der>, k: KeyId, r: Rank)
    requires WellIndexed(index) && TableOk(index, contexts, table) && ctx < |contexts| && Columns(table, ctx)
    requires StoreOk(index, store) && PoolsOk(index, contexts[ctx]) && BestAt(index, contexts[ctx], k, Some(r))
    ensures FollowsTrail(index, contexts[ctx], k, r, partial, Answer(partial, Follow(table, ctx, store,
          Digests(partial), k)))
  {
    var trail, ranks, m := GreedyIsOptimal(index, contexts, table, ctx, store, Digests(partial), k, r);
    assert Extends(partial, Answer(partial, WalkTo(Digests(partial), trail, m)), trail);
  }

  /**
    The table built from a set of CA certificates, followed at run time over the same certificates,
    adds an optimal trail, up to the first of its certificates that was submitted already.
   */
  method BuildAndDiscover(certs: seq<Cert>, contexts: seq<seq<Group>>, ctx: nat, partial: seq<Der>, last: Cert)
    returns (index: Index, chain: Option<seq<Der>>)
    requires forall j, k | 0 <= j < k < |certs| :: certs[j].hash != certs[k].hash
    requires ctx < |contexts| && partial != [] && partial[|partial| - 1] == Good(last)
    requires forall i, c | 0 <= i < |contexts[ctx]| && c in certs && c.hash in contexts[ctx][i].roots :: SelfSigned(c)
    ensures WellIndexed(index) && Universe(index) == set c | c in certs && c.ski.Some? && c.ski.value != ""
    ensures IsDiscovery(index, contexts[ctx], AkiKey(last), partial, chain)
  {
    index := IndexBySki(certs);
    var table := BuildTable(index, contexts);
    var store := StoreOf(certs);
    TableHasColumns(index, contexts, table, ctx);
    chain := DiscoverChain(partial, ctx, table, store);
    ghost var best := TableHasBest(index, contexts, table, ctx, AkiKey(last));
    if best.None? {
      NothingToFollow(index, contexts, table, ctx, store, Digests(partial), AkiKey(last));
    } else {
      WalkIsDiscovery(index, contexts, table, ctx, store, partial, AkiKey(last), best.value);
    }
  }
}
