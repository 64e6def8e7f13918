/** `buildChains`: the shortest chain from a certificate to each self-signed root it can reach. */
module Bfs {
  import opened Issuers
  import opened Finite

  datatype Node = Node(cert: Cert, path: seq<Cert>)

  /**
    The state of the search. `depth` records the length at which each visited certificate was
    reached; `done` are the visited certificates whose parents have all been looked at.
   */
  datatype Search = Search(
    queue: seq<Node>,
    depth: map<Cert, nat>,
    done: set<Cert>,
    roots: set<Cert>,
    chains: seq<seq<Cert>>)

  /** A walk that can be extended: none of its certificates is self-signed. */
  ghost predicate Open(index: Index, start: Cert, p: seq<Cert>) {
    Walk(index, start, p) && !SelfSigned(Last(p))
  }

  ghost function Queued(queue: seq<Node>): set<Cert> {
    set k: nat | k < |queue| :: queue[k].cert
  }

  /** Nodes wait in order of length, and the lengths differ by at most one. */
  ghost predicate Ordered(queue: seq<Node>) {
    forall j, k | 0 <= j < k < |queue| :: |queue[j].path| <= |queue[k].path| <= |queue[0].path| + 1
  }

  ghost predicate QueueOk(index: Index, start: Cert, s: Search) {
    && (forall k | 0 <= k < |s.queue| :: NodeOk(index, start, s.queue[k], s.depth))
    && Ordered(s.queue)
    && s.depth.Keys <= s.done + Queued(s.queue)
  }

  ghost predicate NodeOk(index: Index, start: Cert, n: Node, depth: map<Cert, nat>) {
    && Open(index, start, n.path) && Last(n.path) == n.cert
    && n.cert in depth && depth[n.cert] == |n.path|
  }

  /** Visited certificates were reached at their least depth. */
  ghost predicate DepthOk(index: Index, start: Cert, s: Search) {
    && start in s.depth && s.done <= s.depth.Keys <= Universe(index)
    && (forall c | c in s.depth :: !SelfSigned(c))
    && (forall p | Open(index, start, p) && Last(p) in s.depth :: s.depth[Last(p)] <= |p|)
  }

  ghost predicate Handled(s: Search, p: Cert) {
    if SelfSigned(p) then p in s.roots else p in s.depth
  }

  ghost predicate DoneOk(index: Index, s: Search) {
    forall c, p | c in s.done && IsParent(index, c, p) :: Handled(s, p)
  }

  ghost function RootsOf(chains: seq<seq<Cert>>): set<Cert> {
    set k: nat | k < |chains| && chains[k] != [] :: Last(chains[k])
  }

  /** One shortest chain per root found so far, shortest chains first. */
  ghost predicate ChainsOk(index: Index, start: Cert, s: Search) {
    && s.roots <= Universe(index)
    && s.roots == RootsOf(s.chains)
    && ChainList(index, start, s.chains)
    && (s.queue != [] ==> forall k | 0 <= k < |s.chains| :: |s.chains[k]| <= |s.queue[0].path| + 1)
  }

  ghost predicate ChainList(index: Index, start: Cert, chains: seq<seq<Cert>>) {
    && (forall k | 0 <= k < |chains| :: ShortestRootPath(index, start, chains[k]))
    && (forall j, k | 0 <= j < k < |chains| :: |chains[j]| <= |chains[k]| && Last(chains[j]) != Last(chains[k]))
  }

  ghost predicate SearchOk(index: Index, start: Cert, s: Search) {
    && QueueOk(index, start, s)
    && DepthOk(index, start, s)
    && DoneOk(index, s)
    && ChainsOk(index, start, s)
  }

  /** Whatever has not been visited is further away than the front of the queue. */
  lemma {:induction false} OutsideIsFar(index: Index, start: Cert, s: Search, p: seq<Cert>)
    requires QueueOk(index, start, s) && DepthOk(index, start, s) && DoneOk(index, s)
    requires Open(index, start, p) && Last(p) !in s.depth
    ensures s.queue != [] && |p| > |s.queue[0].path|
    decreases |p|, 0
  {
    if |p| > 1 {
      WalkInit(index, start, p);
      InsideOrFar(index, start, s, p[..|p| - 1], Last(p));
    }
  }

  /** The last step of a walk to something not handled starts at or beyond the front of the queue. */
  lemma InsideOrFar(index: Index, start: Cert, s: Search, init: seq<Cert>, c: Cert)
    requires QueueOk(index, start, s) && DepthOk(index, start, s) && DoneOk(index, s)
    requires Open(index, start, init) && IsParent(index, Last(init), c) && !Handled(s, c)
    ensures s.queue != [] && |init| >= |s.queue[0].path|
    decreases |init|, 1
  {
    if Last(init) in s.depth {
      assert Last(init) in Queued(s.queue);
      var k: nat :| k < |s.queue| && s.queue[k].cert == Last(init);
      assert NodeOk(index, start, s.queue[k], s.depth);
    } else {
      OutsideIsFar(index, start, s, init);
    }
  }

  /** Looking at one more parent of the front node. */
  ghost function Visit(s: Search, path: seq<Cert>, p: Cert): Search {
    if p in s.depth then s
    else if SelfSigned(p) then
      if p in s.roots then s else s.(roots := s.roots + {p}, chains := s.chains + [path + [p]])
    else
      s.(depth := s.depth[p := |path| + 1], queue := s.queue + [Node(p, path + [p])])
  }

  lemma VisitRootOk(index: Index, start: Cert, s: Search, p: Cert)
    requires SearchOk(index, start, s) && s.queue != [] && start in Universe(index)
    requires IsParent(index, s.queue[0].cert, p) && SelfSigned(p) && p !in s.roots
    ensures SearchOk(index, start, Visit(s, s.queue[0].path, p))
  {
    NewRootIsShortest(index, start, s, p);
    SnocChain(index, start, s.chains, s.queue[0].path + [p]);
    RootsSnoc(s.chains, s.queue[0].path + [p]);
  }

  lemma NewRootIsShortest(index: Index, start: Cert, s: Search, p: Cert)
    requires QueueOk(index, start, s) && DepthOk(index, start, s) && DoneOk(index, s)
    requires s.queue != [] && start in Universe(index)
    requires IsParent(index, s.queue[0].cert, p) && SelfSigned(p) && p !in s.roots
    ensures ShortestRootPath(index, start, s.queue[0].path + [p]) && p in Universe(index)
  {
    var front := s.queue[0];
    assert NodeOk(index, start, front, s.depth);
    var chain := front.path + [p];
    WalkSnoc(index, start, front.path, p);
    WalkStays(index, start, chain);
    assert p in chain;
    forall q | RootPath(index, start, q) && Last(q) == p ensures |chain| <= |q| {
      RootPathIsLong(index, start, s, q);
    }
  }

  lemma RootPathIsLong(index: Index, start: Cert, s: Search, q: seq<Cert>)
    requires QueueOk(index, start, s) && DepthOk(index, start, s) && DoneOk(index, s)
    requires RootPath(index, start, q) && Last(q) !in s.roots
    ensures s.queue != [] && |q| > |s.queue[0].path|
  {
    assert !SelfSigned(start);
    WalkInit(index, start, q);
    InsideOrFar(index, start, s, q[..|q| - 1], Last(q));
  }

  lemma SnocChain(index: Index, start: Cert, chains: seq<seq<Cert>>, chain: seq<Cert>)
    requires ChainList(index, start, chains) && ShortestRootPath(index, start, chain)
    requires Last(chain) !in RootsOf(chains)
    requires forall k | 0 <= k < |chains| :: |chains[k]| <= |chain|
    ensures ChainList(index, start, chains + [chain])
  {
    forall k | 0 <= k < |chains| ensures Last(chains[k]) in RootsOf(chains) {
      assert ShortestRootPath(index, start, chains[k]);
    }
  }

  lemma RootsSnoc(chains: seq<seq<Cert>>, chain: seq<Cert>)
    requires chain != []
    ensures RootsOf(chains + [chain]) == RootsOf(chains) + {Last(chain)}
  {
    var all := chains + [chain];
    forall r | r in RootsOf(chains) + {Last(chain)} ensures r in RootsOf(all) {
      if r in RootsOf(chains) {
        var k: nat :| k < |chains| && chains[k] != [] && Last(chains[k]) == r;
        assert all[k] == chains[k];
      } else {
        assert all[|chains|] == chain;
      }
    }
  }

  lemma VisitInnerOk(index: Index, start: Cert, s: Search, p: Cert)
    requires SearchOk(index, start, s) && s.queue != [] && start in Universe(index)
    requires IsParent(index, s.queue[0].cert, p) && !SelfSigned(p) && p !in s.depth
    ensures SearchOk(index, start, Visit(s, s.queue[0].path, p))
  {
    var s' := Visit(s, s.queue[0].path, p);
    NewDepthIsLeast(index, start, s, p);
    EnqueueOk(index, start, s, p);
    forall c, d | c in s'.done && IsParent(index, c, d) ensures Handled(s', d) {
      assert Handled(s, d);
    }
  }

  lemma NewDepthIsLeast(index: Index, start: Cert, s: Search, p: Cert)
    requires QueueOk(index, start, s) && DepthOk(index, start, s) && DoneOk(index, s)
    requires s.queue != [] && start in Universe(index)
    requires IsParent(index, s.queue[0].cert, p) && !SelfSigned(p) && p !in s.depth
    ensures DepthOk(index, start, Visit(s, s.queue[0].path, p))
  {
    var s' := Visit(s, s.queue[0].path, p);
    assert p in Universe(index);
    forall q | Open(index, start, q) && Last(q) in s'.depth ensures s'.depth[Last(q)] <= |q| {
      if Last(q) == p {
        OutsideIsFar(index, start, s, q);
      }
    }
  }

  lemma NewNodeOk(index: Index, start: Cert, s: Search, p: Cert)
    requires s.queue != [] && NodeOk(index, start, s.queue[0], s.depth)
    requires IsParent(index, s.queue[0].cert, p) && !SelfSigned(p)
    ensures NodeOk(index, start, Node(p, s.queue[0].path + [p]), s.depth[p := |s.queue[0].path| + 1])
  {
    WalkSnoc(index, start, s.queue[0].path, p);
  }

  lemma OrderedSnoc(queue: seq<Node>, n: Node)
    requires queue != [] && Ordered(queue) && |n.path| == |queue[0].path| + 1
    ensures Ordered(queue + [n])
  {
    var all := queue + [n];
    forall j, k | 0 <= j < k < |all| ensures |all[j].path| <= |all[k].path| <= |all[0].path| + 1 {
      assert j > 0 ==> |queue[j].path| <= |queue[0].path| + 1;
    }
  }

  lemma EnqueueOk(index: Index, start: Cert, s: Search, p: Cert)
    requires QueueOk(index, start, s) && s.queue != []
    requires IsParent(index, s.queue[0].cert, p) && !SelfSigned(p) && p !in s.depth
    ensures QueueOk(index, start, Visit(s, s.queue[0].path, p))
  {
    var s' := Visit(s, s.queue[0].path, p);
    assert NodeOk(index, start, s.queue[0], s.depth);
    NewNodeOk(index, start, s, p);
    forall k | 0 <= k < |s'.queue| ensures NodeOk(index, start, s'.queue[k], s'.depth) {
      if k < |s.queue| {
        assert NodeOk(index, start, s.queue[k], s.depth);
      }
    }
    QueuedSnoc(s.queue, Node(p, s.queue[0].path + [p]));
    OrderedSnoc(s.queue, Node(p, s.queue[0].path + [p]));
  }

  lemma QueuedSnoc(queue: seq<Node>, n: Node)
    ensures Queued(queue + [n]) == Queued(queue) + {n.cert}
  {
    var all := queue + [n];
    forall c | c in Queued(queue) + {n.cert} ensures c in Queued(all) {
      if c in Queued(queue) {
        var k: nat :| k < |queue| && queue[k].cert == c;
        assert all[k] == queue[k];
      } else {
        assert all[|queue|] == n;
      }
    }
  }

  lemma VisitOk(index: Index, start: Cert, s: Search, p: Cert)
    requires SearchOk(index, start, s) && s.queue != [] && start in Universe(index)
    requires IsParent(index, s.queue[0].cert, p)
    ensures SearchOk(index, start, Visit(s, s.queue[0].path, p))
  {
    if p !in s.depth {
      if !SelfSigned(p) {
        VisitInnerOk(index, start, s, p);
      } else if p !in s.roots {
        VisitRootOk(index, start, s, p);
      }
    }
  }

  /** The front node is finished once all its parents have been handled. */
  ghost function Pop(s: Search): Search
    requires s.queue != []
  {
    s.(queue := s.queue[1..], done := s.done + {s.queue[0].cert})
  }

  lemma PopDoneOk(index: Index, s: Search)
    requires DoneOk(index, s) && s.queue != []
    requires forall p | IsParent(index, s.queue[0].cert, p) :: Handled(s, p)
    ensures DoneOk(index, Pop(s))
  {
    forall c, p | c in Pop(s).done && IsParent(index, c, p) ensures Handled(Pop(s), p) {
      assert Handled(s, p);
    }
  }

  lemma PopChainsOk(index: Index, start: Cert, s: Search)
    requires ChainsOk(index, start, s) && Ordered(s.queue) && s.queue != []
    ensures ChainsOk(index, start, Pop(s))
  {
    if Pop(s).queue != [] {
      assert Pop(s).queue[0] == s.queue[1];
    }
  }

  lemma PopOk(index: Index, start: Cert, s: Search)
    requires SearchOk(index, start, s) && s.queue != []
    requires forall p | IsParent(index, s.queue[0].cert, p) :: Handled(s, p)
    ensures SearchOk(index, start, Pop(s))
  {
    PopQueueOk(index, start, s);
    assert NodeOk(index, start, s.queue[0], s.depth);
    PopDoneOk(index, s);
    PopChainsOk(index, start, s);
  }

  lemma PopQueued(queue: seq<Node>)
    requires queue != []
    ensures Queued(queue) <= Queued(queue[1..]) + {queue[0].cert}
  {
    forall c | c in Queued(queue) ensures c == queue[0].cert || c in Queued(queue[1..]) {
      var k: nat :| k < |queue| && queue[k].cert == c;
      assert k > 0 ==> queue[1..][k - 1] == queue[k];
    }
  }

  lemma PopOrdered(queue: seq<Node>)
    requires Ordered(queue) && queue != []
    ensures Ordered(queue[1..])
  {
    forall j, k | 0 <= j < k < |queue[1..]|
      ensures |queue[1..][j].path| <= |queue[1..][k].path| <= |queue[1..][0].path| + 1
    {
      assert queue[1..][j] == queue[j + 1] && queue[1..][k] == queue[k + 1] && queue[1..][0] == queue[1];
    }
  }

  lemma PopQueueOk(index: Index, start: Cert, s: Search)
    requires QueueOk(index, start, s) && s.queue != []
    ensures QueueOk(index, start, Pop(s))
  {
    var s' := Pop(s);
    forall k | 0 <= k < |s'.queue| ensures NodeOk(index, start, s'.queue[k], s'.depth) {
      assert NodeOk(index, start, s.queue[k + 1], s.depth);
    }
    PopQueued(s.queue);
    PopOrdered(s.queue);
  }

  /** When the queue is empty, every reachable root has been found. */
  lemma AllRootsFound(index: Index, start: Cert, s: Search, q: seq<Cert>)
    requires SearchOk(index, start, s) && s.queue == []
    requires RootPath(index, start, q)
    ensures Last(q) in s.roots
  {
    if Last(q) !in s.roots {
      RootPathIsLong(index, start, s, q);
    }
  }

  /** What `buildChains` returns for a certificate that is not self-signed. */
  ghost predicate ChainsFor(index: Index, start: Cert, chains: seq<seq<Cert>>) {
    if exists q :: RootPath(index, start, q) then
      && ChainList(index, start, chains)
      && (forall q | RootPath(index, start, q) :: Last(q) in RootsOf(chains))
    else
      chains == [[start]]
  }

  ghost function Hashes(certs: set<Cert>): set<Hash> {
    set c | c in certs :: c.hash
  }

  /** The variables of the method are the search state, with hashes in place of certificates. */
  ghost predicate Tracks(s: Search, queue: seq<Node>, visited: set<Hash>, seenRoots: set<Hash>,
      chains: seq<seq<Cert>>) {
    queue == s.queue && visited == Hashes(s.depth.Keys) && seenRoots == Hashes(s.roots) && chains == s.chains
  }

  ghost predicate Inside(index: Index, s: Search) {
    s.depth.Keys <= Universe(index) && s.roots <= Universe(index)
  }

  lemma HashIsIdentity(index: Index, certs: set<Cert>, p: Cert)
    requires WellIndexed(index) && certs <= Universe(index) && p in Universe(index)
    ensures p.hash in Hashes(certs) <==> p in certs
  {
  }

  lemma StartOk(index: Index, start: Cert, s: Search)
    requires start in Universe(index) && !SelfSigned(start)
    requires s == Search([Node(start, [start])], map[start := 1], {}, {}, [])
    ensures SearchOk(index, start, s)
    ensures Tracks(s, s.queue, {start.hash}, {}, [])
  {
    assert NodeOk(index, start, s.queue[0], s.depth);
    assert s.queue[0].cert in Queued(s.queue);
  }

  lemma HashesAdd(certs: set<Cert>, c: Cert)
    ensures Hashes(certs + {c}) == Hashes(certs) + {c.hash}
  {
  }

  ghost predicate Grows(s: Search, queued: nat, s': Search, queued': nat) {
    s.depth.Keys < s'.depth.Keys || (s.depth.Keys == s'.depth.Keys && queued' == queued)
  }

  lemma VisitGrows(s: Search, path: seq<Cert>, p: Cert)
    ensures Grows(s, |s.queue|, Visit(s, path, p), |Visit(s, path, p).queue|)
  {
    if p !in s.depth {
      var s' := Visit(s, path, p);
      assert !SelfSigned(p) ==> p in s'.depth.Keys && s.depth.Keys <= s'.depth.Keys;
    }
  }

  /** Looking at all parents of the front node, in order. */
  ghost function VisitAll(s: Search, path: seq<Cert>, parents: seq<Cert>): Search {
    if parents == [] then s
    else Visit(VisitAll(s, path, parents[..|parents| - 1]), path, Last(parents))
  }

  lemma {:induction false} VisitAllGrows(s: Search, path: seq<Cert>, parents: seq<Cert>)
    requires s.queue != []
    ensures var s' := VisitAll(s, path, parents);
            && s'.queue != [] && s'.queue[0] == s.queue[0]
            && Grows(s, |s.queue|, s', |s'.queue|)
  {
    if parents != [] {
      VisitAllGrows(s, path, parents[..|parents| - 1]);
      VisitGrows(VisitAll(s, path, parents[..|parents| - 1]), path, Last(parents));
    }
  }

  ghost predicate NoRootVisited(s: Search) {
    forall c | c in s.depth :: !SelfSigned(c)
  }

  lemma {:induction false} VisitAllHandles(s: Search, path: seq<Cert>, parents: seq<Cert>)
    requires NoRootVisited(s)
    ensures var s' := VisitAll(s, path, parents);
            NoRootVisited(s') && forall k | 0 <= k < |parents| :: Handled(s', parents[k])
  {
    if parents != [] {
      var before := parents[..|parents| - 1];
      VisitAllHandles(s, path, before);
      forall k | 0 <= k < |parents| ensures Handled(VisitAll(s, path, parents), parents[k]) {
        assert k < |before| ==> Handled(VisitAll(s, path, before), before[k]);
      }
    }
  }

  lemma {:induction false} VisitAllOk(index: Index, start: Cert, s: Search, parents: seq<Cert>)
    requires SearchOk(index, start, s) && s.queue != [] && start in Universe(index)
    requires forall k | 0 <= k < |parents| :: IsParent(index, s.queue[0].cert, parents[k])
    ensures SearchOk(index, start, VisitAll(s, s.queue[0].path, parents))
  {
    if parents != [] {
      var before := parents[..|parents| - 1];
      VisitAllOk(index, start, s, before);
      VisitAllGrows(s, s.queue[0].path, before);
      VisitOk(index, start, VisitAll(s, s.queue[0].path, before), Last(parents));
    }
  }

  /** One round of the search: the front node is expanded and finished. */
  ghost function Round(s: Search, parents: seq<Cert>): Search
    requires s.queue != []
  {
    var s' := VisitAll(s, s.queue[0].path, parents);
    if s'.queue == [] then s' else Pop(s')
  }

  lemma RoundOk(index: Index, start: Cert, s: Search, parents: seq<Cert>)
    requires SearchOk(index, start, s) && s.queue != [] && start in Universe(index)
    requires forall p :: p in parents <==> IsParent(index, s.queue[0].cert, p)
    ensures SearchOk(index, start, Round(s, parents))
  {
    var s' := VisitAll(s, s.queue[0].path, parents);
    VisitAllGrows(s, s.queue[0].path, parents);
    VisitAllHandles(s, s.queue[0].path, parents);
    VisitAllOk(index, start, s, parents);
    forall p | IsParent(index, s'.queue[0].cert, p) ensures Handled(s', p) {
      var k: nat :| k < |parents| && parents[k] == p;
    }
    PopOk(index, start, s');
  }

  ghost function Unvisited(index: Index, s: Search): nat {
    |Universe(index) - s.depth.Keys|
  }

  ghost predicate Progress(index: Index, s: Search, queued: nat, s': Search, queued': nat) {
    Unvisited(index, s') < Unvisited(index, s) || (Unvisited(index, s') == Unvisited(index, s) && queued' < queued)
  }

  /** Each round visits something new or shortens the queue. */
  lemma RoundProgresses(index: Index, start: Cert, s: Search, parents: seq<Cert>)
    requires s.queue != [] && SearchOk(index, start, Round(s, parents))
    ensures Progress(index, s, |s.queue|, Round(s, parents), |Round(s, parents).queue|)
  {
    VisitAllGrows(s, s.queue[0].path, parents);
    var s' := Round(s, parents);
    if s.depth.Keys < s'.depth.Keys {
      SubsetSize(Universe(index) - s'.depth.Keys, Universe(index) - s.depth.Keys);
    }
  }

  /** One iteration over the parents of the node taken from the front of the queue. */
  method VisitParent(index: Index, ghost s: Search, node: Node, parent: Cert,
      queue: seq<Node>, visited: set<Hash>, seenRoots: set<Hash>, chains: seq<seq<Cert>>)
    returns (queue': seq<Node>, visited': set<Hash>, seenRoots': set<Hash>, chains': seq<seq<Cert>>)
    requires WellIndexed(index) && Inside(index, s) && parent in Universe(index)
    requires Tracks(s, [node] + queue, visited, seenRoots, chains)
    ensures Tracks(Visit(s, node.path, parent), [node] + queue', visited', seenRoots', chains')
    ensures Inside(index, Visit(s, node.path, parent))
  {
    queue', visited', seenRoots', chains' := queue, visited, seenRoots, chains;
    HashIsIdentity(index, s.depth.Keys, parent);
    HashIsIdentity(index, s.roots, parent);
    if parent.hash in visited { return; }
    var newPath := node.path + [parent];
    if SelfSigned(parent) {
      if parent.hash !in seenRoots {
        HashesAdd(s.roots, parent);
        seenRoots' := seenRoots + {parent.hash};
        chains' := chains + [newPath];
      }
    } else {
      HashesAdd(s.depth.Keys, parent);
      assert Visit(s, node.path, parent).depth.Keys == s.depth.Keys + {parent};
      visited' := visited + {parent.hash};
      queue' := queue + [Node(parent, newPath)];
      assert [node] + queue' == ([node] + queue) + [Node(parent, newPath)];
    }
  }

  /** The loop over the parents of the front node. */
  method VisitParents(index: Index, ghost s: Search, node: Node, parents: seq<Cert>,
      queue0: seq<Node>, visited0: set<Hash>, seenRoots0: set<Hash>, chains0: seq<seq<Cert>>)
    returns (queue: seq<Node>, visited: set<Hash>, seenRoots: set<Hash>, chains: seq<seq<Cert>>)
    requires WellIndexed(index) && Inside(index, s)
    requires Tracks(s, [node] + queue0, visited0, seenRoots0, chains0)
    requires forall k | 0 <= k < |parents| :: parents[k] in Universe(index)
    ensures Tracks(VisitAll(s, node.path, parents), [node] + queue, visited, seenRoots, chains)
  {
    queue, visited, seenRoots, chains := queue0, visited0, seenRoots0, chains0;
    for i := 0 to |parents|
      invariant Inside(index, VisitAll(s, node.path, parents[..i]))
      invariant Tracks(VisitAll(s, node.path, parents[..i]), [node] + queue, visited, seenRoots, chains)
    {
      assert parents[..i + 1][..i] == parents[..i] && Last(parents[..i + 1]) == parents[i];
      queue, visited, seenRoots, chains := VisitParent(
        index, VisitAll(s, node.path, parents[..i]), node, parents[i], queue, visited, seenRoots, chains);
    }
    assert parents[..|parents|] == parents;
  }

  /** Take the front node off the queue and look at its parents. */
  method ExpandFront(index: Index, ghost s: Search,
      queue0: seq<Node>, visited0: set<Hash>, seenRoots0: set<Hash>, chains0: seq<seq<Cert>>)
    returns (parents: seq<Cert>, queue: seq<Node>, visited: set<Hash>, seenRoots: set<Hash>, chains: seq<seq<Cert>>)
    requires WellIndexed(index) && Inside(index, s)
    requires queue0 != [] && Tracks(s, queue0, visited0, seenRoots0, chains0)
    ensures forall p :: p in parents <==> IsParent(index, s.queue[0].cert, p)
    ensures Tracks(Round(s, parents), queue, visited, seenRoots, chains)
  {
    var node := queue0[0];
    queue := queue0[1..];
    assert [node] + queue == queue0;
    parents := FindParents(node.cert, index);
    forall k | 0 <= k < |parents| ensures parents[k] in Universe(index) {
      assert IsParent(index, node.cert, parents[k]);
    }
    queue, visited, seenRoots, chains := VisitParents(index, s, node, parents, queue, visited0, seenRoots0, chains0);
    assert ([node] + queue)[1..] == queue;
  }

  lemma RoundKeeps(index: Index, start: Cert, s: Search, parents: seq<Cert>)
    requires start in Universe(index) && SearchOk(index, start, s) && s.queue != []
    requires forall p :: p in parents <==> IsParent(index, s.queue[0].cert, p)
    ensures SearchOk(index, start, Round(s, parents))
    ensures Progress(index, s, |s.queue|, Round(s, parents), |Round(s, parents).queue|)
  {
    RoundOk(index, start, s, parents);
    RoundProgresses(index, start, s, parents);
  }

  lemma SearchEnds(index: Index, start: Cert, s: Search)
    requires SearchOk(index, start, s) && s.queue == []
    ensures ChainsFor(index, start, if s.chains == [] then [[start]] else s.chains)
  {
    forall q | RootPath(index, start, q) ensures Last(q) in RootsOf(s.chains) {
      AllRootsFound(index, start, s, q);
    }
    if s.chains != [] {
      assert ShortestRootPath(index, start, s.chains[0]);
    }
  }

  /**
    The breadth-first search. It terminates because each round either finishes a queued node or
    visits certificates for the first time.
   */
  method BuildChains(start: Cert, index: Index) returns (chains: seq<seq<Cert>>)
    requires WellIndexed(index) && start in Universe(index)
    ensures SelfSigned(start) ==> chains == []
    ensures !SelfSigned(start) ==> ChainsFor(index, start, chains)
  {
    if SelfSigned(start) { return []; }
    var queue := [Node(start, [start])];
    var visited := {start.hash};
    var seenRoots: set<Hash> := {};
    chains := [];
    ghost var s := Search(queue, map[start := 1], {}, {}, []);
    StartOk(index, start, s);
    while queue != []
      invariant SearchOk(index, start, s)
      invariant Tracks(s, queue, visited, seenRoots, chains)
      decreases Unvisited(index, s), |queue|
    {
      var parents;
      parents, queue, visited, seenRoots, chains := ExpandFront(index, s, queue, visited, seenRoots, chains);
      RoundKeeps(index, start, s, parents);
      s := Round(s, parents);
    }
    SearchEnds(index, start, s);
    if |chains| == 0 {
      chains := [[start]];
    }
  }
}
