/** CA certificates and the issuer graph that chain building and discovery walk. */
module Issuers {
  import opened Logs

  /** Key identifiers are byte strings. A SHA-256 hash is read as a number, which orders as its bytes do. */
  type KeyId = string
  type Hash = nat

  datatype Cert = Cert(
    hash: Hash,
    aki: Option<KeyId>,
    ski: Option<KeyId>,
    issuer: string,
    subject: string,
    notAfter: int)

  predicate SelfSigned(c: Cert) {
    if c.aki.Some? && c.ski.Some? then c.aki == c.ski else c.issuer == c.subject
  }

  /** The key under which the issuers of `c` are looked up; empty when there is none. */
  function AkiKey(c: Cert): KeyId {
    if c.aki.Some? then c.aki.value else ""
  }

  /** `certsBySKI`: the certificates of each subject key. */
  type Index = map<KeyId, seq<Cert>>

  function Candidates(index: Index, k: KeyId): seq<Cert> {
    if k in index then index[k] else []
  }

  ghost function Universe(index: Index): set<Cert> {
    set k, c | k in index && c in index[k] :: c
  }

  /** Each list holds certificates of its own, non-empty key, and a hash names one certificate. */
  ghost predicate WellIndexed(index: Index) {
    KeysFit(index) && HashesName(index)
  }

  ghost predicate KeysFit(index: Index) {
    forall k, c :: HeldByKey(index, k, c)
  }

  ghost predicate HeldByKey(index: Index, k: KeyId, c: Cert) {
    c in Candidates(index, k) ==> k != "" && c.ski == Some(k)
  }

  ghost predicate HashesName(index: Index) {
    forall c, d | c in Universe(index) && d in Universe(index) && c.hash == d.hash :: c == d
  }

  /** `p` is a parent of `c`: it has the issuer's key and is another certificate. */
  predicate IsParent(index: Index, c: Cert, p: Cert) {
    AkiKey(c) != "" && p in Candidates(index, AkiKey(c)) && p.hash != c.hash
  }

  method FindParents(c: Cert, index: Index) returns (parents: seq<Cert>)
    ensures forall p :: p in parents <==> IsParent(index, c, p)
    ensures forall p | p in parents :: p.hash != c.hash && c.aki.Some? && c.aki.value != ""
    ensures c.aki.Some? && c.aki.value != "" && c.aki.value in index ==>
              forall p | p in index[c.aki.value] && p.hash != c.hash :: p in parents
  {
    parents := [];
    if AkiKey(c) == "" { return; }
    var all := Candidates(index, AkiKey(c));
    for i := 0 to |all|
      invariant forall p :: p in parents <==> p in all[..i] && p.hash != c.hash
    {
      if all[i].hash != c.hash {
        parents := parents + [all[i]];
      }
    }
    assert all[..|all|] == all;
  }

  function AddCert(index: Index, c: Cert): (index': Index)
    requires c.ski.Some?
    ensures forall k, d {:trigger d in Candidates(index', k)} :: d in Candidates(index', k) <==>
          d in Candidates(index, k) || (d == c && k == c.ski.value)
  {
    index[c.ski.value := Candidates(index, c.ski.value) + [c]]
  }

  /** Build the index from certificates with distinct hashes; those without a subject key are dropped. */
  method IndexBySki(certs: seq<Cert>) returns (index: Index)
    requires forall j, k | 0 <= j < k < |certs| :: certs[j].hash != certs[k].hash
    ensures WellIndexed(index)
    ensures Universe(index) == set c | c in certs && c.ski.Some? && c.ski.value != ""
  {
    index := map[];
    for i := 0 to |certs|
      invariant Lists(index, certs[..i])
    {
      var c := certs[i];
      assert certs[..i + 1] == certs[..i] + [c];
      if c.ski.Some? && c.ski.value != "" {
        ListsOneMore(index, certs[..i], c);
        index := AddCert(index, c);
      } else {
        ListsNoMore(index, certs[..i], c);
      }
    }
    assert certs[..|certs|] == certs;
    IndexIsWell(index, certs);
  }

  /** The index lists exactly the given certificates, each under its own non-empty subject key. */
  ghost predicate Lists(index: Index, certs: seq<Cert>) {
    forall k, c :: Listed(index, certs, k, c)
  }

  ghost predicate Listed(index: Index, certs: seq<Cert>, k: KeyId, c: Cert) {
    c in Candidates(index, k) <==> k != "" && c.ski == Some(k) && c in certs
  }

  lemma ListsOneMore(index: Index, certs: seq<Cert>, c: Cert)
    requires Lists(index, certs) && c.ski.Some? && c.ski.value != ""
    ensures Lists(AddCert(index, c), certs + [c])
  {
    forall k, d ensures Listed(AddCert(index, c), certs + [c], k, d) {
      assert Listed(index, certs, k, d);
      assert d in Candidates(AddCert(index, c), k) <==> d in Candidates(index, k) || (d == c && k == c.ski.value);
    }
  }

  lemma ListsNoMore(index: Index, certs: seq<Cert>, c: Cert)
    requires Lists(index, certs) && (c.ski.None? || c.ski.value == "")
    ensures Lists(index, certs + [c])
  {
    forall k, d ensures Listed(index, certs + [c], k, d) {
      assert Listed(index, certs, k, d);
    }
  }

  lemma EachUnderItsKey(index: Index, certs: seq<Cert>, k: KeyId, c: Cert)
    requires Lists(index, certs) && c in Candidates(index, k)
    ensures k != "" && c.ski == Some(k) && c in certs
  {
    assert Listed(index, certs, k, c);
  }

  lemma UniverseIsListed(index: Index, certs: seq<Cert>, c: Cert)
    requires Lists(index, certs)
    ensures c in Universe(index) <==> c in certs && c.ski.Some? && c.ski.value != ""
  {
    if c in Universe(index) {
      var k :| k in index && c in index[k];
      assert c in Candidates(index, k);
      EachUnderItsKey(index, certs, k, c);
    }
    if c in certs && c.ski.Some? && c.ski.value != "" {
      assert Listed(index, certs, c.ski.value, c);
      assert c in Candidates(index, c.ski.value);
    }
  }

  lemma SameHashSameCert(certs: seq<Cert>, c: Cert, d: Cert)
    requires forall j, k | 0 <= j < k < |certs| :: certs[j].hash != certs[k].hash
    requires c in certs && d in certs && c.hash == d.hash
    ensures c == d
  {
    var i: nat :| i < |certs| && certs[i] == c;
    var j: nat :| j < |certs| && certs[j] == d;
  }

  lemma ListedFit(index: Index, certs: seq<Cert>)
    requires Lists(index, certs)
    ensures KeysFit(index)
  {
    forall k, c ensures HeldByKey(index, k, c) {
      assert Listed(index, certs, k, c);
    }
  }

  lemma ListedAreNamed(index: Index, certs: seq<Cert>)
    requires forall j, k | 0 <= j < k < |certs| :: certs[j].hash != certs[k].hash
    requires Lists(index, certs)
    ensures HashesName(index)
  {
    forall c, d | c in Universe(index) && d in Universe(index) && c.hash == d.hash ensures c == d {
      UniverseIsListed(index, certs, c);
      UniverseIsListed(index, certs, d);
      SameHashSameCert(certs, c, d);
    }
  }

  lemma IndexIsWell(index: Index, certs: seq<Cert>)
    requires forall j, k | 0 <= j < k < |certs| :: certs[j].hash != certs[k].hash
    requires Lists(index, certs)
    ensures WellIndexed(index)
    ensures Universe(index) == set c | c in certs && c.ski.Some? && c.ski.value != ""
  {
    ListedFit(index, certs);
    ListedAreNamed(index, certs);
    forall c ensures c in Universe(index) <==> c in certs && c.ski.Some? && c.ski.value != "" {
      UniverseIsListed(index, certs, c);
    }
  }

  // ---- Walks ----

  function Last(p: seq<Cert>): Cert
    requires p != []
  {
    p[|p| - 1]
  }

  /** Each certificate is followed by a parent, and only the last may be self-signed. */
  ghost predicate Walk(index: Index, start: Cert, p: seq<Cert>) {
    && p != [] && p[0] == start
    && forall i | 0 <= i < |p| - 1 :: !SelfSigned(p[i]) && IsParent(index, p[i], p[i + 1])
  }

  ghost predicate RootPath(index: Index, start: Cert, p: seq<Cert>) {
    Walk(index, start, p) && SelfSigned(Last(p))
  }

  /** A root path than which no root path from the same start to the same root is shorter. */
  ghost predicate ShortestRootPath(index: Index, start: Cert, p: seq<Cert>) {
    && RootPath(index, start, p)
    && forall q | RootPath(index, start, q) && Last(q) == Last(p) :: |p| <= |q|
  }

  lemma WalkStays(index: Index, start: Cert, p: seq<Cert>)
    requires Walk(index, start, p) && start in Universe(index)
    ensures forall c | c in p :: c in Universe(index)
  {
    forall i | 0 <= i < |p| ensures p[i] in Universe(index) {
      if i > 0 {
        assert IsParent(index, p[i - 1], p[i]);
      }
    }
  }

  lemma WalkSnoc(index: Index, start: Cert, p: seq<Cert>, c: Cert)
    requires Walk(index, start, p) && !SelfSigned(Last(p)) && IsParent(index, Last(p), c)
    ensures Walk(index, start, p + [c])
  {
  }

  lemma WalkInit(index: Index, start: Cert, p: seq<Cert>)
    requires Walk(index, start, p) && |p| > 1
    ensures var init := p[..|p| - 1];
            Walk(index, start, init) && !SelfSigned(Last(init)) && IsParent(index, Last(init), Last(p))
  {
  }

  lemma WalkTail(index: Index, start: Cert, p: seq<Cert>)
    requires Walk(index, start, p) && |p| > 1
    ensures Walk(index, p[1], p[1..]) && !SelfSigned(start) && IsParent(index, start, p[1])
  {
    forall i | 0 <= i < |p[1..]| - 1 ensures !SelfSigned(p[1..][i]) && IsParent(index, p[1..][i], p[1..][i + 1]) {
      assert p[1..][i] == p[i + 1] && p[1..][i + 1] == p[i + 2];
    }
  }

  lemma WalkCons(index: Index, c: Cert, p: seq<Cert>)
    requires p != [] && Walk(index, p[0], p) && !SelfSigned(c) && IsParent(index, c, p[0])
    ensures Walk(index, c, [c] + p)
  {
  }

  /** Whoever reaches a root at all reaches it by a shortest path. */
  lemma ShortestExists(index: Index, start: Cert, p: seq<Cert>) returns (q: seq<Cert>)
    requires RootPath(index, start, p)
    ensures ShortestRootPath(index, start, q) && Last(q) == Last(p) && |q| <= |p|
    decreases |p|
  {
    if shorter :| RootPath(index, start, shorter) && Last(shorter) == Last(p) && |shorter| < |p| {
      q := ShortestExists(index, start, shorter);
    } else {
      q := p;
    }
  }

  /** A self-signed certificate reaches only itself. */
  lemma SelfSignedReachesItself(index: Index, c: Cert, p: seq<Cert>)
    requires SelfSigned(c) && Walk(index, c, p)
    ensures p == [c]
  {
  }
}
