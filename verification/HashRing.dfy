/** The consistent-hash ring (load_balancer/src/HashRing.cpp). */
module HashRings {
  import opened Text

  const TWO32: int := 0x1_0000_0000

  type U32 = x: int | 0 <= x < 0x1_0000_0000

  datatype Status = UP | RECOVERING | DOWN

  datatype Backend = Backend(ip: string, port: int, status: Status)

  /** What stays fixed for the life of a ring: `std::hash<std::string>`, which
      is left uninterpreted, and the number of virtual nodes per backend. */
  datatype Config = Config(hasher: string -> nat, vnodes: nat)

  type Ring = map<U32, Backend>

  function HashString(cfg: Config, key: string): U32 {
    cfg.hasher(key) % TWO32
  }

  // The two spellings of a backend's identity: one for virtual nodes and for
  // the nodes already seen, one (with a blank) for the distinct backends.
  function NodeId(b: Backend): string {
    b.ip + ":" + ToString(b.port)
  }

  function UniqueId(b: Backend): string {
    b.ip + " :" + ToString(b.port)
  }

  predicate SameNode(a: Backend, b: Backend) {
    a.ip == b.ip && a.port == b.port
  }

  lemma IdsInjective(a: Backend, b: Backend)
    ensures NodeId(a) == NodeId(b) <==> SameNode(a, b)
    ensures UniqueId(a) == UniqueId(b) <==> SameNode(a, b)
  {
    if NodeId(a) == NodeId(b) {
      SplitAtLast(a.ip, ToString(a.port), b.ip, ToString(b.port), ":", ':');
      ToStringInjective(a.port, b.port);
    }
    if UniqueId(a) == UniqueId(b) {
      SplitAtLast(a.ip, ToString(a.port), b.ip, ToString(b.port), " :", ':');
      ToStringInjective(a.port, b.port);
    }
  }

  /** What is hashed for a virtual node. */
  function Label(b: Backend, i: nat): string {
    NodeId(b) + "#vnode_" + ToString(i)
  }

  lemma LabelsInjective(a: Backend, i: nat, b: Backend, j: nat)
    ensures Label(a, i) == Label(b, j) <==> SameNode(a, b) && i == j
  {
    if Label(a, i) == Label(b, j) {
      SplitAtLast(NodeId(a), ToString(i), NodeId(b), ToString(j), "#vnode_", '_');
      ToStringInjective(i, j);
      IdsInjective(a, b);
    }
  }

  function VnodeHash(cfg: Config, b: Backend, i: nat): U32 {
    HashString(cfg, Label(b, i))
  }

  /** The ring points of the first `n` virtual nodes of `b`. */
  function PointsUpTo(cfg: Config, b: Backend, n: nat): set<U32> {
    set i | 0 <= i < n :: VnodeHash(cfg, b, i)
  }

  function Points(cfg: Config, b: Backend): set<U32> {
    PointsUpTo(cfg, b, cfg.vnodes)
  }

  /** Where a virtual node lies, spelled out. */
  lemma VnodeAt(cfg: Config, b: Backend, i: nat)
    ensures VnodeHash(cfg, b, i) == cfg.hasher(b.ip + ":" + ToString(b.port) + "#vnode_" + ToString(i)) % 0x1_0000_0000
  {
  }

  /** The hash tells these labels apart. */
  ghost predicate Separates(cfg: Config, labels: iset<string>) {
    forall x, y :: x in labels && y in labels && HashString(cfg, x) == HashString(cfg, y) ==> x == y
  }

  ghost function LabelsOf(b: Backend): iset<string> {
    iset i: nat | true :: Label(b, i)
  }

  /** A backend has one ring point per virtual node, whenever the hash tells its labels
      apart. */
  lemma OnePointPerVnode(cfg: Config, b: Backend)
    requires Separates(cfg, LabelsOf(b))
    ensures |Points(cfg, b)| == cfg.vnodes
    ensures |AddTo(cfg, map[], b)| == cfg.vnodes
  {
    PointsCount(cfg, b, cfg.vnodes);
    assert AddTo(cfg, map[], b).Keys == Points(cfg, b);
  }

  lemma {:induction false} PointsCount(cfg: Config, b: Backend, n: nat)
    requires Separates(cfg, LabelsOf(b))
    ensures |PointsUpTo(cfg, b, n)| == n
  {
    if n == 0 {
      assert PointsUpTo(cfg, b, 0) == {};
    } else {
      PointsCount(cfg, b, n - 1);
      hide Label, HashString;
      var p := VnodeHash(cfg, b, n - 1);
      NewEntriesStep(cfg, b, n - 1);
      forall i | 0 <= i < n - 1 ensures VnodeHash(cfg, b, i) != p {
        LabelsInjective(b, i, b, n - 1);
        assert Label(b, i) in LabelsOf(b) && Label(b, n - 1) in LabelsOf(b);
      }
    }
  }

  /** And two backends share none, whenever it tells the labels of both apart. */
  lemma NoSharedPoint(cfg: Config, a: Backend, b: Backend)
    requires Separates(cfg, LabelsOf(a) + LabelsOf(b)) && !SameNode(a, b)
    ensures Points(cfg, a) !! Points(cfg, b)
  {
    forall i: nat, j: nat ensures VnodeHash(cfg, a, i) != VnodeHash(cfg, b, j) {
      LabelsInjective(a, i, b, j);
      assert Label(a, i) in LabelsOf(a) + LabelsOf(b) && Label(b, j) in LabelsOf(a) + LabelsOf(b);
    }
  }

  lemma PointsOfSameNode(cfg: Config, a: Backend, b: Backend)
    requires SameNode(a, b)
    ensures Points(cfg, a) == Points(cfg, b)
  {
    assert forall i: nat :: VnodeHash(cfg, a, i) == VnodeHash(cfg, b, i);
  }

  // ----- the ring as a value -----

  /** The entries that the first `n` virtual nodes of `b` write. */
  function NewEntries(cfg: Config, b: Backend, n: nat): Ring {
    map p | p in PointsUpTo(cfg, b, n) :: b
  }

  lemma NewEntriesStep(cfg: Config, b: Backend, n: nat)
    ensures PointsUpTo(cfg, b, n + 1) == PointsUpTo(cfg, b, n) + {VnodeHash(cfg, b, n)}
    ensures NewEntries(cfg, b, n + 1) == NewEntries(cfg, b, n)[VnodeHash(cfg, b, n) := b]
  {
    assert PointsUpTo(cfg, b, n + 1) == PointsUpTo(cfg, b, n) + {VnodeHash(cfg, b, n)};
  }

  lemma OverwriteStep(ring: Ring, written: Ring, p: U32, b: Backend)
    ensures (ring + written)[p := b] == ring + written[p := b]
  {
  }

  function AddTo(cfg: Config, ring: Ring, b: Backend): Ring {
    ring + NewEntries(cfg, b, cfg.vnodes)
  }

  function RemoveFrom(cfg: Config, ring: Ring, b: Backend): Ring {
    ring - Points(cfg, b)
  }

  // ----- std::map in key order -----

  lemma {:induction false} LeastElement(s: set<U32>) returns (m: U32)
    requires s != {}
    ensures m in s && forall x :: x in s ==> m <= x
  {
    var y :| y in s;
    var t := s - {y};
    m := y;
    assert forall x :: x in s ==> x == y || x in t;
    if t == {} {
    } else {
      m := LeastElement(t);
      m := if y < m then y else m;
    }
  }

  lemma MinExists(s: set<U32>)
    requires s != {}
    ensures exists m: U32 :: IsLeast(m, s)
  {
    var m := LeastElement(s);
    assert IsLeast(m, s);
  }

  predicate IsLeast(m: U32, s: set<U32>) {
    m in s && forall x :: x in s ==> m <= x
  }

  function Min(s: set<U32>): (m: U32)
    requires s != {}
    ensures m in s && forall x :: x in s ==> m <= x
  {
    MinExists(s);
    var m :| IsLeast(m, s);
    m
  }

  /** The keys of a `std::map` in iteration order. */
  function SortedKeys(s: set<U32>): (r: seq<U32>)
    ensures forall x :: x in r <==> x in s
    ensures forall i, j :: 0 <= i < j < |r| ==> r[i] < r[j]
    decreases |s|
  {
    if s == {} then []
    else
      var m := Min(s);
      [m] + SortedKeys(s - {m})
  }

  /** `lower_bound`, as an index into the keys in order; `|keys|` is `end()`. */
  function LowerBound(keys: seq<U32>, h: U32): (i: nat)
    ensures i <= |keys|
    ensures forall j :: 0 <= j < i ==> keys[j] < h
    ensures i < |keys| ==> h <= keys[i]
  {
    if keys == [] || h <= keys[0] then 0 else 1 + LowerBound(keys[1..], h)
  }

  // ----- clockwise order -----

  /** How far clockwise point `p` lies from `h`. */
  function Dist(h: U32, p: U32): (d: nat)
    ensures d == (p - h) % 0x1_0000_0000
  {
    if h <= p then p - h else p - h + TWO32
  }

  ghost predicate Increasing(h: U32, w: seq<U32>) {
    forall i, j :: 0 <= i < j < |w| ==> Dist(h, w[i]) < Dist(h, w[j])
  }

  lemma RotationIncreasing(keys: seq<U32>, i: nat, h: U32)
    requires forall a, b :: 0 <= a < b < |keys| ==> keys[a] < keys[b]
    requires i <= |keys|
    requires forall j :: 0 <= j < i ==> keys[j] < h
    requires i < |keys| ==> h <= keys[i]
    ensures Increasing(h, keys[i..] + keys[..i])
  {
    var w, n := keys[i..] + keys[..i], |keys| - i;
    forall a, b | 0 <= a < b < |w| ensures Dist(h, w[a]) < Dist(h, w[b]) {
      assert w[a] == if a < n then keys[i + a] else keys[a - n];
      assert w[b] == if b < n then keys[i + b] else keys[b - n];
    }
  }

  lemma RotationSame<T>(s: seq<T>, i: nat)
    requires i <= |s|
    ensures forall p :: p in s[i..] + s[..i] <==> p in s
  {
    assert s == s[..i] + s[i..];
  }

  /** The ring points in the order the search meets them from `h`. */
  function Clockwise(ring: Ring, h: U32): (w: seq<U32>)
    ensures forall p :: p in w <==> p in ring
  {
    var keys := SortedKeys(ring.Keys);
    var i := LowerBound(keys, h);
    RotationSame(keys, i);
    keys[i..] + keys[..i]
  }

  lemma ClockwiseIncreasing(ring: Ring, h: U32)
    ensures Increasing(h, Clockwise(ring, h))
  {
    var keys := SortedKeys(ring.Keys);
    RotationIncreasing(keys, LowerBound(keys, h), h);
  }

  /** A sequence ordered by distance is determined by its elements. */
  lemma {:induction false} IncreasingUnique(h: U32, v: seq<U32>, w: seq<U32>)
    requires Increasing(h, v) && Increasing(h, w)
    requires forall p :: p in v <==> p in w
    ensures v == w
  {
    if v == [] {
      assert forall j :: 0 <= j < |w| ==> w[j] in w;
    } else {
      assert v[0] in v && v[0] in w;
      assert w[0] in w && w[0] in v;
      assert v[0] == w[0] by {
        var i :| 0 <= i < |w| && w[i] == v[0];
        var j :| 0 <= j < |v| && v[j] == w[0];
        if i > 0 && j > 0 { assert false; }
      }
      forall p ensures p in v[1..] <==> p in w[1..] {
        if p in v[1..] {
          var i :| 1 <= i < |v| && v[i] == p;
          assert p in v;
          assert p != v[0];
        }
        if p in w[1..] {
          var i :| 1 <= i < |w| && w[i] == p;
          assert p in w;
          assert p != w[0];
        }
      }
      IncreasingUnique(h, v[1..], w[1..]);
    }
  }

  // ----- the first point of each owner along a walk -----

  predicate Meets(ring: Ring, f: seq<U32>, b: Backend)
    requires forall p :: p in f ==> p in ring
  {
    exists q :: q in f && SameNode(ring[q], b)
  }

  /** Along walk `w`, the points whose owner was not met before. */
  function FirstPoints(ring: Ring, w: seq<U32>): (f: seq<U32>)
    requires forall p :: p in w ==> p in ring
    ensures forall p :: p in f ==> p in w
  {
    if w == [] then []
    else
      var f := FirstPoints(ring, w[..|w| - 1]);
      var p := w[|w| - 1];
      if Meets(ring, f, ring[p]) then f else f + [p]
  }

  function Owners(ring: Ring, f: seq<U32>): (r: seq<Backend>)
    requires forall p :: p in f ==> p in ring
    ensures |r| == |f| && forall i :: 0 <= i < |f| ==> r[i] == ring[f[i]]
  {
    seq(|f|, i requires 0 <= i < |f| => assert f[i] in f; ring[f[i]])
  }

  function Take<T>(s: seq<T>, n: nat): seq<T> {
    if n <= |s| then s[..n] else s
  }

  /** All owners on the ring, in the order they are met clockwise from `h`. */
  function Ranking(ring: Ring, h: U32): seq<Backend> {
    Owners(ring, FirstPoints(ring, Clockwise(ring, h)))
  }

  /** What `getNodes(key, r)` computes. */
  function Replicas(cfg: Config, ring: Ring, key: string, r: nat): seq<Backend> {
    Take(Ranking(ring, HashString(cfg, key)), r)
  }

  /** Of the points in `w` that `p`'s owner holds, `p` is the closest to `h`. */
  ghost predicate NearestIn(ring: Ring, h: U32, w: seq<U32>, p: U32)
    requires forall q :: q in w ==> q in ring
  {
    p in w && forall q :: q in w && SameNode(ring[q], ring[p]) ==> Dist(h, p) <= Dist(h, q)
  }

  /** `p` is the point of its owner closest to `h`, clockwise. */
  ghost predicate IsNearest(ring: Ring, h: U32, p: U32) {
    p in ring && forall q :: q in ring && SameNode(ring[q], ring[p]) ==> Dist(h, p) <= Dist(h, q)
  }

  lemma {:induction false} FirstPointsAlong(ring: Ring, h: U32, w: seq<U32>)
    requires Increasing(h, w)
    requires forall p :: p in w ==> p in ring
    ensures Increasing(h, FirstPoints(ring, w))
    ensures forall p :: p in FirstPoints(ring, w) <==> NearestIn(ring, h, w, p)
  {
    if w == [] {
    } else {
      var v, p := w[..|w| - 1], w[|w| - 1];
      FirstPointsAlong(ring, h, v);
      forall q | q in v ensures Dist(h, q) < Dist(h, p) {
        var i :| 0 <= i < |v| && v[i] == q;
        assert w[i] == q;
      }
      assert w == v + [p];
      FirstPointsStep(ring, h, v, p);
    }
  }

  lemma NearestInSnoc(ring: Ring, h: U32, v: seq<U32>, p: U32, q: U32)
    requires p in ring && forall x :: x in v ==> x in ring && Dist(h, x) < Dist(h, p)
    requires q in v
    ensures forall x :: x in v + [p] ==> x in ring
    ensures NearestIn(ring, h, v + [p], q) <==> NearestIn(ring, h, v, q)
  {
    InSnoc(v, p);
  }

  lemma FirstPointsSnoc(ring: Ring, v: seq<U32>, p: U32)
    requires p in ring && forall q :: q in v ==> q in ring
    ensures forall q :: q in v + [p] ==> q in ring
    ensures FirstPoints(ring, v + [p]) == var f := FirstPoints(ring, v);
      if Meets(ring, f, ring[p]) then f else f + [p]
  {
    assert (v + [p])[..|v|] == v;
  }

  lemma FirstPointsStep(ring: Ring, h: U32, v: seq<U32>, p: U32)
    requires p in ring && forall q :: q in v ==> q in ring && Dist(h, q) < Dist(h, p)
    requires Increasing(h, FirstPoints(ring, v))
    requires forall q :: q in FirstPoints(ring, v) <==> NearestIn(ring, h, v, q)
    ensures forall x :: x in v + [p] ==> x in ring
    ensures Increasing(h, FirstPoints(ring, v + [p]))
    ensures forall q :: q in FirstPoints(ring, v + [p]) <==> NearestIn(ring, h, v + [p], q)
  {
    var f := FirstPoints(ring, v);
    InSnoc(v, p);
    InSnoc(f, p);
    FirstPointsSnoc(ring, v, p);
    var g := FirstPoints(ring, v + [p]);
    forall q ensures q in g <==> NearestIn(ring, h, v + [p], q) {
      if q in v {
        NearestInSnoc(ring, h, v, p, q);
      } else if q == p {
        LastIsNew(ring, v, p, f);
      }
    }
  }

  lemma LastIsNew(ring: Ring, v: seq<U32>, p: U32, f: seq<U32>)
    requires p in ring && forall q :: q in v ==> q in ring
    requires f == FirstPoints(ring, v)
    ensures Meets(ring, f, ring[p]) <==> exists q :: q in v && SameNode(ring[q], ring[p])
  {
    if q :| q in v && SameNode(ring[q], ring[p]) {
      MetOnWalk(ring, v, q);
      var x :| x in f && SameNode(ring[x], ring[q]);
      assert SameNode(ring[x], ring[p]);
    }
  }

  lemma InSnoc<T>(v: seq<T>, p: T)
    ensures forall q :: q in v + [p] <==> q in v || q == p
  {
  }

  /** Every owner on a walk has a first point. */
  lemma {:induction false} MetOnWalk(ring: Ring, w: seq<U32>, p: U32)
    requires forall q :: q in w ==> q in ring
    requires p in w
    ensures Meets(ring, FirstPoints(ring, w), ring[p])
  {
    var v := w[..|w| - 1];
    var f := FirstPoints(ring, v);
    if p in v {
      MetOnWalk(ring, v, p);
      var q :| q in f && SameNode(ring[q], ring[p]);
      assert q in FirstPoints(ring, w);
    } else {
      assert p == w[|w| - 1];
      if !Meets(ring, f, ring[p]) {
        assert p in f + [p];
      }
    }
  }

  /** The search finds exactly the nearest point of each owner, by distance. */
  lemma RankingIsByDistance(ring: Ring, h: U32)
    ensures Increasing(h, FirstPoints(ring, Clockwise(ring, h)))
    ensures forall p :: p in FirstPoints(ring, Clockwise(ring, h)) <==> IsNearest(ring, h, p)
  {
    ClockwiseIncreasing(ring, h);
    FirstPointsAlong(ring, h, Clockwise(ring, h));
  }

  ghost predicate DistinctOwners(ring: Ring, f: seq<U32>)
    requires forall p :: p in f ==> p in ring
  {
    forall i, j :: 0 <= i < j < |f| ==> f[i] in f && f[j] in f && !SameNode(ring[f[i]], ring[f[j]])
  }

  lemma SnocDistinct(ring: Ring, f: seq<U32>, p: U32)
    requires p in ring && forall q :: q in f ==> q in ring
    requires DistinctOwners(ring, f) && !Meets(ring, f, ring[p])
    ensures forall q :: q in f + [p] ==> q in ring
    ensures DistinctOwners(ring, f + [p])
  {
    var g := f + [p];
    forall i, j | 0 <= i < j < |g| ensures g[i] in g && g[j] in g && !SameNode(ring[g[i]], ring[g[j]]) {
      assert g[i] == f[i] && f[i] in f;
      if j < |f| {
        assert g[j] == f[j];
      }
    }
  }

  lemma {:induction false} FirstPointsDistinct(ring: Ring, w: seq<U32>)
    requires forall p :: p in w ==> p in ring
    ensures DistinctOwners(ring, FirstPoints(ring, w))
  {
    if w == [] {
    } else {
      var v, p := w[..|w| - 1], w[|w| - 1];
      FirstPointsDistinct(ring, v);
      var f := FirstPoints(ring, v);
      if !Meets(ring, f, ring[p]) {
        SnocDistinct(ring, f, p);
      }
    }
  }

  lemma {:induction false} FirstPointsPrefix(ring: Ring, w: seq<U32>, n: nat)
    requires forall p :: p in w ==> p in ring
    requires n <= |w|
    ensures FirstPoints(ring, w[..n]) <= FirstPoints(ring, w)
  {
    if n < |w| {
      assert w[..|w| - 1][..n] == w[..n];
      FirstPointsPrefix(ring, w[..|w| - 1], n);
    } else {
      assert w[..n] == w;
    }
  }

  /** The distinct backends on the ring, as the source counts them. */
  function UniqueIds(ring: Ring, w: seq<U32>): set<string>
    requires forall p :: p in w ==> p in ring
  {
    set p | p in w :: UniqueId(ring[p])
  }

  lemma UniqueIdsSnoc(ring: Ring, v: seq<U32>, p: U32)
    requires p in ring && forall q :: q in v ==> q in ring
    ensures forall q :: q in v + [p] ==> q in ring
    ensures UniqueIds(ring, v + [p]) == UniqueIds(ring, v) + {UniqueId(ring[p])}
  {
    InSnoc(v, p);
  }

  /** An owner was met on a walk exactly if its spelling is among the distinct ones. */
  lemma MeetsUnique(ring: Ring, v: seq<U32>, b: Backend)
    requires forall q :: q in v ==> q in ring
    ensures Meets(ring, FirstPoints(ring, v), b) <==> UniqueId(b) in UniqueIds(ring, v)
  {
    var f := FirstPoints(ring, v);
    if q :| q in f && SameNode(ring[q], b) {
      IdsInjective(ring[q], b);
    }
    if q :| q in v && UniqueId(ring[q]) == UniqueId(b) {
      IdsInjective(ring[q], b);
      MetOnWalk(ring, v, q);
      var x :| x in f && SameNode(ring[x], ring[q]);
      assert SameNode(ring[x], b);
    }
  }

  /** Each owner met adds exactly one distinct backend, whatever the spelling. */
  lemma {:induction false} UniqueCount(ring: Ring, w: seq<U32>)
    requires forall p :: p in w ==> p in ring
    ensures |UniqueIds(ring, w)| == |FirstPoints(ring, w)|
  {
    if w == [] {
    } else {
      var v, p := w[..|w| - 1], w[|w| - 1];
      UniqueCount(ring, v);
      assert v + [p] == w;
      UniqueIdsSnoc(ring, v, p);
      MeetsUnique(ring, v, ring[p]);
    }
  }

  /** The distinct backends on the ring. */
  function Members(ring: Ring): set<string> {
    set p | p in ring :: UniqueId(ring[p])
  }

  lemma MembersUnique(ring: Ring, v: seq<U32>)
    requires forall p :: p in v <==> p in ring
    ensures UniqueIds(ring, v) == Members(ring)
  {
  }

  // ----- what getNodes promises -----

  ghost predicate DistinctNodes(s: seq<Backend>) {
    forall i, j :: 0 <= i < j < |s| ==> !SameNode(s[i], s[j])
  }

  lemma OwnersDistinct(ring: Ring, f: seq<U32>)
    requires forall p :: p in f ==> p in ring
    requires DistinctOwners(ring, f)
    ensures DistinctNodes(Owners(ring, f))
  {
  }

  lemma RankingDistinct(ring: Ring, h: U32)
    ensures DistinctNodes(Ranking(ring, h))
    ensures |Ranking(ring, h)| == |Members(ring)|
  {
    var w := Clockwise(ring, h);
    FirstPointsDistinct(ring, w);
    OwnersDistinct(ring, FirstPoints(ring, w));
    UniqueCount(ring, w);
    MembersUnique(ring, w);
  }

  lemma TakenAreNearer(h: U32, all: seq<U32>, r: nat)
    requires Increasing(h, all)
    ensures forall p, q :: p in Take(all, r) && q in all && q !in Take(all, r) ==> Dist(h, p) < Dist(h, q)
  {
    var f := Take(all, r);
    forall p, q | p in f && q in all && q !in f ensures Dist(h, p) < Dist(h, q) {
      var i :| 0 <= i < |f| && f[i] == p;
      var j :| 0 <= j < |all| && all[j] == q;
      assert all[i] == p;
      assert forall x :: 0 <= x < |f| ==> f[x] in f && f[x] == all[x];
    }
  }

  /** `getNodes` returns min(r, number of backends on the ring) distinct backends,
      each at its nearest point, and every backend left out lies farther away. */
  lemma ReplicasAreNearest(cfg: Config, ring: Ring, key: string, r: nat)
    returns (f: seq<U32>)
    ensures forall p :: p in f ==> p in ring
    ensures Replicas(cfg, ring, key, r) == Owners(ring, f)
    ensures DistinctNodes(Replicas(cfg, ring, key, r))
    ensures |f| == if r <= |Members(ring)| then r else |Members(ring)|
    ensures var h := cfg.hasher(key) % 0x1_0000_0000;
      && (forall i, j :: 0 <= i < j < |f| ==> Dist(h, f[i]) < Dist(h, f[j]))
      && (forall p :: p in f ==> IsNearest(ring, h, p))
      && (forall p, q | p in f && q !in f && IsNearest(ring, h, q) :: Dist(h, p) < Dist(h, q))
  {
    hide Clockwise, FirstPoints, Dist, IsNearest;
    var h := HashString(cfg, key);
    RankingIsByDistance(ring, h);
    RankingDistinct(ring, h);
    var all := FirstPoints(ring, Clockwise(ring, h));
    f := Take(all, r);
    InTake(all, r);
    OwnersTake(ring, all, r);
    TakenAreNearer(h, all, r);
  }

  lemma InTake<T>(s: seq<T>, r: nat)
    ensures forall p :: p in Take(s, r) ==> p in s
  {
  }

  lemma OwnersTake(ring: Ring, f: seq<U32>, r: nat)
    requires forall p :: p in f ==> p in ring
    ensures forall p :: p in Take(f, r) ==> p in ring
    ensures Owners(ring, Take(f, r)) == Take(Owners(ring, f), r)
  {
  }

  /** Asking for fewer replicas gives a prefix. */
  lemma ReplicasPrefix(cfg: Config, ring: Ring, key: string, r: nat, r': nat)
    requires r <= r'
    ensures Replicas(cfg, ring, key, r) <= Replicas(cfg, ring, key, r')
    ensures Replicas(cfg, ring, key, r) == Take(Replicas(cfg, ring, key, r'), r)
  {
    TakeLess(Ranking(ring, HashString(cfg, key)), r, r');
  }

  lemma TakeLess<T>(s: seq<T>, r: nat, r': nat)
    requires r <= r'
    ensures Take(s, r) <= Take(s, r') && Take(Take(s, r'), r) == Take(s, r)
  {
  }

  // ----- minimal disruption -----

  /** The points of `b`'s virtual nodes are on the ring exactly where `b` owns. */
  ghost predicate OwnsItsPoints(cfg: Config, ring: Ring, b: Backend) {
    forall p :: p in ring ==> (p in Points(cfg, b) <==> SameNode(ring[p], b))
  }

  function Without(s: seq<Backend>, b: Backend): seq<Backend> {
    if s == [] then []
    else if SameNode(s[0], b) then Without(s[1..], b)
    else [s[0]] + Without(s[1..], b)
  }

  /** The points of `f` that are also on `sub`. */
  ghost function KeepOn(sub: Ring, f: seq<U32>): (g: seq<U32>)
    ensures forall p :: p in g <==> p in f && p in sub
  {
    if f == [] then []
    else
      var g := KeepOn(sub, f[1..]);
      assert f == [f[0]] + f[1..];
      if f[0] in sub then [f[0]] + g else g
  }

  lemma ConsIncreasing(h: U32, p: U32, g: seq<U32>)
    requires Increasing(h, g)
    requires forall q :: q in g ==> Dist(h, p) < Dist(h, q)
    ensures Increasing(h, [p] + g)
  {
  }

  lemma {:induction false} KeepOnIncreasing(sub: Ring, h: U32, f: seq<U32>)
    requires Increasing(h, f)
    ensures Increasing(h, KeepOn(sub, f))
  {
    if f == [] {
    } else {
      KeepOnIncreasing(sub, h, f[1..]);
      var g := KeepOn(sub, f[1..]);
      forall q | q in g ensures Dist(h, f[0]) < Dist(h, q) {
        var i :| 0 <= i < |f[1..]| && f[1..][i] == q;
        assert f[i + 1] == q;
      }
      if f[0] in sub {
        ConsIncreasing(h, f[0], g);
      }
    }
  }

  /** `sub` is `ring` restricted to some of its backends; only statuses may differ. */
  ghost predicate SubRing(sub: Ring, ring: Ring) {
    && (forall p :: p in sub ==> p in ring && SameNode(sub[p], ring[p]))
    && (forall p, q :: p in ring && q in sub && SameNode(ring[p], ring[q]) ==> p in sub)
  }

  /** Restricting a ring to some backends keeps the order of the ones that stay. */
  lemma SubRingRanking(sub: Ring, ring: Ring, h: U32)
    requires SubRing(sub, ring)
    ensures FirstPoints(sub, Clockwise(sub, h)) == KeepOn(sub, FirstPoints(ring, Clockwise(ring, h)))
  {
    RankingIsByDistance(ring, h);
    RankingIsByDistance(sub, h);
    var f := FirstPoints(ring, Clockwise(ring, h));
    var g := FirstPoints(sub, Clockwise(sub, h));
    KeepOnIncreasing(sub, h, f);
    forall p ensures p in g <==> p in KeepOn(sub, f) {
      if p in sub {
        NearestOnSubRing(sub, ring, h, p);
      }
    }
    IncreasingUnique(h, g, KeepOn(sub, f));
  }

  lemma NearestOnSubRing(sub: Ring, ring: Ring, h: U32, p: U32)
    requires SubRing(sub, ring) && p in sub
    ensures IsNearest(sub, h, p) <==> IsNearest(ring, h, p)
  {
  }

  lemma {:induction false} NotThere(s: seq<Backend>, b: Backend)
    requires forall i :: 0 <= i < |s| ==> !SameNode(s[i], b)
    ensures Without(s, b) == s
  {
    if s == [] {
    } else {
      NotThere(s[1..], b);
    }
  }

  lemma {:induction false} TakeWithout(s: seq<Backend>, b: Backend, r: nat)
    requires DistinctNodes(s)
    ensures Take(Without(s, b), r) == Take(Without(Take(s, r + 1), b), r)
  {
    if s == [] {
    } else {
      var rest := Take(s[1..], r);
      assert Take(s, r + 1) == [s[0]] + rest;
      if SameNode(s[0], b) {
        NotThere(s[1..], b);
        NotThere(rest, b);
      } else if r > 0 {
        TakeWithout(s[1..], b, r - 1);
        TakeCons(s[0], Without(s[1..], b), r);
        TakeCons(s[0], Without(rest, b), r);
      }
    }
  }

  lemma TakeCons<T>(x: T, s: seq<T>, r: nat)
    requires r > 0
    ensures Take([x] + s, r) == [x] + Take(s, r - 1)
  {
  }

  lemma {:induction false} KeptOwners(sub: Ring, ring: Ring, f: seq<U32>, b: Backend)
    requires forall p :: p in f ==> p in ring
    requires forall p :: p in f ==> (p in sub <==> !SameNode(ring[p], b))
    requires forall p :: p in sub && p in ring ==> sub[p] == ring[p]
    ensures Owners(sub, KeepOn(sub, f)) == Without(Owners(ring, f), b)
  {
    if f == [] {
    } else {
      assert f == [f[0]] + f[1..];
      KeptOwners(sub, ring, f[1..], b);
      assert Owners(ring, f)[1..] == Owners(ring, f[1..]);
      if f[0] in sub {
        var g := KeepOn(sub, f[1..]);
        assert Owners(sub, [f[0]] + g) == [sub[f[0]]] + Owners(sub, g);
      }
    }
  }

  /** Removing `b` from the ring removes `b` from every ranking and nothing else. */
  lemma RankingAfterRemoval(cfg: Config, ring: Ring, b: Backend, h: U32)
    requires OwnsItsPoints(cfg, ring, b)
    ensures Ranking(RemoveFrom(cfg, ring, b), h) == Without(Ranking(ring, h), b)
  {
    var sub := RemoveFrom(cfg, ring, b);
    SubRingRanking(sub, ring, h);
    KeptOwners(sub, ring, FirstPoints(ring, Clockwise(ring, h)), b);
  }

  /** Minimal disruption: without `b`, the `r` replicas of a key are its `r + 1`
      replicas before, with `b` deleted. */
  lemma MinimalDisruption(cfg: Config, ring: Ring, b: Backend, key: string, r: nat)
    requires OwnsItsPoints(cfg, ring, b)
    ensures Replicas(cfg, RemoveFrom(cfg, ring, b), key, r)
         == Take(Without(Replicas(cfg, ring, key, r + 1), b), r)
  {
    var h := HashString(cfg, key);
    RankingAfterRemoval(cfg, ring, b, h);
    RankingDistinct(ring, h);
    TakeWithout(Ranking(ring, h), b, r);
  }

  /** Adding a backend and removing it restores the ring exactly when none of
      its virtual nodes landed on a point already taken. */
  lemma AddThenRemove(cfg: Config, ring: Ring, b: Backend)
    ensures RemoveFrom(cfg, AddTo(cfg, ring, b), b) == ring <==> Points(cfg, b) !! ring.Keys
  {
    var back := RemoveFrom(cfg, AddTo(cfg, ring, b), b);
    assert back.Keys == ring.Keys - Points(cfg, b);
    if Points(cfg, b) !! ring.Keys {
      assert forall p :: p in ring ==> p in back && back[p] == ring[p];
    } else {
      var p :| p in Points(cfg, b) && p in ring.Keys;
      assert p !in back.Keys;
    }
  }

  // ----- the class -----

  class HashRing {
    const cfg: Config
    var ring: Ring

    constructor (cfg: Config)
      ensures this.cfg == cfg && ring == map[]
    {
      this.cfg := cfg;
      ring := map[];
    }

    method Empty() returns (r: bool)
      ensures r <==> ring == map[]
    {
      r := |ring| == 0;
    }

    method AddNode(node: Backend)
      modifies this
      ensures ring == AddTo(cfg, old(ring), node)
      ensures forall i: nat :: i < cfg.vnodes ==>
        var p := cfg.hasher(node.ip + ":" + ToString(node.port) + "#vnode_" + ToString(i)) % 0x1_0000_0000;
        p in ring && ring[p] == node
    {
      for i := 0 to cfg.vnodes
        invariant ring == old(ring) + NewEntries(cfg, node, i)
      {
        NewEntriesStep(cfg, node, i);
        OverwriteStep(old(ring), NewEntries(cfg, node, i), VnodeHash(cfg, node, i), node);
        ring := ring[VnodeHash(cfg, node, i) := node];
      }
      forall i: nat | i < cfg.vnodes ensures VnodeHash(cfg, node, i) in ring && ring[VnodeHash(cfg, node, i)] == node {
      }
      forall i: nat | i < cfg.vnodes ensures VnodeHash(cfg, node, i) ==
        cfg.hasher(node.ip + ":" + ToString(node.port) + "#vnode_" + ToString(i)) % 0x1_0000_0000
      {
        VnodeAt(cfg, node, i);
      }
    }

    method RemoveNode(node: Backend)
      modifies this
      ensures ring == RemoveFrom(cfg, old(ring), node)
    {
      for i := 0 to cfg.vnodes
        invariant ring == old(ring) - PointsUpTo(cfg, node, i)
      {
        NewEntriesStep(cfg, node, i);
        ring := ring - {VnodeHash(cfg, node, i)};
      }
    }

    method CountBackends(keys: seq<U32>) returns (unique: set<string>)
      requires forall p :: p in keys ==> p in ring
      ensures unique == UniqueIds(ring, keys)
    {
      unique := {};
      for i := 0 to |keys|
        invariant unique == UniqueIds(ring, keys[..i])
      {
        assert keys[..i + 1] == keys[..i] + [keys[i]];
        unique := unique + {UniqueId(ring[keys[i]])};
      }
      assert keys[..|keys|] == keys;
    }

    method GetNodes(key: string, replicationFactor: nat) returns (result: seq<Backend>)
      ensures result == Replicas(cfg, ring, key, replicationFactor)
    {
      if |ring| == 0 {
        RankingDistinct(ring, HashString(cfg, key));
        return [];
      }
      var keys := SortedKeys(ring.Keys);
      var unique := CountBackends(keys);
      var it := LowerBound(keys, HashString(cfg, key));
      SearchSetup(ring, HashString(cfg, key), keys);
      result := Search(keys, it, |unique|, replicationFactor, Clockwise(ring, HashString(cfg, key)));
    }

    /** The wrapping loop of `getNodes`: an iterator walks the points clockwise and
        takes each owner it has not seen, until enough or all owners are found. */
    method Search(keys: seq<U32>, start: nat, uniqueCount: nat, replicationFactor: nat, ghost walk: seq<U32>)
      returns (result: seq<Backend>)
      requires start <= |keys| && Rotated(keys, start, walk)
      requires forall p :: p in walk ==> p in ring
      requires uniqueCount == |FirstPoints(ring, walk)|
      ensures result == Take(Owners(ring, FirstPoints(ring, walk)), replicationFactor)
    {
      ghost var n := 0;
      var it := start;
      var seen: set<string> := {};
      result := [];
      assert walk[..0] == [];
      while |result| < replicationFactor && |seen| < uniqueCount
        invariant n <= |walk|
        invariant it == Position(start, n, |keys|)
        invariant Searched(ring, walk, n, result, seen)
        invariant |result| <= replicationFactor
        decreases |walk| - n
      {
        SearchStep(ring, walk, n, result, seen);
        if it == |keys| {
          it := 0;
        }
        var current := ring[keys[it]];
        if NodeId(current) !in seen {
          seen := seen + {NodeId(current)};
          result := result + [current];
        }
        it := it + 1;
        n := n + 1;
      }
      SearchDone(ring, walk, n, result, seen, replicationFactor);
    }
  }

  /** The index of the iterator after `n` steps from `start`; `size` is `end()`. */
  function Position(start: nat, n: nat, size: nat): int {
    if start + n <= size then start + n else start + n - size
  }

  /** `walk` lists `keys` from index `start` on, wrapping at the end. */
  ghost predicate Rotated(keys: seq<U32>, start: nat, walk: seq<U32>) {
    |walk| == |keys| && forall n :: 0 <= n < |walk| ==>
      0 <= Position(start, n, |keys|) <= |keys|
      && walk[n] == keys[if Position(start, n, |keys|) == |keys| then 0 else Position(start, n, |keys|)]
  }

  lemma SearchSetup(ring: Ring, h: U32, keys: seq<U32>)
    requires keys == SortedKeys(ring.Keys)
    ensures Rotated(keys, LowerBound(keys, h), Clockwise(ring, h))
    ensures |UniqueIds(ring, keys)| == |FirstPoints(ring, Clockwise(ring, h))|
  {
    RotatedSlices(keys, LowerBound(keys, h));
    MembersUnique(ring, keys);
    MembersUnique(ring, Clockwise(ring, h));
    UniqueCount(ring, Clockwise(ring, h));
  }

  lemma RotatedSlices(keys: seq<U32>, start: nat)
    requires start <= |keys|
    ensures Rotated(keys, start, keys[start..] + keys[..start])
  {
  }

  /** After `n` steps the search holds the owners of the first points met. */
  ghost predicate Searched(ring: Ring, walk: seq<U32>, n: nat, result: seq<Backend>, seen: set<string>)
    requires forall p :: p in walk ==> p in ring
    requires n <= |walk|
  {
    result == Owners(ring, FirstPoints(ring, walk[..n])) && seen == SeenIds(result) && |seen| == |result|
  }

  /** While some owner is unseen the walk has points left, and the next point is
      taken exactly when its owner's identity is new. */
  lemma SearchStep(ring: Ring, walk: seq<U32>, n: nat, result: seq<Backend>, seen: set<string>)
    requires forall p :: p in walk ==> p in ring
    requires n <= |walk| && Searched(ring, walk, n, result, seen)
    requires |seen| < |FirstPoints(ring, walk)|
    ensures n < |walk|
    ensures var b := ring[walk[n]];
      if NodeId(b) in seen then Searched(ring, walk, n + 1, result, seen)
      else Searched(ring, walk, n + 1, result + [b], seen + {NodeId(b)})
  {
    assert walk[..|walk|] == walk;
    NextPoint(ring, walk, n);
    var first := FirstPoints(ring, walk[..n]);
    SnocOwners(ring, first, walk[n]);
    SnocSeen(result, ring[walk[n]]);
  }

  /** The search may stop once it holds enough owners, or as many as there are. */
  lemma SearchDone(ring: Ring, walk: seq<U32>, n: nat, result: seq<Backend>, seen: set<string>, r: nat)
    requires forall p :: p in walk ==> p in ring
    requires n <= |walk| && Searched(ring, walk, n, result, seen)
    requires |result| <= r && (|result| == r || |seen| >= |FirstPoints(ring, walk)|)
    ensures result == Take(Owners(ring, FirstPoints(ring, walk)), r)
  {
    FirstPointsPrefix(ring, walk, n);
  }

  lemma NextPoint(ring: Ring, walk: seq<U32>, n: nat)
    requires forall p :: p in walk ==> p in ring
    requires n < |walk|
    ensures FirstPoints(ring, walk[..n + 1]) == var first := FirstPoints(ring, walk[..n]);
      if NodeId(ring[walk[n]]) in SeenIds(Owners(ring, first)) then first else first + [walk[n]]
  {
    FirstPointsSnoc(ring, walk[..n], walk[n]);
    assert walk[..n + 1] == walk[..n] + [walk[n]];
    SeenMeets(ring, FirstPoints(ring, walk[..n]), ring[walk[n]]);
  }

  lemma SnocOwners(ring: Ring, f: seq<U32>, p: U32)
    requires p in ring && forall q :: q in f ==> q in ring
    ensures Owners(ring, f + [p]) == Owners(ring, f) + [ring[p]]
  {
  }

  lemma SnocSeen(s: seq<Backend>, b: Backend)
    ensures SeenIds(s + [b]) == SeenIds(s) + {NodeId(b)}
  {
    InSnoc(s, b);
  }

  function SeenIds(s: seq<Backend>): set<string> {
    set b | b in s :: NodeId(b)
  }

  lemma SeenMeets(ring: Ring, f: seq<U32>, b: Backend)
    requires forall p :: p in f ==> p in ring
    ensures NodeId(b) in SeenIds(Owners(ring, f)) <==> Meets(ring, f, b)
  {
    var s := Owners(ring, f);
    if NodeId(b) in SeenIds(s) {
      var c :| c in s && NodeId(c) == NodeId(b);
      var i :| 0 <= i < |s| && s[i] == c;
      IdsInjective(c, b);
      assert f[i] in f;
    }
    if Meets(ring, f, b) {
      var q :| q in f && SameNode(ring[q], b);
      var i :| 0 <= i < |f| && f[i] == q;
      IdsInjective(ring[q], b);
      assert s[i] in s;
    }
  }
}
