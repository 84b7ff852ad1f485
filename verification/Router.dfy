/** The router (load_balancer/src/Router.cpp): the status of every backend and
    the ring of those that are not DOWN. */
module Routers {
  import opened Text
  import opened HashRings

  datatype RouterState = RouterState(backends: map<int, Backend>, ring: Ring)

  // ----- the calls, on values -----

  /** The constructor's loop over the configured backends. */
  function Build(cfg: Config, nodes: seq<Backend>): RouterState {
    if nodes == [] then RouterState(map[], map[])
    else
      var r, b := Build(cfg, nodes[..|nodes| - 1]), nodes[|nodes| - 1];
      RouterState(r.backends[b.port := b], AddTo(cfg, r.ring, b))
  }

  function SetOnline(cfg: Config, r: RouterState, port: int, status: Status): RouterState {
    if port !in r.backends then r
    else
      var b := r.backends[port].(status := status);
      RouterState(r.backends[port := b], AddTo(cfg, r.ring, b))
  }

  function MarkRecovering(cfg: Config, r: RouterState, port: int): RouterState {
    SetOnline(cfg, r, port, RECOVERING)
  }

  function MarkUp(cfg: Config, r: RouterState, port: int): RouterState {
    SetOnline(cfg, r, port, UP)
  }

  function MarkDown(cfg: Config, r: RouterState, port: int): RouterState {
    if port !in r.backends then r
    else
      var b := r.backends[port].(status := DOWN);
      RouterState(r.backends[port := b], RemoveFrom(cfg, r.ring, b))
  }

  function Forget(cfg: Config, r: RouterState, b: Backend): RouterState {
    RouterState(r.backends - {b.port}, RemoveFrom(cfg, r.ring, b))
  }

  predicate Serves(r: RouterState, b: Backend, allowed: set<Status>) {
    b.port in r.backends && r.backends[b.port].status in allowed
  }

  /** The router's own records of the listed nodes whose status is allowed. */
  function Select(r: RouterState, nodes: seq<Backend>, allowed: set<Status>): seq<Backend> {
    if nodes == [] then []
    else
      var s, b := Select(r, nodes[..|nodes| - 1], allowed), nodes[|nodes| - 1];
      if Serves(r, b, allowed) then s + [r.backends[b.port]] else s
  }

  /** The replica lookups; `None` is the exception thrown on an empty ring. */
  function AllTargets(cfg: Config, r: RouterState, key: string, n: nat): Option<seq<Backend>> {
    if r.ring == map[] then None else Some(Replicas(cfg, r.ring, key, n))
  }

  function ReadTargets(cfg: Config, r: RouterState, key: string, n: nat): Option<seq<Backend>> {
    if r.ring == map[] then None else Some(Select(r, Replicas(cfg, r.ring, key, n), {UP}))
  }

  function WriteTargets(cfg: Config, r: RouterState, key: string, n: nat): Option<seq<Backend>> {
    if r.ring == map[] then None else Some(Select(r, Replicas(cfg, r.ring, key, n), {UP, RECOVERING}))
  }

  // ----- the class -----

  class Router {
    const hashRing: HashRing
    var backends: map<int, Backend>

    ghost function State(): RouterState
      reads this, hashRing
    {
      RouterState(backends, hashRing.ring)
    }

    constructor (cfg: Config, nodes: seq<Backend>)
      ensures fresh(hashRing) && hashRing.cfg == cfg
      ensures State() == Build(cfg, nodes)
    {
      var ring := new HashRing(cfg);
      hashRing := ring;
      backends := map[];
      new;
      assert nodes[..0] == [];
      for i := 0 to |nodes|
        invariant State() == Build(cfg, nodes[..i])
      {
        assert nodes[..i + 1][..i] == nodes[..i];
        backends := backends[nodes[i].port := nodes[i]];
        hashRing.AddNode(nodes[i]);
      }
      assert nodes[..|nodes|] == nodes;
    }

    /** The source's constructor throws on an empty list; here that is `null`. */
    static method Create(cfg: Config, nodes: seq<Backend>) returns (router: Router?)
      ensures router == null <==> nodes == []
      ensures router != null ==> fresh(router) && fresh(router.hashRing) && router.hashRing.cfg == cfg
      ensures router != null ==> router.State() == Build(cfg, nodes)
    {
      if |nodes| == 0 {
        return null;
      }
      router := new Router(cfg, nodes);
    }

    method RemoveBackend(b: Backend)
      modifies this, hashRing
      ensures State() == Forget(hashRing.cfg, old(State()), b)
    {
      hashRing.RemoveNode(b);
      backends := backends - {b.port};
    }

    method MarkBackendRecovering(port: int)
      modifies this, hashRing
      ensures State() == MarkRecovering(hashRing.cfg, old(State()), port)
    {
      if port !in backends {
        return;
      }
      backends := backends[port := backends[port].(status := RECOVERING)];
      hashRing.AddNode(backends[port]);
    }

    method MarkBackendUp(port: int)
      modifies this, hashRing
      ensures State() == MarkUp(hashRing.cfg, old(State()), port)
    {
      if port !in backends {
        return;
      }
      backends := backends[port := backends[port].(status := UP)];
      hashRing.AddNode(backends[port]);
    }

    method MarkBackendDown(port: int)
      modifies this, hashRing
      ensures State() == MarkDown(hashRing.cfg, old(State()), port)
    {
      if port !in backends {
        return;
      }
      backends := backends[port := backends[port].(status := DOWN)];
      hashRing.RemoveNode(backends[port]);
    }

    method SelectLoop(nodes: seq<Backend>, allowed: set<Status>) returns (targets: seq<Backend>)
      ensures targets == Select(State(), nodes, allowed)
    {
      targets := [];
      assert nodes[..0] == [];
      for i := 0 to |nodes|
        invariant targets == Select(State(), nodes[..i], allowed)
      {
        assert nodes[..i + 1][..i] == nodes[..i];
        if nodes[i].port in backends && backends[nodes[i].port].status in allowed {
          targets := targets + [backends[nodes[i].port]];
        }
      }
      assert nodes[..|nodes|] == nodes;
    }

    method GetReadBackendsForKey(key: string, n: nat) returns (r: Option<seq<Backend>>)
      ensures r == ReadTargets(hashRing.cfg, State(), key, n)
    {
      var empty := hashRing.Empty();
      if empty {
        return None;
      }
      var nodes := hashRing.GetNodes(key, n);
      var targets := SelectLoop(nodes, {UP});
      r := Some(targets);
    }

    method GetWriteBackendsForKey(key: string, n: nat) returns (r: Option<seq<Backend>>)
      ensures r == WriteTargets(hashRing.cfg, State(), key, n)
    {
      var empty := hashRing.Empty();
      if empty {
        return None;
      }
      var nodes := hashRing.GetNodes(key, n);
      var targets := SelectLoop(nodes, {UP, RECOVERING});
      r := Some(targets);
    }

    method GetBackendsForKey(key: string, n: nat) returns (r: Option<seq<Backend>>)
      ensures r == AllTargets(hashRing.cfg, State(), key, n)
    {
      var empty := hashRing.Empty();
      if empty {
        return None;
      }
      var nodes := hashRing.GetNodes(key, n);
      r := Some(nodes);
    }

    /** The records with an allowed status, in the unspecified order of an
        `unordered_map`: the loop of `getOnlineBackends` and `getAllBackends`. */
    method Enumerate(allowed: set<Status>) returns (result: seq<Backend>)
      requires KeyedByPort(State())
      ensures Listed(State(), result, backends.Keys, allowed)
    {
      result := [];
      var todo, done: set<int> := backends.Keys, {};
      while todo != {}
        invariant todo !! done && todo + done == backends.Keys
        invariant Listed(State(), result, done, allowed)
        decreases |todo|
      {
        SomePort(todo);
        var port :| port in todo;
        ListedStep(State(), result, done, allowed, port);
        todo, done := todo - {port}, done + {port};
        if backends[port].status in allowed {
          result := result + [backends[port]];
        }
      }
    }

    method GetOnlineBackends() returns (result: seq<Backend>)
      requires KeyedByPort(State())
      ensures Listed(State(), result, backends.Keys, {UP})
    {
      result := Enumerate({UP});
    }

    method GetAllBackends() returns (result: seq<Backend>)
      requires KeyedByPort(State())
      ensures Listed(State(), result, backends.Keys, {UP, RECOVERING, DOWN})
    {
      result := Enumerate({UP, RECOVERING, DOWN});
    }
  }

  ghost predicate KeyedByPort(r: RouterState) {
    forall p :: p in r.backends ==> r.backends[p].port == p
  }

  /** `list` holds, once each, the records of the ports in `ports` with an allowed status. */
  ghost predicate Listed(r: RouterState, list: seq<Backend>, ports: set<int>, allowed: set<Status>) {
    && (forall b :: b in list <==> b.port in ports && Serves(r, b, allowed) && r.backends[b.port] == b)
    && (forall i, j :: 0 <= i < j < |list| ==> list[i].port != list[j].port)
  }

  lemma ListedStep(r: RouterState, list: seq<Backend>, ports: set<int>, allowed: set<Status>, port: int)
    requires KeyedByPort(r) && Listed(r, list, ports, allowed)
    requires port in r.backends && port !in ports
    ensures Listed(r, if r.backends[port].status in allowed then list + [r.backends[port]] else list,
              ports + {port}, allowed)
  {
    assert forall i :: 0 <= i < |list| ==> list[i] in list;
  }

  lemma SomePort(s: set<int>)
    ensures s == {} || exists p: int :: p in s
  {
    if forall p: int :: p !in s {
      assert s == {};
    }
  }

  // ----- the ring always matches the statuses -----

  /** Distinct backends never share a ring point. */
  ghost predicate PointsDisjoint(cfg: Config, backends: map<int, Backend>) {
    forall a, b :: a in backends && b in backends && a != b
      ==> Points(cfg, backends[a]) !! Points(cfg, backends[b])
  }

  /** The ring entry at `p` is the router's record of a backend in service. */
  ghost predicate EntryOk(cfg: Config, r: RouterState, p: U32)
    requires p in r.ring
  {
    var b := r.ring[p];
    b.port in r.backends && r.backends[b.port] == b && b.status != DOWN && p in Points(cfg, b)
  }

  /** A backend in service owns all its points, with its current record. */
  ghost predicate Placed(cfg: Config, r: RouterState, port: int)
    requires port in r.backends
  {
    r.backends[port].status != DOWN ==>
      forall p :: p in Points(cfg, r.backends[port]) ==> p in r.ring && r.ring[p] == r.backends[port]
  }

  ghost predicate Consistent(cfg: Config, r: RouterState) {
    && KeyedByPort(r)
    && PointsDisjoint(cfg, r.backends)
    && (forall p :: p in r.ring ==> EntryOk(cfg, r, p))
    && (forall port :: port in r.backends ==> Placed(cfg, r, port))
  }

  /** What the configuration must satisfy: distinct ports, no two backends
      hashed to one point, and every backend starting in service. */
  ghost predicate WellConfigured(cfg: Config, nodes: seq<Backend>) {
    && (forall i, j :: 0 <= i < j < |nodes| ==> nodes[i].port != nodes[j].port)
    && (forall i, j :: 0 <= i < j < |nodes| ==> Points(cfg, nodes[i]) !! Points(cfg, nodes[j]))
    && (forall i :: 0 <= i < |nodes| ==> nodes[i].status != DOWN)
  }

  /** The router still knows the configured backends, under the same addresses. */
  ghost predicate SameAddresses(nodes: seq<Backend>, r: RouterState) {
    && (forall i :: 0 <= i < |nodes| ==> nodes[i].port in r.backends && SameNode(r.backends[nodes[i].port], nodes[i]))
    && r.backends.Keys == PortSet(nodes)
  }

  function PortSet(nodes: seq<Backend>): set<int> {
    set b | b in nodes :: b.port
  }

  lemma {:induction false} BuildBackends(cfg: Config, nodes: seq<Backend>)
    requires forall i, j :: 0 <= i < j < |nodes| ==> nodes[i].port != nodes[j].port
    ensures KeyedByPort(Build(cfg, nodes))
    ensures Build(cfg, nodes).backends.Keys == PortSet(nodes)
    ensures forall b :: b in nodes ==> b.port in Build(cfg, nodes).backends && Build(cfg, nodes).backends[b.port] == b
  {
    hide AddTo;
    if nodes == [] {
    } else {
      var n := |nodes| - 1;
      BuildBackends(cfg, nodes[..n]);
      assert nodes == nodes[..n] + [nodes[n]];
      InSnoc(nodes[..n], nodes[n]);
      forall b | b in nodes[..n] ensures b.port != nodes[n].port {
        var i :| 0 <= i < n && nodes[..n][i] == b;
      }
    }
  }

  lemma PrefixConfigured(cfg: Config, nodes: seq<Backend>, n: nat)
    requires WellConfigured(cfg, nodes) && n + 1 == |nodes|
    ensures nodes[n].status != DOWN && forall i, j :: 0 <= i < j < n ==> nodes[..n][i].port != nodes[..n][j].port
    ensures WellConfigured(cfg, nodes[..n])
    ensures nodes[n].port !in PortSet(nodes[..n])
  {
  }

  lemma {:induction false} BuildConsistent(cfg: Config, nodes: seq<Backend>)
    requires WellConfigured(cfg, nodes)
    ensures Consistent(cfg, Build(cfg, nodes))
  {
    if nodes == [] {
    } else {
      hide Consistent, PointsDisjoint, AddTo, SameNode, WellConfigured;
      var n := |nodes| - 1;
      var r := Build(cfg, nodes[..n]);
      PrefixConfigured(cfg, nodes, n);
      BuildConsistent(cfg, nodes[..n]);
      BuildBackends(cfg, nodes[..n]);
      BuildDisjoint(cfg, nodes);
      AddConsistent(cfg, r, nodes[n]);
    }
  }

  lemma BuildAddresses(cfg: Config, nodes: seq<Backend>)
    requires WellConfigured(cfg, nodes)
    ensures SameAddresses(nodes, Build(cfg, nodes))
  {
    BuildBackends(cfg, nodes);
    assert forall i :: 0 <= i < |nodes| ==> nodes[i] in nodes;
  }

  lemma BuildDisjoint(cfg: Config, nodes: seq<Backend>)
    requires WellConfigured(cfg, nodes)
    ensures PointsDisjoint(cfg, Build(cfg, nodes).backends)
  {
    hide Build, Points;
    BuildBackends(cfg, nodes);
    var m := Build(cfg, nodes).backends;
    forall a, b | a in m && b in m && a != b
      ensures Points(cfg, m[a]) !! Points(cfg, m[b])
    {
      var x :| x in nodes && x.port == a;
      var y :| y in nodes && y.port == b;
      var i :| 0 <= i < |nodes| && nodes[i] == x;
      var j :| 0 <= j < |nodes| && nodes[j] == y;
    }
  }

  /** Entering a backend in service, new or known, keeps ring and records together. */
  lemma AddConsistent(cfg: Config, r: RouterState, b: Backend)
    requires Consistent(cfg, r) && b.status != DOWN
    requires b.port in r.backends ==> SameNode(r.backends[b.port], b)
    requires PointsDisjoint(cfg, r.backends[b.port := b])
    ensures Consistent(cfg, RouterState(r.backends[b.port := b], AddTo(cfg, r.ring, b)))
  {
    hide PointsDisjoint, SameNode, EntryOk, Placed;
    var r' := RouterState(r.backends[b.port := b], AddTo(cfg, r.ring, b));
    if b.port in r.backends {
      PointsOfSameNode(cfg, r.backends[b.port], b);
    }
    forall p | p in r'.ring ensures EntryOk(cfg, r', p) {
      if p in Points(cfg, b) {
        NewEntry(cfg, r, b, p);
      } else {
        OtherEntry(cfg, r, b, p);
      }
    }
    forall port | port in r'.backends ensures Placed(cfg, r', port) {
      if port == b.port {
        NewPlaced(cfg, r, b);
      } else {
        OtherPlaced(cfg, r, b, port);
      }
    }
  }

  lemma NewEntry(cfg: Config, r: RouterState, b: Backend, p: U32)
    requires p in Points(cfg, b) && b.status != DOWN
    ensures EntryOk(cfg, RouterState(r.backends[b.port := b], AddTo(cfg, r.ring, b)), p)
  {
  }

  lemma NewPlaced(cfg: Config, r: RouterState, b: Backend)
    ensures Placed(cfg, RouterState(r.backends[b.port := b], AddTo(cfg, r.ring, b)), b.port)
  {
  }

  lemma OtherEntry(cfg: Config, r: RouterState, b: Backend, p: U32)
    requires Consistent(cfg, r) && b.status != DOWN
    requires b.port in r.backends ==> Points(cfg, r.backends[b.port]) == Points(cfg, b)
    requires p in r.ring && p !in Points(cfg, b)
    ensures EntryOk(cfg, RouterState(r.backends[b.port := b], AddTo(cfg, r.ring, b)), p)
  {
    assert EntryOk(cfg, r, p);
  }

  lemma OtherPlaced(cfg: Config, r: RouterState, b: Backend, port: int)
    requires Consistent(cfg, r) && PointsDisjoint(cfg, r.backends[b.port := b])
    requires port in r.backends && port != b.port
    ensures Placed(cfg, RouterState(r.backends[b.port := b], AddTo(cfg, r.ring, b)), port)
  {
    assert Placed(cfg, r, port);
    var m := r.backends[b.port := b];
    assert Points(cfg, m[port]) !! Points(cfg, m[b.port]);
  }

  lemma DisjointAfter(cfg: Config, r: RouterState, b: Backend)
    requires PointsDisjoint(cfg, r.backends)
    requires b.port in r.backends && SameNode(r.backends[b.port], b)
    ensures PointsDisjoint(cfg, r.backends[b.port := b])
  {
    PointsOfSameNode(cfg, r.backends[b.port], b);
  }

  lemma SetOnlineConsistent(cfg: Config, r: RouterState, port: int, status: Status)
    requires Consistent(cfg, r) && status != DOWN
    ensures Consistent(cfg, SetOnline(cfg, r, port, status))
  {
    if port in r.backends {
      var b := r.backends[port].(status := status);
      DisjointAfter(cfg, r, b);
      AddConsistent(cfg, r, b);
    }
  }

  lemma MarkDownConsistent(cfg: Config, r: RouterState, port: int)
    requires Consistent(cfg, r)
    ensures Consistent(cfg, MarkDown(cfg, r, port))
  {
    if port in r.backends {
      var b := r.backends[port].(status := DOWN);
      var r' := MarkDown(cfg, r, port);
      DisjointAfter(cfg, r, b);
      PointsOfSameNode(cfg, r.backends[port], b);
      forall p | p in r'.ring ensures EntryOk(cfg, r', p) {
        assert EntryOk(cfg, r, p);
      }
      forall q | q in r'.backends ensures Placed(cfg, r', q) {
        assert Placed(cfg, r, q);
      }
    }
  }

  lemma ForgetConsistent(cfg: Config, r: RouterState, port: int)
    requires Consistent(cfg, r) && port in r.backends
    ensures Consistent(cfg, Forget(cfg, r, r.backends[port]))
  {
    var r' := Forget(cfg, r, r.backends[port]);
    forall p | p in r'.ring ensures EntryOk(cfg, r', p) {
      assert EntryOk(cfg, r, p);
    }
    forall q | q in r'.backends ensures Placed(cfg, r', q) {
      assert Placed(cfg, r, q);
      assert Points(cfg, r.backends[port]) !! Points(cfg, r.backends[q]);
    }
  }

  ghost predicate OnlyTouches(cfg: Config, r: RouterState, r': RouterState, port: int, status: Option<Status>)
    requires port in r.backends
  {
    && (forall p :: p in r'.backends <==> p in r.backends && (p == port ==> status.Some?))
    && (forall p :: p in r.backends && p != port ==> r'.backends[p] == r.backends[p])
    && (status.Some? ==> r'.backends[port] == r.backends[port].(status := status.value))
    && RingTouched(r.ring, r'.ring, port, if status in {None, Some(DOWN)} then {} else Points(cfg, r.backends[port]))
  }

  /** Of one backend the ring has exactly these points now; the other entries stay. */
  ghost predicate RingTouched(ring: Ring, ring': Ring, port: int, points: set<U32>) {
    && (forall q :: q in ring && ring[q].port != port ==> q in ring' && ring'[q] == ring[q])
    && (forall q :: q in ring' && ring'[q].port != port ==> q in ring)
    && forall q: U32 :: q in ring' && ring'[q].port == port <==> q in points
  }

  lemma OwnEntries(cfg: Config, r: RouterState, port: int)
    requires Consistent(cfg, r) && port in r.backends
    ensures forall p :: p in r.ring && p in Points(cfg, r.backends[port]) ==> r.ring[p].port == port
    ensures forall p :: p in r.ring && r.ring[p].port == port ==> p in Points(cfg, r.backends[port])
  {
    hide Points;
    forall p | p in r.ring ensures p in Points(cfg, r.backends[port]) <==> r.ring[p].port == port {
      assert EntryOk(cfg, r, p);
    }
  }

  lemma RingWith(cfg: Config, ring: Ring, b: Backend)
    requires forall p :: p in ring ==> (p in Points(cfg, b) <==> ring[p].port == b.port)
    ensures RingTouched(ring, AddTo(cfg, ring, b), b.port, Points(cfg, b))
    ensures RingTouched(ring, RemoveFrom(cfg, ring, b), b.port, {})
  {
    assert NewEntries(cfg, b, cfg.vnodes).Keys == Points(cfg, b);
    hide Points;
  }

  /** What the router knows after a call about one backend: the others' records and ring
      entries are as before; its own record has the new status, or is gone, and the ring
      has its points exactly when it is in service. */
  lemma OneCall(cfg: Config, r: RouterState, port: int)
    requires Consistent(cfg, r) && port in r.backends
    ensures OnlyTouches(cfg, r, MarkRecovering(cfg, r, port), port, Some(RECOVERING))
    ensures OnlyTouches(cfg, r, MarkUp(cfg, r, port), port, Some(UP))
    ensures OnlyTouches(cfg, r, MarkDown(cfg, r, port), port, Some(DOWN))
    ensures OnlyTouches(cfg, r, Forget(cfg, r, r.backends[port]), port, None)
  {
    hide Consistent, RingTouched, AddTo, RemoveFrom, Points;
    assert r.backends[port].port == port by {
      KnownPort(cfg, r, port);
    }
    OwnEntries(cfg, r, port);
    RingWith(cfg, r.ring, r.backends[port]);
    SameTouch(cfg, r, port, RECOVERING);
    SameTouch(cfg, r, port, UP);
    SameTouch(cfg, r, port, DOWN);
  }

  lemma SameTouch(cfg: Config, r: RouterState, port: int, status: Status)
    requires Consistent(cfg, r) && port in r.backends && r.backends[port].port == port
    ensures var b := r.backends[port].(status := status);
      && RingTouched(r.ring, AddTo(cfg, r.ring, b), port, Points(cfg, r.backends[port]))
      && RingTouched(r.ring, RemoveFrom(cfg, r.ring, b), port, {})
  {
    hide Consistent, RingTouched, AddTo, RemoveFrom, Points;
    var b := r.backends[port].(status := status);
    OwnEntries(cfg, r, port);
    PointsOfSameNode(cfg, r.backends[port], b);
    RingWith(cfg, r.ring, b);
  }

  lemma KnownPort(cfg: Config, r: RouterState, port: int)
    requires Consistent(cfg, r) && port in r.backends
    ensures r.backends[port].port == port
  {
  }

  // ----- whole histories -----

  datatype Call = Recovering(port: int) | Up(port: int) | Down(port: int) | Retire(port: int)

  function Perform(cfg: Config, r: RouterState, call: Call): RouterState {
    match call
    case Recovering(port) => MarkRecovering(cfg, r, port)
    case Up(port) => MarkUp(cfg, r, port)
    case Down(port) => MarkDown(cfg, r, port)
    case Retire(port) => if port in r.backends then Forget(cfg, r, r.backends[port]) else r
  }

  function History(cfg: Config, nodes: seq<Backend>, calls: seq<Call>): RouterState {
    if calls == [] then Build(cfg, nodes)
    else Perform(cfg, History(cfg, nodes, calls[..|calls| - 1]), calls[|calls| - 1])
  }

  lemma {:induction false} HistoryConsistent(cfg: Config, nodes: seq<Backend>, calls: seq<Call>)
    requires WellConfigured(cfg, nodes)
    ensures Consistent(cfg, History(cfg, nodes, calls))
  {
    if calls == [] {
      BuildConsistent(cfg, nodes);
    } else {
      var r := History(cfg, nodes, calls[..|calls| - 1]);
      HistoryConsistent(cfg, nodes, calls[..|calls| - 1]);
      match calls[|calls| - 1]
      case Recovering(port) => SetOnlineConsistent(cfg, r, port, RECOVERING);
      case Up(port) => SetOnlineConsistent(cfg, r, port, UP);
      case Down(port) => MarkDownConsistent(cfg, r, port);
      case Retire(port) => if port in r.backends { ForgetConsistent(cfg, r, port); }
    }
  }

  /** After any sequence of calls the ring is the one built afresh from the
      backends in service, in whatever order they are listed. */
  lemma RingIsFresh(cfg: Config, nodes: seq<Backend>, calls: seq<Call>, live: seq<Backend>)
    requires WellConfigured(cfg, nodes)
    requires var r := History(cfg, nodes, calls); Listed(r, live, r.backends.Keys, {UP, RECOVERING})
    ensures History(cfg, nodes, calls).ring == Build(cfg, live).ring
  {
    HistoryConsistent(cfg, nodes, calls);
    ConsistentIsFresh(cfg, History(cfg, nodes, calls), live);
  }

  lemma ConsistentIsFresh(cfg: Config, r: RouterState, live: seq<Backend>)
    requires Consistent(cfg, r) && Listed(r, live, r.backends.Keys, {UP, RECOVERING})
    ensures r.ring == Build(cfg, live).ring
  {
    ListedConfigured(cfg, r, live);
    var f := Build(cfg, live);
    BuildConsistent(cfg, live);
    BuildBackends(cfg, live);
    SameRing(cfg, r, f);
  }

  /** Two consistent routers with the same records in service have the same ring. */
  lemma SameRing(cfg: Config, r: RouterState, f: RouterState)
    requires Consistent(cfg, r) && Consistent(cfg, f)
    requires forall p :: p in f.backends ==> p in r.backends && r.backends[p] == f.backends[p]
    requires forall p :: p in r.backends && r.backends[p].status != DOWN ==> p in f.backends
    ensures r.ring == f.ring
  {
    forall p ensures p in r.ring ==> p in f.ring && f.ring[p] == r.ring[p] {
      if p in r.ring {
        assert EntryOk(cfg, r, p);
        assert Placed(cfg, f, r.ring[p].port);
      }
    }
    forall p ensures p in f.ring ==> p in r.ring {
      if p in f.ring {
        assert EntryOk(cfg, f, p);
        assert Placed(cfg, r, f.ring[p].port);
      }
    }
  }

  lemma ListedConfigured(cfg: Config, r: RouterState, live: seq<Backend>)
    requires Consistent(cfg, r) && Listed(r, live, r.backends.Keys, {UP, RECOVERING})
    ensures WellConfigured(cfg, live)
    ensures forall b :: b in live ==> b.port in r.backends && r.backends[b.port] == b
    ensures forall p :: p in r.backends && r.backends[p].status != DOWN ==> r.backends[p] in live
  {
    assert forall i :: 0 <= i < |live| ==> live[i] in live;
    forall p | p in r.backends && r.backends[p].status != DOWN ensures r.backends[p] in live {
      InService(r.backends[p].status);
    }
  }

  lemma InService(s: Status)
    ensures s in {UP, RECOVERING} <==> s != DOWN
  {
  }

  // ----- replica lookups -----

  /** Writes go to exactly the ring's replicas, and reads to those of them that are UP. */
  lemma {:induction false} SelectSubsequence(cfg: Config, r: RouterState, nodes: seq<Backend>)
    requires Consistent(cfg, r)
    requires forall b :: b in nodes ==> OnRing(r.ring, b)
    ensures Select(r, nodes, {UP, RECOVERING}) == nodes
    ensures Select(r, nodes, {UP}) == OnlyUp(nodes)
  {
    if nodes == [] {
    } else {
      var init, b := nodes[..|nodes| - 1], nodes[|nodes| - 1];
      assert nodes == init + [b];
      assert forall c :: c in init ==> c in nodes;
      SelectSubsequence(cfg, r, init);
      assert b in nodes;
      var p :| p in r.ring && r.ring[p] == b;
      assert EntryOk(cfg, r, p);
      InService(b.status);
    }
  }

  function OnlyUp(s: seq<Backend>): seq<Backend> {
    if s == [] then []
    else
      var t, b := OnlyUp(s[..|s| - 1]), s[|s| - 1];
      if b.status == UP then t + [b] else t
  }

  lemma TargetsFollowRing(cfg: Config, r: RouterState, key: string, n: nat)
    requires Consistent(cfg, r) && r.ring != map[]
    ensures WriteTargets(cfg, r, key, n) == AllTargets(cfg, r, key, n)
    ensures ReadTargets(cfg, r, key, n) == Some(OnlyUp(AllTargets(cfg, r, key, n).value))
  {
    var s := Replicas(cfg, r.ring, key, n);
    forall b | b in s ensures OnRing(r.ring, b) {
      RankedOnRing(r.ring, HashString(cfg, key), n, b);
    }
    SelectSubsequence(cfg, r, s);
  }

  ghost predicate OnRing(ring: Ring, b: Backend) {
    exists p :: p in ring && ring[p] == b
  }

  lemma RankedOnRing(ring: Ring, h: U32, n: nat, b: Backend)
    requires b in Take(Ranking(ring, h), n)
    ensures OnRing(ring, b)
  {
    var f := FirstPoints(ring, Clockwise(ring, h));
    InTake(Ranking(ring, h), n);
    var i :| 0 <= i < |f| && Owners(ring, f)[i] == b;
    assert f[i] in f;
  }

  // ----- the order of the owners of a key -----

  function Ports(s: seq<Backend>): (r: seq<int>)
    ensures |r| == |s| && forall i :: 0 <= i < |s| ==> r[i] == s[i].port
  {
    seq(|s|, i requires 0 <= i < |s| => s[i].port)
  }

  function Online(r: RouterState): set<int> {
    set p | p in r.backends && r.backends[p].status != DOWN
  }

  /** `order` without the ports that are not in `live`. */
  function Keep(order: seq<int>, live: set<int>): seq<int> {
    if order == [] then []
    else if order[0] in live then [order[0]] + Keep(order[1..], live)
    else Keep(order[1..], live)
  }

  /** The owners of a key, clockwise, on the ring as first built. */
  function HomeOrder(cfg: Config, nodes: seq<Backend>, key: string): seq<int> {
    Ports(Ranking(Build(cfg, nodes).ring, HashString(cfg, key)))
  }

  lemma {:induction false} KeepPorts(sub: Ring, ring: Ring, f: seq<U32>, live: set<int>)
    requires forall p :: p in f ==> p in ring && (p in sub <==> ring[p].port in live)
    requires forall p :: p in f && p in sub ==> sub[p].port == ring[p].port
    ensures Ports(Owners(sub, KeepOn(sub, f))) == Keep(Ports(Owners(ring, f)), live)
  {
    if f == [] {
    } else {
      assert forall p :: p in f[1..] ==> p in f;
      KeepPorts(sub, ring, f[1..], live);
      assert f == [f[0]] + f[1..];
      PortsCons(ring, f[0], f[1..]);
      if f[0] in sub {
        PortsCons(sub, f[0], KeepOn(sub, f[1..]));
      }
    }
  }

  lemma PortsCons(ring: Ring, p: U32, f: seq<U32>)
    requires p in ring && forall q :: q in f ==> q in ring
    ensures Ports(Owners(ring, [p] + f)) == [ring[p].port] + Ports(Owners(ring, f))
  {
  }

  /** A ring entry of any consistent router is one of the first ring, at the same address. */
  lemma EntryIsHome(cfg: Config, nodes: seq<Backend>, r: RouterState, p: U32)
    requires WellConfigured(cfg, nodes) && Consistent(cfg, r) && SameAddresses(nodes, r)
    requires p in r.ring
    ensures p in Build(cfg, nodes).ring && SameNode(r.ring[p], Build(cfg, nodes).ring[p])
    ensures r.ring[p].port in Online(r)
  {
    var full := Build(cfg, nodes);
    BuildConsistent(cfg, nodes);
    BuildBackends(cfg, nodes);
    assert EntryOk(cfg, r, p);
    var b := r.ring[p];
    var c :| c in nodes && c.port == b.port;
    var i :| 0 <= i < |nodes| && nodes[i] == c;
    assert SameNode(b, c);
    PointsOfSameNode(cfg, b, c);
    assert Placed(cfg, full, c.port);
  }

  /** A point of a backend in service is on the current ring. */
  lemma HomeIsEntry(cfg: Config, nodes: seq<Backend>, r: RouterState, p: U32)
    requires WellConfigured(cfg, nodes) && Consistent(cfg, r) && SameAddresses(nodes, r)
    requires p in Build(cfg, nodes).ring && Build(cfg, nodes).ring[p].port in Online(r)
    ensures p in r.ring
  {
    var full := Build(cfg, nodes);
    BuildConsistent(cfg, nodes);
    BuildBackends(cfg, nodes);
    assert EntryOk(cfg, full, p);
    var c := full.ring[p];
    assert c in nodes by {
      var x :| x in nodes && x.port == c.port;
    }
    var i :| 0 <= i < |nodes| && nodes[i] == c;
    PointsOfSameNode(cfg, r.backends[c.port], c);
    assert Placed(cfg, r, c.port);
  }

  lemma SubRingOfHome(cfg: Config, nodes: seq<Backend>, r: RouterState)
    requires WellConfigured(cfg, nodes) && Consistent(cfg, r) && SameAddresses(nodes, r)
    ensures SubRing(r.ring, Build(cfg, nodes).ring)
  {
    hide Build, Consistent, SameAddresses, WellConfigured;
    var full := Build(cfg, nodes).ring;
    forall p | p in r.ring ensures p in full && SameNode(r.ring[p], full[p]) {
      EntryIsHome(cfg, nodes, r, p);
    }
    forall p, q | p in full && q in r.ring && SameNode(full[p], r.ring[q]) ensures p in r.ring {
      EntryIsHome(cfg, nodes, r, q);
      HomeIsEntry(cfg, nodes, r, p);
    }
  }

  /** Whatever its history, the router ranks the owners of a key as the first ring
      did, leaving out those that are DOWN. */
  lemma LiveOrder(cfg: Config, nodes: seq<Backend>, r: RouterState, key: string)
    requires WellConfigured(cfg, nodes) && Consistent(cfg, r) && SameAddresses(nodes, r)
    ensures Ports(Ranking(r.ring, HashString(cfg, key))) == Keep(HomeOrder(cfg, nodes, key), Online(r))
  {
    var full, h := Build(cfg, nodes).ring, HashString(cfg, key);
    var f := FirstPoints(full, Clockwise(full, h));
    SubRingOfHome(cfg, nodes, r);
    SubRingRanking(r.ring, full, h);
    forall p | p in f ensures (p in r.ring <==> full[p].port in Online(r)) && (p in r.ring ==> r.ring[p].port == full[p].port) {
      if p in r.ring {
        EntryIsHome(cfg, nodes, r, p);
      } else if full[p].port in Online(r) {
        HomeIsEntry(cfg, nodes, r, p);
      }
    }
    KeepPorts(r.ring, full, f, Online(r));
  }

  /** With at least one virtual node each, every backend has its place in the order. */
  lemma HomeOrderComplete(cfg: Config, nodes: seq<Backend>, key: string)
    requires WellConfigured(cfg, nodes) && cfg.vnodes > 0
    ensures forall p :: p in HomeOrder(cfg, nodes, key) <==> p in PortSet(nodes)
    ensures forall i, j :: 0 <= i < j < |HomeOrder(cfg, nodes, key)| ==>
      HomeOrder(cfg, nodes, key)[i] != HomeOrder(cfg, nodes, key)[j]
  {
    var full, h := Build(cfg, nodes), HashString(cfg, key);
    BuildConsistent(cfg, nodes);
    BuildBackends(cfg, nodes);
    RankedRecords(cfg, full, h);
    RankingDistinct(full.ring, h);
    assert forall i :: 0 <= i < |Ranking(full.ring, h)| ==> Ranking(full.ring, h)[i] in Ranking(full.ring, h);
    forall p | p in PortSet(nodes) ensures p in HomeOrder(cfg, nodes, key) {
      PortRanked(cfg, full, h, p);
    }
  }

  /** A backend in service with a virtual node is ranked. */
  lemma PortRanked(cfg: Config, r: RouterState, h: U32, p: int)
    requires Consistent(cfg, r) && cfg.vnodes > 0
    requires p in r.backends && r.backends[p].status != DOWN
    ensures p in Ports(Ranking(r.ring, h))
  {
    var b := r.backends[p];
    assert Placed(cfg, r, p);
    assert VnodeHash(cfg, b, 0) in Points(cfg, b);
    OwnerRanked(r.ring, h, VnodeHash(cfg, b, 0));
    var j :| 0 <= j < |Ranking(r.ring, h)| && SameNode(Ranking(r.ring, h)[j], b);
    assert Ports(Ranking(r.ring, h))[j] == p;
  }

  lemma OwnerRanked(ring: Ring, h: U32, p: U32)
    requires p in ring
    ensures exists j :: 0 <= j < |Ranking(ring, h)| && SameNode(Ranking(ring, h)[j], ring[p])
  {
    var w := Clockwise(ring, h);
    var f := FirstPoints(ring, w);
    MetOnWalk(ring, w, p);
    var q :| q in f && SameNode(ring[q], ring[p]);
    var j :| 0 <= j < |f| && f[j] == q;
    assert Ranking(ring, h)[j] == ring[q];
  }

  /** Ranked backends are the router's own records. */
  lemma RankedRecords(cfg: Config, r: RouterState, h: U32)
    requires Consistent(cfg, r)
    ensures forall b :: b in Ranking(r.ring, h) ==>
      b.port in r.backends && r.backends[b.port] == b && b.status != DOWN
    ensures forall p :: p in Ports(Ranking(r.ring, h)) ==> p in Online(r)
  {
    forall b | b in Ranking(r.ring, h) ensures b.port in r.backends && r.backends[b.port] == b && b.status != DOWN {
      assert Take(Ranking(r.ring, h), |Ranking(r.ring, h)|) == Ranking(r.ring, h);
      RankedOnRing(r.ring, h, |Ranking(r.ring, h)|, b);
      var p :| p in r.ring && r.ring[p] == b;
      assert EntryOk(cfg, r, p);
    }
    forall p | p in Ports(Ranking(r.ring, h)) ensures p in Online(r) {
      var i :| 0 <= i < |Ranking(r.ring, h)| && Ports(Ranking(r.ring, h))[i] == p;
      assert Ranking(r.ring, h)[i] in Ranking(r.ring, h);
    }
  }
}
