/** Every GET returns the last write: the invariant of the running system and
    its proof, step by step. */
module ClusterSafety {
  import opened Text
  import opened HashRings
  import opened Routers
  import opened KvServers
  import opened Backends
  import opened Recoveries
  import opened Clusters

  // ----- the configuration -----

  /** The load balancer's configuration; `order` names the owners of each key,
      clockwise, on the ring as first built. */
  datatype Setup = Setup(cfg: Config, nodes: seq<Backend>, order: string -> seq<int>)

  /** At least two backends with distinct ports, all UP at first, at least one
      virtual node each, and no ring point shared by two of them. */
  ghost predicate GoodSetup(u: Setup) {
    && WellConfigured(u.cfg, u.nodes)
    && u.cfg.vnodes > 0
    && |u.nodes| >= 2
    && (forall b :: b in u.nodes ==> b.status == UP)
    && (forall k :: NamesOwners(u, k))
  }

  ghost predicate NamesOwners(u: Setup, k: string) {
    u.order(k) == HomeOrder(u.cfg, u.nodes, k)
  }

  ghost predicate FirstTwo(order: seq<int>, p: int) {
    |order| >= 2 && (p == order[0] || p == order[1])
  }

  /** `p` is one of the two backends that hold `k` when all are in service. */
  ghost predicate Home(u: Setup, k: string, p: int) {
    FirstTwo(u.order(k), p)
  }

  // ----- the fault model -----

  ghost predicate Healthy(s: Cluster, p: int) {
    p in s.machines && s.machines[p].alive && p in s.router.backends && s.router.backends[p].status == UP
  }

  /** What a table holds under a key. */
  function EntryOf(db: Table, k: string): Option<string> {
    if k in db then Some(db[k]) else None
  }

  /** Recovery cannot tell a missing key from an empty value. */
  predicate Blank(e: Option<string>) {
    e.None? || e.value == ""
  }

  /** A write now does not reach `p`. */
  ghost predicate Missed(s: Cluster, p: int) {
    p in s.machines && p in s.router.backends && (!s.machines[p].alive || s.router.backends[p].status == DOWN)
  }

  /** The ping of `p` found it dead, and it will be marked DOWN. */
  ghost predicate Condemned(h: Health, p: int) {
    h.Pinged? && !h.alive && h.todo != [] && h.todo[0].port == p && h.todo[0].status != DOWN
  }

  /** The ping of `p` found it alive again, and its recovery will begin. */
  ghost predicate Vouched(h: Health, p: int) {
    h.Pinged? && h.alive && h.todo != [] && h.todo[0].port == p && h.todo[0].status == DOWN
  }

  /** No fault of `p` is pending. */
  ghost predicate Sound(s: Cluster, p: int) {
    Healthy(s, p) && !Condemned(s.health, p)
  }

  /** `p` may be the one backend at fault, and is not being recovered. */
  ghost predicate MayFail(s: Cluster, p: int) {
    && (forall q :: q in s.machines && q != p ==> Sound(s, q))
    && (p in s.router.backends ==> s.router.backends[p].status != RECOVERING)
  }

  /** A write that leaves its key missing or empty finds it already so at every home
      of the key that it cannot reach, and a write of the key that recovery is just
      copying leaves it as it was fetched. */
  ghost predicate WriteAllowed(u: Setup, s: Cluster, abs: Table, c: ClientRequest) {
    LandsExcept(u, s, abs, c, {}) && KeepsFetched(u, s.health, abs, c)
  }

  ghost predicate LandsExcept(u: Setup, s: Cluster, abs: Table, c: ClientRequest, ex: set<(int, string)>) {
    var k, e := KeyOf(c), EntryOf(Effect(abs, c), KeyOf(c));
    Blank(e) ==> forall p :: Home(u, k, p) && Missed(s, p) && (p, k) !in ex ==> EntryOf(s.machines[p].db, k) == e
  }

  ghost predicate KeepsFetched(u: Setup, h: Health, abs: Table, c: ClientRequest) {
    InFlight(u, h, KeyOf(c)) ==> EntryOf(Effect(abs, c), KeyOf(c)) == Some(h.value)
  }

  /** The value of `k` has been fetched for its home in recovery, but not yet synced. */
  ghost predicate InFlight(u: Setup, h: Health, k: string) {
    h.Syncing? && h.key == k && Home(u, k, h.target)
  }

  ghost predicate Silent(s: Cluster, act: Act, p: int) {
    Accepts(s.machines, p) && act(p, s.machines[p].db).1.None?
  }

  /** A backend that accepts the request applies it and answers it, or fails to answer;
      a GET that one leaves unanswered is a fault of that backend. */
  ghost predicate ActOk(s: Cluster, c: ClientRequest, act: Act) {
    && (forall p :: Accepts(s.machines, p) ==> Obeys(s.machines[p].db, c, act, p))
    && (c.Get? ==> forall p :: Silent(s, act, p) ==> MayFail(s, p))
    && (c.Get? ==> forall p, q :: Silent(s, act, p) && Silent(s, act, q) ==> p == q)
  }

  ghost predicate Obeys(db: Table, c: ClientRequest, act: Act, p: int) {
    && act(p, db).0 == Handle(db, ToServer(c)).0
    && (act(p, db).1.Some? ==> act(p, db).1 == Some(Handle(db, ToServer(c)).1))
  }

  lemma ActsOk(s: Cluster, c: ClientRequest)
    ensures ActOk(s, c, Acts(c))
  {
  }

  /** The ping of a backend in service fails although it accepts connections. */
  ghost predicate Mistaken(s: Cluster, alive: bool) {
    && s.health.Pass? && s.health.todo != [] && s.health.todo[0].status != DOWN
    && !alive && Accepts(s.machines, s.health.todo[0].port)
  }

  /** Every backend that accepts connections answers recovery. */
  ghost predicate Answering(s: Cluster, mute: set<int>) {
    forall p :: p in mute ==> !Accepts(s.machines, p)
  }

  lemma HeardAll(s: Cluster, mute: set<int>)
    requires Answering(s, mute)
    ensures Heard(s.machines, mute) == s.machines
  {
    assert forall p :: p in s.machines ==> Heard(s.machines, mute)[p] == s.machines[p];
  }

  /** The assumptions on the environment: one fault at a time, from its cause to the
      promotion; a backend in recovery stays alive; each request is one step, and
      keys are proper ones. */
  ghost predicate Assumed(u: Setup, s: Cluster, abs: Table, step: Step) {
    match step
    case Client(c, act) => ActOk(s, c, act) && (c.Get? || (ProperKey(KeyOf(c)) && WriteAllowed(u, s, abs, c)))
    case Suspect(port) => MayFail(s, port)
    case Crash(port) => MayFail(s, port) && !Vouched(s.health, port)
    case Ping(alive) => Mistaken(s, alive) ==> MayFail(s, s.health.todo[0].port)
    case FetchFrom(_, mute) => Answering(s, mute)
    case CopyFetch(mute) => Answering(s, mute)
    case CopySync(mute) => Answering(s, mute)
    case _ => true
  }

  // ----- the invariant -----

  ghost predicate RouterOk(u: Setup, r: RouterState) {
    Consistent(u.cfg, r) && SameAddresses(u.nodes, r)
  }

  /** The first two owners of every key are two different known backends. */
  ghost predicate HomesKnown(u: Setup, s: Cluster) {
    && s.router.backends.Keys == s.machines.Keys
    && (forall k :: |u.order(k)| >= 2 && u.order(k)[0] != u.order(k)[1]
          && u.order(k)[0] in s.machines && u.order(k)[1] in s.machines)
  }

  ghost predicate OneFault(s: Cluster) {
    forall p, q :: p in s.machines && q in s.machines && !Sound(s, p) && !Sound(s, q) ==> p == q
  }

  function Target(h: Health): Option<int> {
    match h
    case Idle => None
    case Pass(_) => None
    case Pinged(_, _) => None
    case Gone(was) => Target(was)
    case _ => Some(h.target)
  }

  function Todo(h: Health): seq<Backend> {
    match h
    case Idle => []
    case Gone(was) => Todo(was)
    case _ => h.todo
  }

  ghost predicate NoRepeats(left: seq<string>) {
    forall i, j :: 0 <= i < j < |left| ==> left[i] != left[j]
  }

  /** The thread is alive, a vouched backend is, and keys are copied once each. */
  ghost predicate ThreadOk(s: Cluster) {
    match s.health
    case Pinged(todo, _) => todo != [] && (Vouched(s.health, todo[0].port) ==> Accepts(s.machines, todo[0].port))
    case Copying(_, _, left) => NoRepeats(left)
    case Syncing(_, _, left, key, _) => NoRepeats(left) && key !in left
    case Gone(_) => false
    case _ => true
  }

  /** The rest of a pass names distinct backends, and those it saw DOWN still are. */
  ghost predicate TodoOk(s: Cluster, todo: seq<Backend>) {
    && (forall i, j :: 0 <= i < j < |todo| ==> todo[i].port != todo[j].port)
    && (forall i :: 0 <= i < |todo| ==> todo[i].port in s.router.backends)
    && (forall i :: 0 <= i < |todo| && todo[i].status == DOWN ==> s.router.backends[todo[i].port].status == DOWN)
  }

  /** Only the target of the running recovery is RECOVERING. */
  ghost predicate OnlyTarget(s: Cluster) {
    forall p :: p in s.router.backends && s.router.backends[p].status == RECOVERING ==> Target(s.health) == Some(p)
  }

  /** The target is alive, RECOVERING, and not met again in this pass. */
  ghost predicate TargetOk(s: Cluster) {
    Target(s.health).Some? ==>
      var p := Target(s.health).value;
      && p in s.router.backends && s.router.backends[p].status == RECOVERING
      && Accepts(s.machines, p)
      && (forall i :: 0 <= i < |Todo(s.health)| ==> Todo(s.health)[i].port != p)
  }

  /** Recovery will still copy `k` to its target. */
  ghost predicate Outstanding(u: Setup, h: Health, k: string) {
    match h
    case Begun(_, _) => true
    case Fetching(_, target, peers, keys) => k in keys || PeerHome(u, target, peers, k)
    case Copying(_, _, left) => k in left
    case Syncing(_, _, left, key, _) => k in left || k == key
    case _ => false
  }

  ghost predicate PeerHome(u: Setup, target: int, peers: seq<Backend>, k: string) {
    exists b :: b in peers && b.port != target && Home(u, k, b.port)
  }

  /** How the entry of a home backend relates to the client's view. */
  predicate InStep(status: Status, mine: Option<string>, current: Option<string>, outstanding: bool) {
    match status
    case UP => mine == current
    case DOWN => Blank(current) ==> mine == current
    case RECOVERING => mine == current || (!Blank(current) && outstanding)
  }

  ghost predicate SyncOk(u: Setup, s: Cluster, abs: Table, p: int, k: string) {
    p in s.machines && p in s.router.backends ==>
      InStep(s.router.backends[p].status, EntryOf(s.machines[p].db, k), EntryOf(abs, k), Outstanding(u, s.health, k))
  }

  /** Home backends are in step on all keys; `ex` lists the pairs given up on,
      normally none. */
  ghost predicate Synced(u: Setup, s: Cluster, abs: Table, ex: set<(int, string)>) {
    forall p, k :: Home(u, k, p) && (p, k) !in ex ==> SyncOk(u, s, abs, p, k)
  }

  /** A value on its way to the target is the current one. */
  ghost predicate FlightOk(u: Setup, h: Health, abs: Table, ex: set<(int, string)>) {
    h.Syncing? && Home(u, h.key, h.target) && (h.target, h.key) !in ex ==> EntryOf(abs, h.key) == Some(h.value)
  }

  ghost predicate Core(u: Setup, s: Cluster, abs: Table, ex: set<(int, string)>) {
    && HomesKnown(u, s) && OneFault(s) && ThreadOk(s) && FlightOk(u, s.health, abs, ex)
    && TodoOk(s, Todo(s.health)) && OnlyTarget(s) && TargetOk(s)
    && (forall k :: k in abs ==> ProperKey(k))
    && Synced(u, s, abs, ex)
  }

  ghost predicate Inv(u: Setup, s: Cluster, abs: Table, ex: set<(int, string)>) {
    RouterOk(u, s.router) && Core(u, s, abs, ex)
  }

  // ----- replicas under one fault -----

  lemma KeepTwo(order: seq<int>, live: set<int>)
    requires |order| >= 2
    ensures Keep(order, live) == (if order[0] in live then [order[0]] else [])
      + (if order[1] in live then [order[1]] else []) + Keep(order[2..], live)
  {
    assert order[1..][1..] == order[2..];
  }

  /** `t`, the first two owners in service: every home in service is among them,
      the first is a home, and either both are homes and one is healthy, or the
      first is healthy. */
  ghost predicate TopOk(order: seq<int>, live: set<int>, healthy: set<int>, t: seq<int>) {
    && |order| >= 2 && |t| >= 1 && FirstTwo(order, t[0])
    && (order[0] in live ==> order[0] in t) && (order[1] in live ==> order[1] in t)
    && ((|t| == 2 && FirstTwo(order, t[1]) && (t[0] in healthy || t[1] in healthy)) || t[0] in healthy)
    && (order[0] in live && order[1] in live ==> t == [order[0], order[1]])
  }

  lemma TopTwo(order: seq<int>, live: set<int>, healthy: set<int>)
    requires |order| >= 2 && order[0] != order[1] && healthy <= live
    requires order[0] in healthy || order[1] in healthy
    ensures TopOk(order, live, healthy, Take(Keep(order, live), 2))
  {
    KeepTwo(order, live);
  }

  lemma TakePorts(s: seq<Backend>, n: nat)
    ensures Ports(Take(s, n)) == Take(Ports(s), n)
  {
  }

  lemma DistinctPorts(s: seq<Backend>, m: map<int, Backend>)
    requires DistinctNodes(s) && forall b :: b in s ==> b.port in m && m[b.port] == b
    ensures forall i, j :: 0 <= i < j < |s| ==> s[i].port != s[j].port
  {
    assert forall i :: 0 <= i < |s| ==> s[i] in s;
  }

  /** Records of the router, in service, without repetition. */
  ghost predicate RecordsOf(m: map<int, Backend>, reps: seq<Backend>) {
    && (forall b :: b in reps ==> b.port in m && m[b.port] == b && b.status != DOWN)
    && (forall i, j :: 0 <= i < j < |reps| ==> reps[i].port != reps[j].port)
  }

  lemma TakeRecords(m: map<int, Backend>, rank: seq<Backend>, n: nat)
    requires RecordsOf(m, rank)
    ensures RecordsOf(m, Take(rank, n))
  {
    InTake(rank, n);
  }

  lemma ReplicasAre(u: Setup, r: RouterState, k: string)
    requires GoodSetup(u) && RouterOk(u, r)
    ensures Ports(Replicas(u.cfg, r.ring, k, 2)) == Take(Keep(u.order(k), Online(r)), 2)
    ensures RecordsOf(r.backends, Replicas(u.cfg, r.ring, k, 2))
  {
    var h := HashString(u.cfg, k);
    var rank := Ranking(r.ring, h);
    assert NamesOwners(u, k);
    LiveOrder(u.cfg, u.nodes, r, k);
    TakePorts(rank, 2);
    RankedRecords(u.cfg, r, h);
    RankingDistinct(r.ring, h);
    DistinctPorts(rank, r.backends);
    TakeRecords(r.backends, rank, 2);
  }

  ghost function HealthySet(s: Cluster): set<int> {
    set p | p in s.machines && Healthy(s, p)
  }

  /** The healthy backends that will answer. */
  ghost function WillingSet(s: Cluster, act: Act): set<int> {
    set p | p in s.machines && Healthy(s, p) && !Silent(s, act, p)
  }

  /** What the steps need to know about the replicas of `k`; of the homes at least one
      is `ready`. */
  ghost predicate GoodReplicas(u: Setup, s: Cluster, k: string, reps: seq<Backend>, ready: set<int>) {
    RecordsOf(s.router.backends, reps) && TopOk(u.order(k), Online(s.router), ready, Ports(reps))
  }

  lemma ReplicasUnderFault(u: Setup, s: Cluster, k: string, ready: set<int>)
    requires GoodSetup(u) && RouterOk(u, s.router) && HomesKnown(u, s) && ready <= HealthySet(s)
    requires u.order(k)[0] in ready || u.order(k)[1] in ready
    ensures GoodReplicas(u, s, k, Replicas(u.cfg, s.router.ring, k, 2), ready)
  {
    ReplicasAre(u, s.router, k);
    TopTwo(u.order(k), Online(s.router), ready);
  }

  lemma SomeHealthy(u: Setup, s: Cluster, k: string)
    requires HomesKnown(u, s) && OneFault(s)
    ensures u.order(k)[0] in HealthySet(s) || u.order(k)[1] in HealthySet(s)
  {
  }

  lemma SomeWilling(u: Setup, s: Cluster, k: string, act: Act)
    requires HomesKnown(u, s) && OneFault(s) && ActOk(s, Get(k), act)
    ensures u.order(k)[0] in WillingSet(s, act) || u.order(k)[1] in WillingSet(s, act)
  {
    var x, y := u.order(k)[0], u.order(k)[1];
    if Silent(s, act, x) {
      assert Sound(s, y) && !Silent(s, act, y);
    } else if Silent(s, act, y) {
      assert Sound(s, x);
    }
  }

  // ----- what a request does to one table -----

  /** A backend performs on its table what the client expects of the store. */
  lemma HandleIsEffect(db: Table, c: ClientRequest)
    ensures Handle(db, ToServer(c)).0 == Effect(db, c)
  {
  }

  lemma EffectOnEntry(a: Table, b: Table, c: ClientRequest, k: string)
    requires EntryOf(a, k) == EntryOf(b, k)
    ensures EntryOf(Effect(a, c), k) == EntryOf(Effect(b, c), k)
    ensures k != KeyOf(c) ==> EntryOf(Effect(a, c), k) == EntryOf(a, k)
  {
  }

  // ----- the loops of the proxy -----

  ghost function AppliedBy(m: Machines, t: seq<int>, act: Act): Machines {
    map p | p in m :: if p in t && m[p].alive then m[p].(db := act(p, m[p].db).0) else m[p]
  }

  ghost function Applied(m: Machines, t: seq<int>, c: ClientRequest): Machines {
    map p | p in m :: if p in t && m[p].alive then m[p].(db := Effect(m[p].db, c)) else m[p]
  }

  ghost function Downed(b: map<int, Backend>, m: Machines, t: seq<int>): map<int, Backend> {
    map p | p in b :: if p in t && !Accepts(m, p) then b[p].(status := DOWN) else b[p]
  }

  lemma PortsSnoc(s: seq<Backend>)
    requires s != []
    ensures Ports(s) == Ports(s[..|s| - 1]) + [s[|s| - 1].port]
    ensures forall p :: p in Ports(s) <==> p in Ports(s[..|s| - 1]) || p == s[|s| - 1].port
  {
  }

  /** Every candidate that accepts applies the write once, answered or not; exactly
      the others go DOWN. */
  lemma {:induction false} WriteLoopEffect(cfg: Config, m: Machines, r: RouterState, cs: seq<Backend>, act: Act)
    requires forall i, j :: 0 <= i < j < |cs| ==> cs[i].port != cs[j].port
    ensures WriteLoop(cfg, m, r, cs, act).0 == AppliedBy(m, Ports(cs), act)
    ensures WriteLoop(cfg, m, r, cs, act).1.backends == Downed(r.backends, m, Ports(cs))
  {
    if cs == [] {
    } else {
      var n := |cs| - 1;
      WriteLoopEffect(cfg, m, r, cs[..n], act);
      PortsSnoc(cs);
      NotEarlier(cs);
      OneMoreApplied(m, Ports(cs[..n]), Ports(cs), cs[n].port, act);
      OneMoreDowned(m, r.backends, Ports(cs[..n]), Ports(cs), cs[n].port);
    }
  }

  lemma NotEarlier(cs: seq<Backend>)
    requires cs != [] && forall i, j :: 0 <= i < j < |cs| ==> cs[i].port != cs[j].port
    ensures cs[|cs| - 1].port !in Ports(cs[..|cs| - 1])
  {
    var init := cs[..|cs| - 1];
    assert forall i :: 0 <= i < |init| ==> Ports(init)[i] == cs[i].port;
  }

  lemma OneMoreApplied(m: Machines, t: seq<int>, t': seq<int>, port: int, act: Act)
    requires port !in t && forall p :: p in t' <==> p in t || p == port
    ensures AppliedBy(m, t', act) ==
      if Accepts(m, port) then AppliedBy(m, t, act)[port := m[port].(db := act(port, m[port].db).0)] else AppliedBy(m, t, act)
    ensures port in m ==> AppliedBy(m, t, act)[port] == m[port]
  {
    var a, a' := AppliedBy(m, t, act), AppliedBy(m, t', act);
    assert forall p :: p in m && p != port ==> a'[p] == a[p];
    if Accepts(m, port) {
      assert a' == a[port := m[port].(db := act(port, m[port].db).0)];
    } else {
      assert a' == a;
    }
  }

  lemma OneMoreDowned(m: Machines, b: map<int, Backend>, t: seq<int>, t': seq<int>, port: int)
    requires port !in t && forall p :: p in t' <==> p in t || p == port
    ensures Downed(b, m, t') == if Accepts(m, port) || port !in b
      then Downed(b, m, t) else Downed(b, m, t)[port := b[port].(status := DOWN)]
    ensures port in b ==> Downed(b, m, t)[port] == b[port]
  {
  }

  /** Obedient backends do on their tables what the client expects of the store. */
  lemma ObeyedIsApplied(s: Cluster, t: seq<int>, c: ClientRequest, act: Act)
    requires ActOk(s, c, act)
    ensures AppliedBy(s.machines, t, act) == Applied(s.machines, t, c)
  {
    forall p | p in s.machines && s.machines[p].alive ensures act(p, s.machines[p].db).0 == Effect(s.machines[p].db, c) {
      assert Obeys(s.machines[p].db, c, act, p);
      HandleIsEffect(s.machines[p].db, c);
    }
  }

  /** Some backends that gave no answer were marked DOWN and nothing else changed. */
  ghost predicate SomeDowned(m: Machines, act: Act, b: map<int, Backend>, b': map<int, Backend>) {
    b'.Keys == b.Keys && forall p :: p in b ==> b'[p] == b[p] || (!Answers(m, p, act) && b'[p] == b[p].(status := DOWN))
  }

  lemma {:induction false} ReadLoopEffect(cfg: Config, m: Machines, r: RouterState, cs: seq<Backend>, act: Act)
    ensures SomeDowned(m, act, r.backends, ReadLoop(cfg, m, r, cs, act).0.backends)
    decreases |cs|
  {
    if cs == [] {
    } else if !Answers(m, cs[0].port, act) {
      ReadLoopEffect(cfg, m, MarkDown(cfg, r, cs[0].port), cs[1..], act);
    }
  }

  /** Sessions only ever take backends out of service. */
  ghost predicate OnlyDown(b: map<int, Backend>, b': map<int, Backend>) {
    b'.Keys == b.Keys && forall p :: p in b ==> b'[p] == b[p] || b'[p] == b[p].(status := DOWN)
  }

  lemma {:induction false} WriteLoopOnlyDown(cfg: Config, m: Machines, r: RouterState, cs: seq<Backend>, act: Act)
    ensures OnlyDown(r.backends, WriteLoop(cfg, m, r, cs, act).1.backends)
  {
    if cs == [] {
    } else {
      WriteLoopOnlyDown(cfg, m, r, cs[..|cs| - 1], act);
    }
  }

  lemma ForwardOnlyDown(cfg: Config, m: Machines, r: RouterState, read: bool, act: Act, targets: Option<seq<Backend>>)
    ensures OnlyDown(r.backends, ForwardTo(cfg, m, r, read, act, targets).1.backends)
  {
    if targets.Some? {
      WriteLoopOnlyDown(cfg, m, r, targets.value, act);
      ReadLoopEffect(cfg, m, r, targets.value, act);
    }
  }

  /** The answer comes from the first candidate that answers; all before it are DOWN,
      and nothing else changes. */
  lemma {:induction false} ReadLoopAnswer(cfg: Config, m: Machines, r: RouterState, cs: seq<Backend>, act: Act)
    returns (i: nat)
    requires exists x :: 0 <= x < |cs| && Answers(m, cs[x].port, act)
    ensures i < |cs| && Answers(m, cs[i].port, act)
    ensures ReadLoop(cfg, m, r, cs, act).1 == act(cs[i].port, m[cs[i].port].db).1
    ensures forall j :: 0 <= j < i ==> !Answers(m, cs[j].port, act)
    ensures forall j | 0 <= j < i && cs[j].port in r.backends ::
      && cs[j].port in ReadLoop(cfg, m, r, cs, act).0.backends
      && ReadLoop(cfg, m, r, cs, act).0.backends[cs[j].port].status == DOWN
    ensures ReadLoop(cfg, m, r, cs, act).0.backends.Keys == r.backends.Keys
    ensures forall p | p in r.backends && (forall j :: 0 <= j < i ==> cs[j].port != p) ::
      ReadLoop(cfg, m, r, cs, act).0.backends[p] == r.backends[p]
    decreases |cs|
  {
    i := 0;
    if !Answers(m, cs[0].port, act) {
      var x :| 0 <= x < |cs| && Answers(m, cs[x].port, act);
      assert cs[1..][x - 1] == cs[x];
      var r' := MarkDown(cfg, r, cs[0].port);
      var y := ReadLoopAnswer(cfg, m, r', cs[1..], act);
      ReadLoopEffect(cfg, m, r', cs[1..], act);
      assert forall j :: 1 <= j < y + 1 ==> cs[j] == cs[1..][j - 1];
      assert forall j :: 0 <= j < y ==> cs[1..][j] == cs[j + 1];
      i := y + 1;
    }
  }

  // ----- steps of clients and of the environment -----

  /** Taking backends DOWN that are dead, and perhaps the one that may fail. */
  lemma DownStep(u: Setup, s: Cluster, abs: Table, ex: set<(int, string)>, r: RouterState, p0: int)
    requires Core(u, s, abs, ex) && OnlyDown(s.router.backends, r.backends)
    requires forall p :: p in s.router.backends && r.backends[p] != s.router.backends[p] ==>
      !Accepts(s.machines, p) || (p == p0 && MayFail(s, p0))
    ensures Core(u, s.(router := r), abs, ex)
  {
    var s' := s.(router := r);
    assert forall p :: p in s.machines && Sound(s', p) ==> Sound(s, p);
    assert forall p :: p in s.machines && Sound(s, p) && !Sound(s', p) ==> p == p0 && MayFail(s, p0);
    forall p, k | Home(u, k, p) && (p, k) !in ex ensures SyncOk(u, s', abs, p, k) {
      assert SyncOk(u, s, abs, p, k);
    }
  }

  /** A write reaches every home of its key that is not DOWN; pairs may be given up
      on with it. */
  lemma ApplyStep(u: Setup, s: Cluster, abs: Table, ex: set<(int, string)>, ex': set<(int, string)>, c: ClientRequest,
      t: seq<int>)
    requires Core(u, s, abs, ex) && ex <= ex' && !c.Get? && ProperKey(KeyOf(c))
    requires LandsExcept(u, s, abs, c, ex') && FlightOk(u, s.health, Effect(abs, c), ex')
    requires forall p :: Home(u, KeyOf(c), p) && p in s.machines ==>
      ((p in t && s.machines[p].alive) <==> s.router.backends[p].status != DOWN)
    ensures Core(u, s.(machines := Applied(s.machines, t, c)), Effect(abs, c), ex')
  {
    var s', abs' := s.(machines := Applied(s.machines, t, c)), Effect(abs, c);
    assert forall p :: p in s.machines ==> (Sound(s', p) <==> Sound(s, p));
    forall p, k | Home(u, k, p) && (p, k) !in ex' ensures SyncOk(u, s', abs', p, k) {
      assert SyncOk(u, s, abs, p, k);
      if p in s.machines {
        WriteKeepsSync(u, s, abs, ex', c, p, k, p in t && s.machines[p].alive);
      }
    }
  }

  lemma WriteKeepsSync(u: Setup, s: Cluster, abs: Table, ex: set<(int, string)>, c: ClientRequest, p: int, k: string,
      reached: bool)
    requires p in s.machines && p in s.router.backends && Home(u, k, p) && (p, k) !in ex && !c.Get?
    requires SyncOk(u, s, abs, p, k)
    requires k == KeyOf(c) ==> (reached <==> s.router.backends[p].status != DOWN)
    requires LandsExcept(u, s, abs, c, ex)
    ensures var db := s.machines[p].db;
      InStep(s.router.backends[p].status, EntryOf(if reached then Effect(db, c) else db, k), EntryOf(Effect(abs, c), k),
        Outstanding(u, s.health, k))
  {
    var db := s.machines[p].db;
    if k == KeyOf(c) {
      if EntryOf(db, k) == EntryOf(abs, k) {
        EffectOnEntry(db, abs, c, k);
      }
      if !reached {
        assert Missed(s, p);
      }
    } else {
      EffectOnEntry(db, db, c, k);
      EffectOnEntry(abs, abs, c, k);
    }
  }

  lemma SuspectStep(u: Setup, s: Cluster, abs: Table, ex: set<(int, string)>, port: int)
    requires Core(u, s, abs, ex) && MayFail(s, port)
    ensures Core(u, s.(router := MarkDown(u.cfg, s.router, port)), abs, ex)
  {
    DownStep(u, s, abs, ex, MarkDown(u.cfg, s.router, port), port);
  }

  lemma CrashStep(u: Setup, s: Cluster, abs: Table, ex: set<(int, string)>, port: int)
    requires Core(u, s, abs, ex) && MayFail(s, port) && !Vouched(s.health, port) && port in s.machines
    ensures Core(u, s.(machines := SetAlive(s.machines, port, false)), abs, ex)
  {
    var s' := s.(machines := SetAlive(s.machines, port, false));
    assert forall p :: p in s.machines && p != port ==> Sound(s', p);
    forall p, k | Home(u, k, p) && (p, k) !in ex ensures SyncOk(u, s', abs, p, k) {
      assert SyncOk(u, s, abs, p, k);
    }
  }

  lemma RestartStep(u: Setup, s: Cluster, abs: Table, ex: set<(int, string)>, port: int)
    requires Core(u, s, abs, ex) && port in s.machines
    ensures Core(u, s.(machines := SetAlive(s.machines, port, true)), abs, ex)
  {
    var s' := s.(machines := SetAlive(s.machines, port, true));
    assert forall p :: p in s.machines && Sound(s, p) ==> Sound(s', p);
    forall p, k | Home(u, k, p) && (p, k) !in ex ensures SyncOk(u, s', abs, p, k) {
      assert SyncOk(u, s, abs, p, k);
    }
  }

  // ----- steps of the health checker -----

  lemma TodoTail(s: Cluster, todo: seq<Backend>)
    requires TodoOk(s, todo) && todo != []
    ensures TodoOk(s, todo[1..])
    ensures forall i :: 0 <= i < |todo[1..]| ==> todo[1..][i].port != todo[0].port
  {
    assert forall i :: 0 <= i < |todo[1..]| ==> todo[1..][i] == todo[i + 1];
  }

  /** Moving the thread outside `recover` touches nothing else. */
  lemma SettledStep(u: Setup, s: Cluster, abs: Table, ex: set<(int, string)>, h: Health)
    requires Core(u, s, abs, ex) && Target(s.health).None?
    requires Target(h).None? && TodoOk(s, Todo(h)) && ThreadOk(s.(health := h))
    requires forall p :: p in s.machines && Condemned(h, p) ==> !Sound(s, p) || MayFail(s, p)
    ensures Core(u, s.(health := h), abs, ex)
  {
    var s' := s.(health := h);
    assert forall p :: Healthy(s', p) <==> Healthy(s, p);
    forall p, k | Home(u, k, p) && (p, k) !in ex ensures SyncOk(u, s', abs, p, k) {
      assert SyncOk(u, s, abs, p, k);
    }
  }

  lemma StartPassStep(u: Setup, s: Cluster, abs: Table, ex: set<(int, string)>, snapshot: seq<Backend>)
    requires Core(u, s, abs, ex) && Possible(s, StartPass(snapshot))
    ensures Core(u, s.(health := Pass(snapshot)), abs, ex)
  {
    assert forall i :: 0 <= i < |snapshot| ==> snapshot[i] in snapshot;
    SettledStep(u, s, abs, ex, Pass(snapshot));
  }

  lemma PingStep(u: Setup, s: Cluster, abs: Table, ex: set<(int, string)>, alive: bool)
    requires Core(u, s, abs, ex) && Possible(s, Ping(alive)) && Assumed(u, s, abs, Ping(alive))
    ensures Core(u, s.(health := Pinged(s.health.todo, alive)), abs, ex)
  {
    SettledStep(u, s, abs, ex, Pinged(s.health.todo, alive));
  }

  lemma ReactStep(u: Setup, s: Cluster, abs: Table, ex: set<(int, string)>)
    requires Core(u, s, abs, ex) && s.health.Pinged?
    ensures Core(u, Reacted(u.cfg, s, s.health.todo, s.health.alive), abs, ex)
  {
    var todo, alive := s.health.todo, s.health.alive;
    var b := todo[0];
    TodoTail(s, todo);
    if alive && b.status == DOWN {
      BeginRecovery(u, s, abs, ex);
    } else if !alive && b.status != DOWN {
      CondemnedMayFail(s, b.port);
      var r := MarkDown(u.cfg, s.router, b.port);
      DownStep(u, s, abs, ex, r, b.port);
      SettledStep(u, s.(router := r), abs, ex, Pass(todo[1..]));
    } else {
      SettledStep(u, s, abs, ex, Pass(todo[1..]));
    }
  }

  /** A condemned backend is the one at fault. */
  lemma CondemnedMayFail(s: Cluster, p: int)
    requires OneFault(s) && OnlyTarget(s) && Condemned(s.health, p) && p in s.machines
    ensures MayFail(s, p)
  {
    assert !Sound(s, p);
  }

  /** A backend found alive again starts to receive writes. */
  lemma BeginRecovery(u: Setup, s: Cluster, abs: Table, ex: set<(int, string)>)
    requires Core(u, s, abs, ex) && s.health.Pinged? && s.health.alive && s.health.todo[0].status == DOWN
    ensures Core(u, Reacted(u.cfg, s, s.health.todo, true), abs, ex)
  {
    var b, s' := s.health.todo[0], Reacted(u.cfg, s, s.health.todo, true);
    TodoTail(s, s.health.todo);
    assert Vouched(s.health, b.port) && s.router.backends[b.port].status == DOWN;
    assert forall p :: p in s.machines && p != b.port ==> (Sound(s', p) <==> Sound(s, p));
    assert !Sound(s, b.port);
    forall p, k | Home(u, k, p) && (p, k) !in ex ensures SyncOk(u, s', abs, p, k) {
      assert SyncOk(u, s, abs, p, k);
    }
  }

  /** Inside `recover`, a step that only moves the thread forgets no key that is
      still to be copied. */
  lemma RecoverMoves(u: Setup, s: Cluster, abs: Table, ex: set<(int, string)>, h: Health)
    requires Core(u, s, abs, ex) && Target(s.health).Some?
    requires Target(h) == Target(s.health) && Todo(h) == Todo(s.health)
    requires ThreadOk(s.(health := h)) && FlightOk(u, h, abs, ex)
    requires forall k | Home(u, k, Target(h).value) && !Blank(EntryOf(abs, k)) ::
      Outstanding(u, s.health, k) ==> Outstanding(u, h, k)
    ensures Core(u, s.(health := h), abs, ex)
  {
    var s' := s.(health := h);
    assert forall p :: Healthy(s', p) <==> Healthy(s, p);
    forall p, k | Home(u, k, p) && (p, k) !in ex ensures SyncOk(u, s', abs, p, k) {
      assert SyncOk(u, s, abs, p, k);
    }
  }

  /** While `p` recovers, the other home of each of its keys is healthy. */
  lemma OtherHome(u: Setup, s: Cluster, abs: Table, ex: set<(int, string)>, k: string) returns (q: int)
    requires Core(u, s, abs, ex) && Target(s.health).Some? && Home(u, k, Target(s.health).value)
    ensures q != Target(s.health).value && Home(u, k, q) && q in s.machines && Sound(s, q)
    ensures forall x :: Home(u, k, x) ==> x == q || x == Target(s.health).value
  {
    var p := Target(s.health).value;
    q := if u.order(k)[0] == p then u.order(k)[1] else u.order(k)[0];
    assert !Sound(s, p);
  }

  lemma ListPeersStep(u: Setup, s: Cluster, abs: Table, ex: set<(int, string)>, online: seq<Backend>)
    requires Core(u, s, abs, ex) && Possible(s, ListPeers(online)) && KeyedByPort(s.router)
    ensures Core(u, Next(u.cfg, s, ListPeers(online)), abs, ex)
  {
    var p := s.health.target;
    forall k | Home(u, k, p) ensures PeerHome(u, p, online, k) {
      var q := OtherHome(u, s, abs, ex, k);
      assert s.router.backends[q] in online;
    }
    RecoverMoves(u, s, abs, ex, Fetching(s.health.todo, p, online, {}));
  }

  /** Only pairs of the recovering backend itself may have been given up on. */
  ghost predicate OnlyOf(h: Health, ex: set<(int, string)>) {
    Target(h).Some? ==> forall e :: e in ex ==> e.0 == Target(h).value
  }

  lemma FetchStep(u: Setup, s: Cluster, abs: Table, ex: set<(int, string)>, rows: seq<string>, mute: set<int>)
    requires Core(u, s, abs, ex) && Possible(s, FetchFrom(rows, mute)) && Answering(s, mute) && OnlyOf(s.health, ex)
    ensures Core(u, Next(u.cfg, s, FetchFrom(rows, mute)), abs, ex)
  {
    HeardAll(s, mute);
    var h, h' := s.health, Next(u.cfg, s, FetchFrom(rows, mute)).health;
    forall k | Home(u, k, h.target) && !Blank(EntryOf(abs, k)) && Outstanding(u, h, k) ensures Outstanding(u, h', k) {
      if k !in h.keys {
        var b :| b in h.peers && b.port != h.target && Home(u, k, b.port);
        assert h.peers == [h.peers[0]] + h.peers[1..];
        if b !in h.peers[1..] {
          FetchFinds(u, s, abs, ex, rows, mute, k);
        }
      }
    }
    RecoverMoves(u, s, abs, ex, h');
  }

  /** The healthy home of a key has it, so its answer lists it. */
  lemma FetchFinds(u: Setup, s: Cluster, abs: Table, ex: set<(int, string)>, rows: seq<string>, mute: set<int>,
      k: string)
    requires Core(u, s, abs, ex) && Possible(s, FetchFrom(rows, mute)) && Answering(s, mute) && OnlyOf(s.health, ex)
    requires var q := s.health.peers[0].port; q != s.health.target && Home(u, k, q)
    requires Home(u, k, s.health.target) && !Blank(EntryOf(abs, k))
    ensures k in FetchKeys(s.machines, s.health.peers[0].port, rows)
  {
    HeardAll(s, mute);
    var q := OtherHome(u, s, abs, ex, k);
    assert SyncOk(u, s, abs, q, k);
    ProperIsLine(k);
    LinesOfRows(rows);
  }

  lemma StartCopyStep(u: Setup, s: Cluster, abs: Table, ex: set<(int, string)>)
    requires Core(u, s, abs, ex) && Possible(s, StartCopy)
    ensures Core(u, Next(u.cfg, s, StartCopy), abs, ex)
  {
    var order := InOrder(s.health.keys);
    InOrderIs(s.health.keys);
    InOrderDistinct(s.health.keys);
    hide InOrder;
    RecoverMoves(u, s, abs, ex, Copying(s.health.todo, s.health.target, order));
  }

  // ----- copying one key -----

  lemma SourceIs(m: Machines, reps: seq<Backend>, p: int, q: int, k: string)
    requires p != q && (Ports(reps) == [p, q] || Ports(reps) == [q, p])
    ensures SourceValue(m, reps, p, k) == FetchValue(m, q, k)
    ensures exists b :: b in reps && b.port == p
  {
    assert |reps| == 2 && reps[0].port == Ports(reps)[0] && reps[1].port == Ports(reps)[1];
    assert reps[0] in reps && reps[1] in reps;
    assert reps[1..] == [reps[1]] && reps[1..][1..] == [];
    assert SourceValue(m, reps[1..][1..], p, k) == "";
    assert SourceValue(m, reps[1..], p, k) == if reps[1].port == p then "" else FetchValue(m, reps[1].port, k);
  }

  /** What the target is given is the value at the healthy home. */
  lemma CopyValueIs(m: Machines, reps: seq<Backend>, p: int, q: int, k: string)
    requires p != q && (Ports(reps) == [p, q] || Ports(reps) == [q, p]) && Accepts(m, q)
    ensures CopyValue(m, reps, p, k) == if Blank(EntryOf(m[q].db, k)) then "" else EntryOf(m[q].db, k).value
  {
    SourceIs(m, reps, p, q, k);
  }

  lemma NoReplicasOffRing(cfg: Config, ring: Ring, k: string, n: nat)
    requires ring == map[]
    ensures Replicas(cfg, ring, k, n) == []
  {
    RankingDistinct(ring, HashString(cfg, k));
    assert Members(ring) == {};
  }

  /** Fetching a value: if none is found the key needs no copy, otherwise what is
      found is the current value. */
  lemma CopyFetchStep(u: Setup, s: Cluster, abs: Table, ex: set<(int, string)>, reps: seq<Backend>, ready: set<int>)
    requires Core(u, s, abs, ex) && s.health.Copying? && s.health.left != [] && OnlyOf(s.health, ex)
    requires GoodReplicas(u, s, s.health.left[0], reps, ready)
    ensures Core(u, s.(health := Fetched(s.machines, s.health, Some(reps))), abs, ex)
  {
    var h := s.health;
    var k0, h' := h.left[0], Fetched(s.machines, h, Some(reps));
    assert h.left == [k0] + h.left[1..];
    if Home(u, k0, h.target) {
      FetchedIsCurrent(u, s, abs, ex, reps, ready);
    }
    LeftTail(h.left);
    RecoverMoves(u, s, abs, ex, h');
  }

  lemma LeftTail(left: seq<string>)
    requires left != [] && NoRepeats(left)
    ensures left[0] !in left[1..] && NoRepeats(left[1..])
  {
    assert forall i :: 0 <= i < |left[1..]| ==> left[1..][i] == left[i + 1];
  }

  lemma FetchedIsCurrent(u: Setup, s: Cluster, abs: Table, ex: set<(int, string)>, reps: seq<Backend>, ready: set<int>)
    requires Core(u, s, abs, ex) && s.health.Copying? && s.health.left != [] && OnlyOf(s.health, ex)
    requires GoodReplicas(u, s, s.health.left[0], reps, ready) && Home(u, s.health.left[0], s.health.target)
    ensures var v, e := CopyValue(s.machines, reps, s.health.target, s.health.left[0]), EntryOf(abs, s.health.left[0]);
      if Blank(e) then v == "" else v != "" && e == Some(v)
  {
    var k := s.health.left[0];
    var q := OtherHome(u, s, abs, ex, k);
    assert SyncOk(u, s, abs, q, k);
    BothOnline(u, s, k, reps, ready, s.health.target, q);
    CopyValueIs(s.machines, reps, s.health.target, q, k);
  }

  /** The sync writes the one key of the target. */
  lemma SyncTouches(m: Machines, p: int, k: string, v: string)
    ensures var m' := SyncValue(m, p, k, v);
      && m'.Keys == m.Keys
      && (forall x :: x in m ==> m'[x].alive == m[x].alive && (x != p ==> m'[x] == m[x]))
      && (forall x, j :: x in m && j != k ==> EntryOf(m'[x].db, j) == EntryOf(m[x].db, j))
      && (Accepts(m, p) ==> EntryOf(m'[p].db, k) == Some(v))
  {
  }

  lemma CopySyncStep(u: Setup, s: Cluster, abs: Table, ex: set<(int, string)>, mute: set<int>)
    requires Core(u, s, abs, ex) && s.health.Syncing? && Answering(s, mute)
    ensures Core(u, Next(u.cfg, s, CopySync(mute)), abs, ex)
  {
    var h, s' := s.health, Next(u.cfg, s, CopySync(mute));
    SyncTouches(s.machines, h.target, h.key, h.value);
    assert forall x :: x in s.machines ==> (Sound(s', x) <==> Sound(s, x));
    forall x, k | Home(u, k, x) && (x, k) !in ex ensures SyncOk(u, s', abs, x, k) {
      assert SyncOk(u, s, abs, x, k);
    }
  }

  lemma BothOnline(u: Setup, s: Cluster, k: string, reps: seq<Backend>, ready: set<int>, p: int, q: int)
    requires GoodReplicas(u, s, k, reps, ready) && p != q && Home(u, k, p) && Home(u, k, q)
    requires p in Online(s.router) && q in Online(s.router)
    ensures Ports(reps) == [p, q] || Ports(reps) == [q, p]
  {
  }

  lemma PromoteStep(u: Setup, s: Cluster, abs: Table, ex: set<(int, string)>)
    requires Core(u, s, abs, ex) && Possible(s, Promote)
    ensures forall k | Home(u, k, s.health.target) && (s.health.target, k) !in ex ::
      EntryOf(s.machines[s.health.target].db, k) == EntryOf(abs, k)
    ensures Core(u, Next(u.cfg, s, Promote), abs, ex)
  {
    var s', p := Next(u.cfg, s, Promote), s.health.target;
    assert !Sound(s, p);
    assert forall x :: x in s.machines && x != p ==> Sound(s, x) && Sound(s', x);
    forall x, k | Home(u, k, x) && (x, k) !in ex ensures SyncOk(u, s', abs, x, k) && SyncOk(u, s, abs, x, k) {
      assert SyncOk(u, s, abs, x, k);
    }
  }

  // ----- the router's part -----

  lemma OnlineOk(u: Setup, r: RouterState, port: int, status: Status)
    requires RouterOk(u, r) && status != DOWN
    ensures RouterOk(u, SetOnline(u.cfg, r, port, status))
  {
    SetOnlineConsistent(u.cfg, r, port, status);
  }

  lemma DownOk(u: Setup, r: RouterState, port: int)
    requires RouterOk(u, r)
    ensures RouterOk(u, MarkDown(u.cfg, r, port))
  {
    MarkDownConsistent(u.cfg, r, port);
  }

  lemma {:induction false} WriteLoopOk(u: Setup, m: Machines, r: RouterState, cs: seq<Backend>, act: Act)
    requires RouterOk(u, r)
    ensures RouterOk(u, WriteLoop(u.cfg, m, r, cs, act).1)
  {
    if cs == [] {
    } else {
      var n := |cs| - 1;
      WriteLoopOk(u, m, r, cs[..n], act);
      DownOk(u, WriteLoop(u.cfg, m, r, cs[..n], act).1, cs[n].port);
    }
  }

  lemma {:induction false} ReadLoopOk(u: Setup, m: Machines, r: RouterState, cs: seq<Backend>, act: Act)
    requires RouterOk(u, r)
    ensures RouterOk(u, ReadLoop(u.cfg, m, r, cs, act).0)
    decreases |cs|
  {
    if cs == [] {
    } else {
      DownOk(u, r, cs[0].port);
      if !Answers(m, cs[0].port, act) {
        ReadLoopOk(u, m, MarkDown(u.cfg, r, cs[0].port), cs[1..], act);
      }
    }
  }

  lemma ForwardOk(u: Setup, m: Machines, r: RouterState, read: bool, act: Act, targets: Option<seq<Backend>>)
    requires RouterOk(u, r)
    ensures RouterOk(u, ForwardTo(u.cfg, m, r, read, act, targets).1)
  {
    match targets
    case None =>
    case Some(candidates) =>
      ReadLoopOk(u, m, r, candidates, act);
      WriteLoopOk(u, m, r, candidates, act);
  }

  lemma RouterStep(u: Setup, s: Cluster, step: Step)
    requires RouterOk(u, s.router)
    ensures RouterOk(u, Next(u.cfg, s, step).router)
  {
    match step
    case Client(c, act) => ForwardOk(u, s.machines, s.router, c.Get?, act, TargetsFor(u.cfg, s.router, c));
    case Suspect(port) => DownOk(u, s.router, port);
    case React =>
      if s.health.Pinged? && s.health.todo != [] {
        ReactRouter(u, s, s.health.todo, s.health.alive);
      }
    case Promote =>
      if s.health.Copying? {
        OnlineOk(u, s.router, s.health.target, UP);
      }
    case _ =>
  }

  lemma ReactRouter(u: Setup, s: Cluster, todo: seq<Backend>, alive: bool)
    requires RouterOk(u, s.router) && todo != []
    ensures RouterOk(u, Reacted(u.cfg, s, todo, alive).router)
  {
    var b := todo[0];
    if alive {
      if b.status == DOWN {
        OnlineOk(u, s.router, b.port, RECOVERING);
      }
    } else if b.status == UP || b.status == RECOVERING {
      DownOk(u, s.router, b.port);
    }
  }

  // ----- client requests -----

  lemma {:induction false} UpMembers(reps: seq<Backend>)
    ensures forall b :: b in OnlyUp(reps) <==> b in reps && b.status == UP
  {
    if reps == [] {
    } else {
      var init, b := reps[..|reps| - 1], reps[|reps| - 1];
      UpMembers(init);
      assert reps == init + [b];
      InSnoc(init, b);
      InSnoc(OnlyUp(init), b);
    }
  }

  lemma {:induction false} UpHead(reps: seq<Backend>)
    requires reps != [] && reps[0].status == UP
    ensures OnlyUp(reps) != [] && OnlyUp(reps)[0] == reps[0]
  {
    if |reps| > 1 {
      UpHead(reps[..|reps| - 1]);
    } else {
      assert OnlyUp(reps[..0]) == [];
    }
  }

  /** What the proxy finds for a key under one fault. */
  lemma TargetsUnderFault(u: Setup, s: Cluster, k: string, ready: set<int>) returns (reps: seq<Backend>)
    requires GoodSetup(u) && RouterOk(u, s.router) && HomesKnown(u, s) && ready <= HealthySet(s)
    requires u.order(k)[0] in ready || u.order(k)[1] in ready
    ensures GoodReplicas(u, s, k, reps, ready) && reps != []
    ensures AllTargets(u.cfg, s.router, k, 2) == Some(reps)
    ensures WriteTargets(u.cfg, s.router, k, 2) == Some(reps)
    ensures ReadTargets(u.cfg, s.router, k, 2) == Some(OnlyUp(reps))
  {
    reps := Replicas(u.cfg, s.router.ring, k, 2);
    ReplicasUnderFault(u, s, k, ready);
    assert |Ports(reps)| > 0;
    if s.router.ring == map[] {
      NoReplicasOffRing(u.cfg, s.router.ring, k, 2);
    }
    TargetsFollowRing(u.cfg, s.router, k, 2);
  }

  /** The first candidate of a read that answers is a home that is UP. */
  lemma ReadReachesHome(u: Setup, s: Cluster, k: string, reps: seq<Backend>, act: Act)
    requires GoodReplicas(u, s, k, reps, WillingSet(s, act))
    ensures exists i :: 0 <= i < |OnlyUp(reps)| && Answers(s.machines, OnlyUp(reps)[i].port, act)
    ensures forall i | 0 <= i < |OnlyUp(reps)| && Answers(s.machines, OnlyUp(reps)[i].port, act)
      && (forall j :: 0 <= j < i ==> !Answers(s.machines, OnlyUp(reps)[j].port, act)) ::
      && Home(u, k, OnlyUp(reps)[i].port) && OnlyUp(reps)[i].port in s.router.backends
      && s.router.backends[OnlyUp(reps)[i].port].status == UP
  {
    var up, t := OnlyUp(reps), Ports(reps);
    UpMembers(reps);
    assert forall i :: 0 <= i < |up| ==> up[i] in up;
    assert forall i :: 0 <= i < |reps| ==> reps[i] in reps && t[i] == reps[i].port;
    if t[0] in WillingSet(s, act) {
      UpHead(reps);
    } else {
      assert reps[1] in up;
      var i :| 0 <= i < |up| && up[i] == reps[1];
      forall b | b in up ensures Home(u, k, b.port) {
        assert b == reps[0] || b == reps[1];
      }
    }
  }

  lemma GetStep(u: Setup, s: Cluster, abs: Table, ex: set<(int, string)>, k: string, act: Act)
    requires GoodSetup(u) && Inv(u, s, abs, ex) && ActOk(s, Get(k), act)
    ensures Core(u, Next(u.cfg, s, Client(Get(k), act)), abs, ex)
  {
    SomeWilling(u, s, k, act);
    var reps := TargetsUnderFault(u, s, k, WillingSet(s, act));
    ReadDowns(u, s, abs, ex, OnlyUp(reps), k, act);
    GetNext(u, s, k, act, OnlyUp(reps));
  }

  /** What a GET does, once its candidates are known. */
  lemma GetNext(u: Setup, s: Cluster, k: string, act: Act, up: seq<Backend>)
    requires ReadTargets(u.cfg, s.router, k, 2) == Some(up)
    ensures var e := Next(u.cfg, s, Client(Get(k), act));
      && e.machines == s.machines && e.health == s.health
      && e.router == if up == [] then s.router else ReadLoop(u.cfg, s.machines, s.router, up, act).0
  {
    hide ReadTargets, ReadLoop;
  }

  lemma ReadDowns(u: Setup, s: Cluster, abs: Table, ex: set<(int, string)>, up: seq<Backend>, k: string, act: Act)
    requires Core(u, s, abs, ex) && ActOk(s, Get(k), act)
    ensures Core(u, s.(router := ReadLoop(u.cfg, s.machines, s.router, up, act).0), abs, ex)
  {
    var r := ReadLoop(u.cfg, s.machines, s.router, up, act).0;
    ReadLoopEffect(u.cfg, s.machines, s.router, up, act);
    var p0 := SilentOne(s, act);
    forall p | p in s.router.backends && r.backends[p] != s.router.backends[p]
      ensures !Accepts(s.machines, p) || (p == p0 && MayFail(s, p0))
    {
      assert Accepts(s.machines, p) ==> Silent(s, act, p);
    }
    DownStep(u, s, abs, ex, r, p0);
  }

  lemma SilentOne(s: Cluster, act: Act) returns (p0: int)
    ensures (exists p :: Silent(s, act, p)) ==> Silent(s, act, p0)
  {
    p0 := 0;
    if p :| Silent(s, act, p) {
      p0 := p;
    }
  }

  lemma AnswerFrom(u: Setup, s: Cluster, abs: Table, k: string, reps: seq<Backend>, act: Act)
    requires Core(u, s, abs, {}) && ActOk(s, Get(k), act) && GoodReplicas(u, s, k, reps, WillingSet(s, act))
    ensures ReadLoop(u.cfg, s.machines, s.router, OnlyUp(reps), act).1 == Some(Expected(abs, k))
    ensures OnlyUp(reps) != []
  {
    hide Core, ActOk, GoodReplicas, OnlyUp, ReadLoop, MarkDown;
    var up := OnlyUp(reps);
    ReadReachesHome(u, s, k, reps, act);
    var i := ReadLoopAnswer(u.cfg, s.machines, s.router, up, act);
    HomeAnswers(u, s, abs, k, up[i].port, act);
  }

  lemma HomeAnswers(u: Setup, s: Cluster, abs: Table, k: string, p: int, act: Act)
    requires Core(u, s, abs, {}) && ActOk(s, Get(k), act) && Home(u, k, p) && Answers(s.machines, p, act)
    requires p in s.router.backends && s.router.backends[p].status == UP
    ensures act(p, s.machines[p].db).1 == Some(Expected(abs, k))
  {
    assert SyncOk(u, s, abs, p, k);
    assert Obeys(s.machines[p].db, Get(k), act, p);
  }

  /** A GET is answered, and answered with the current value. */
  lemma GetAnswer(u: Setup, s: Cluster, abs: Table, k: string, act: Act)
    requires GoodSetup(u) && Inv(u, s, abs, {}) && ActOk(s, Get(k), act)
    ensures ReplyTo(u.cfg, s, Get(k), act) == Answer(Expected(abs, k))
  {
    SomeWilling(u, s, k, act);
    var reps := TargetsUnderFault(u, s, k, WillingSet(s, act));
    AnswerFrom(u, s, abs, k, reps, act);
  }

  lemma WriteVia(u: Setup, s: Cluster, abs: Table, ex: set<(int, string)>, ex': set<(int, string)>, c: ClientRequest,
      act: Act, reps: seq<Backend>, ready: set<int>)
    requires Core(u, s, abs, ex) && ex <= ex' && !c.Get? && ProperKey(KeyOf(c)) && ActOk(s, c, act)
    requires LandsExcept(u, s, abs, c, ex') && FlightOk(u, s.health, Effect(abs, c), ex')
    requires GoodReplicas(u, s, KeyOf(c), reps, ready)
    ensures var (m, r, _) := WriteLoop(u.cfg, s.machines, s.router, reps, act);
      Core(u, s.(machines := m, router := r), Effect(abs, c), ex')
  {
    var r := WriteLoop(u.cfg, s.machines, s.router, reps, act).1;
    WriteLoopEffect(u.cfg, s.machines, s.router, reps, act);
    ObeyedIsApplied(s, Ports(reps), c, act);
    DownStep(u, s, abs, ex, r, 0);
    WriteReaches(u, s, KeyOf(c), reps, ready);
    ApplyStep(u, s.(router := r), abs, ex, ex', c, Ports(reps));
  }

  /** What a write does, once its candidates are known. */
  lemma WriteNext(u: Setup, s: Cluster, c: ClientRequest, act: Act, reps: seq<Backend>)
    requires !c.Get? && WriteTargets(u.cfg, s.router, KeyOf(c), 2) == Some(reps) && reps != []
    ensures var (m, r, out) := WriteLoop(u.cfg, s.machines, s.router, reps, act);
      && Next(u.cfg, s, Client(c, act)) == s.(machines := m, router := r)
      && ReplyTo(u.cfg, s, c, act) == match Primary(out) { case None => Unavailable case Some(res) => Answer(res) }
  {
    hide WriteTargets, WriteLoop, Primary;
  }

  lemma WriteStep(u: Setup, s: Cluster, abs: Table, ex: set<(int, string)>, ex': set<(int, string)>, c: ClientRequest,
      act: Act)
    requires GoodSetup(u) && Inv(u, s, abs, ex) && ex <= ex' && !c.Get? && ProperKey(KeyOf(c)) && ActOk(s, c, act)
    requires LandsExcept(u, s, abs, c, ex') && FlightOk(u, s.health, Effect(abs, c), ex')
    ensures Core(u, Next(u.cfg, s, Client(c, act)), Effect(abs, c), ex')
  {
    SomeHealthy(u, s, KeyOf(c));
    var reps := TargetsUnderFault(u, s, KeyOf(c), HealthySet(s));
    WriteVia(u, s, abs, ex, ex', c, act, reps, HealthySet(s));
    WriteNext(u, s, c, act, reps);
  }

  lemma FlightKept(u: Setup, h: Health, abs: Table, ex: set<(int, string)>, c: ClientRequest)
    requires FlightOk(u, h, abs, ex) && KeepsFetched(u, h, abs, c)
    ensures FlightOk(u, h, Effect(abs, c), ex)
  {
    if h.Syncing? && h.key != KeyOf(c) {
      EffectOnEntry(abs, abs, c, h.key);
    }
  }

  lemma WriteReaches(u: Setup, s: Cluster, k: string, reps: seq<Backend>, ready: set<int>)
    requires GoodReplicas(u, s, k, reps, ready) && HomesKnown(u, s)
    ensures forall p | Home(u, k, p) && p in s.machines ::
      (p in Ports(reps) && s.machines[p].alive) <==> Downed(s.router.backends, s.machines, Ports(reps))[p].status != DOWN
  {
    forall p | Home(u, k, p) && p in s.machines && p in Ports(reps) ensures p in Online(s.router) {
      var i :| 0 <= i < |reps| && Ports(reps)[i] == p;
      assert reps[i] in reps;
    }
  }

  // ----- every step -----

  lemma NextKeepsInv(u: Setup, s: Cluster, abs: Table, ex: set<(int, string)>, step: Step)
    requires GoodSetup(u) && Inv(u, s, abs, ex) && OnlyOf(s.health, ex)
    requires Possible(s, step) && Assumed(u, s, abs, step)
    ensures Inv(u, Next(u.cfg, s, step), AbsNext(abs, step), ex)
  {
    RouterStep(u, s, step);
    match step
    case Client(c, act) =>
      if c.Get? {
        GetStep(u, s, abs, ex, c.key, act);
      } else {
        FlightKept(u, s.health, abs, ex, c);
        WriteStep(u, s, abs, ex, ex, c, act);
      }
    case Suspect(port) => SuspectStep(u, s, abs, ex, port);
    case Crash(port) => CrashStep(u, s, abs, ex, port);
    case Restart(port) => RestartStep(u, s, abs, ex, port);
    case _ => ThreadStep(u, s, abs, ex, step);
  }

  lemma ThreadStep(u: Setup, s: Cluster, abs: Table, ex: set<(int, string)>, step: Step)
    requires GoodSetup(u) && Inv(u, s, abs, ex) && OnlyOf(s.health, ex)
    requires Possible(s, step) && Assumed(u, s, abs, step)
    requires !step.Client? && !step.Suspect? && !step.Crash? && !step.Restart?
    ensures Core(u, Next(u.cfg, s, step), abs, ex)
  {
    hide GoodSetup;
    match step
    case StartPass(snapshot) => StartPassStep(u, s, abs, ex, snapshot);
    case EndPass => SettledStep(u, s, abs, ex, Idle);
    case Ping(alive) => PingStep(u, s, abs, ex, alive);
    case React => ReactStep(u, s, abs, ex);
    case ListPeers(online) => ListPeersStep(u, s, abs, ex, online);
    case FetchFrom(rows, mute) => FetchStep(u, s, abs, ex, rows, mute);
    case StartCopy => StartCopyStep(u, s, abs, ex);
    case CopyFetch(mute) => CopyFetchNext(u, s, abs, ex, mute);
    case CopySync(mute) => CopySyncStep(u, s, abs, ex, mute);
    case Promote => PromoteStep(u, s, abs, ex);
  }

  lemma CopyFetchNext(u: Setup, s: Cluster, abs: Table, ex: set<(int, string)>, mute: set<int>)
    requires GoodSetup(u) && Inv(u, s, abs, ex) && OnlyOf(s.health, ex)
    requires Possible(s, CopyFetch(mute)) && Answering(s, mute)
    ensures Core(u, Next(u.cfg, s, CopyFetch(mute)), abs, ex)
  {
    SomeHealthy(u, s, s.health.left[0]);
    var reps := TargetsUnderFault(u, s, s.health.left[0], HealthySet(s));
    CopyFetchStep(u, s, abs, ex, reps, HealthySet(s));
    FetchNext(u, s, reps, mute);
  }

  /** What fetching a value does, once the replicas are known. */
  lemma FetchNext(u: Setup, s: Cluster, reps: seq<Backend>, mute: set<int>)
    requires Possible(s, CopyFetch(mute)) && Answering(s, mute)
    requires AllTargets(u.cfg, s.router, s.health.left[0], 2) == Some(reps)
    ensures Next(u.cfg, s, CopyFetch(mute)) == s.(health := Fetched(s.machines, s.health, Some(reps)))
  {
    hide AllTargets, Fetched;
    HeardAll(s, mute);
  }
}
