/** The hypotheses of the guarantees can be met, and so can those of the losses: systems
    that satisfy them exist, and legal runs lead to them. */
module Feasibility {
  import opened Text
  import opened HashRings
  import opened Routers
  import opened KvServers
  import opened Backends
  import opened Clusters
  import opened ClusterSafety
  import opened Guarantees
  import opened LostWrites
  import opened Returning

  // ----- a system -----

  /** Every string but one hashes to 1. */
  function TellsApart(first: string): Config {
    Config(key => if key == first then 0 else 1, 1)
  }

  lemma OnePoint(cfg: Config, b: Backend)
    requires cfg.vnodes == 1
    ensures Points(cfg, b) == {VnodeHash(cfg, b, 0)}
  {
  }

  function FirstVnode(b: Backend): string {
    NodeId(b) + "#vnode_" + ToString(0)
  }

  lemma HashesApart(a: Backend, b: Backend)
    requires a.ip == "a" && b.ip == "b"
    ensures Points(TellsApart(FirstVnode(a)), a) == {0} && Points(TellsApart(FirstVnode(a)), b) == {1}
  {
    var cfg := TellsApart(FirstVnode(a));
    assert FirstVnode(a)[0] == 'a' && FirstVnode(b)[0] == 'b';
    OnePoint(cfg, a);
    OnePoint(cfg, b);
  }

  lemma TwoConfigured(cfg: Config, a: Backend, b: Backend)
    requires a.port != b.port && a.status == UP && b.status == UP
    requires Points(cfg, a) == {0} && Points(cfg, b) == {1}
    ensures WellConfigured(cfg, [a, b])
  {
    hide Points;
    var zero: U32, one: U32 := 0, 1;
    assert zero !in {one};
  }

  lemma SomeSetup() returns (u: Setup)
    ensures GoodSetup(u)
  {
    var a, b := Backend("a", 1, UP), Backend("b", 2, UP);
    var cfg := TellsApart(FirstVnode(a));
    HashesApart(a, b);
    TwoConfigured(cfg, a, b);
    u := Setup(cfg, [a, b], k => HomeOrder(cfg, [a, b], k));
    hide WellConfigured, HomeOrder, FirstVnode;
  }

  function EmptyMachines(ports: set<int>): Machines {
    map p | p in ports :: Machine(map[], true)
  }

  lemma StartOf(u: Setup) returns (s: Cluster)
    ensures Initial(u, s, map[])
  {
    hide Build, Home;
    s := Cluster(EmptyMachines(PortSet(u.nodes)), Build(u.cfg, u.nodes), Idle);
  }

  /** Two backends, one virtual node each, and a hash that tells them apart. */
  lemma SomeSystem() returns (u: Setup, s: Cluster)
    ensures GoodSetup(u) && Initial(u, s, map[])
  {
    hide GoodSetup, Initial;
    u := SomeSetup();
    s := StartOf(u);
  }

  // ----- a run through a failure -----

  lemma AllHealthyAtFirst(u: Setup, s: Cluster, abs: Table)
    requires GoodSetup(u) && Initial(u, s, abs)
    ensures s.machines.Keys == s.router.backends.Keys
    ensures forall p :: p in s.machines ==> Healthy(s, p)
  {
    BuildBackends(u.cfg, u.nodes);
    forall p | p in s.machines ensures Healthy(s, p) {
      var b :| b in u.nodes && b.port == p;
    }
  }

  /** Every backend is healthy and the health thread is between passes. */
  ghost predicate Calm(s: Cluster) {
    s.health == Idle && forall p :: p in s.machines ==> Healthy(s, p)
  }

  lemma CalmAtFirst(u: Setup, s: Cluster, abs: Table)
    requires GoodSetup(u) && Initial(u, s, abs)
    ensures Inv(u, s, abs, {}) && Calm(s) && s.health == Idle
  {
    InitialInv(u, s, abs);
    AllHealthyAtFirst(u, s, abs);
  }

  lemma CrashOne(u: Setup, s: Cluster, abs: Table, p: int) returns (e: Cluster)
    requires GoodSetup(u) && Inv(u, s, abs, {}) && Calm(s) && p in s.machines
    ensures Possible(s, Crash(p)) && Assumed(u, s, abs, Crash(p))
    ensures e == Next(u.cfg, s, Crash(p)) && Inv(u, e, abs, {}) && e.health == Idle
    ensures Crashed(e, p) && e.machines[p].db == s.machines[p].db
  {
    e := Next(u.cfg, s, Crash(p));
    CanCrash(s, p);
    hide GoodSetup, Inv;
    NextKeepsInv(u, s, abs, {}, Crash(p));
  }

  /** `p` has crashed, and nobody has noticed yet. */
  ghost predicate Crashed(s: Cluster, p: int) {
    && s.health == Idle && p in s.machines && !s.machines[p].alive
    && p in s.router.backends && s.router.backends[p].status == UP
  }

  lemma CanCrash(s: Cluster, p: int)
    requires Calm(s) && p in s.machines
    ensures MayFail(s, p)
  {
  }

  /** A write of a value is allowed when no recovery is running. */
  lemma PutAllowed(u: Setup, s: Cluster, abs: Table, k: string, v: string)
    requires v != "" && s.health == Idle
    ensures WriteAllowed(u, s, abs, Put(k, v))
  {
  }

  lemma PutOne(u: Setup, s: Cluster, abs: Table, k: string, v: string) returns (e: Cluster)
    requires GoodSetup(u) && Inv(u, s, abs, {}) && s.health == Idle && ProperKey(k) && v != ""
    ensures e == Next(u.cfg, s, Client(Put(k, v), Acts(Put(k, v)))) && Inv(u, e, abs[k := v], {}) && e.health == Idle
    ensures Possible(s, Client(Put(k, v), Acts(Put(k, v)))) && Assumed(u, s, abs, Client(Put(k, v), Acts(Put(k, v))))
  {
    var c := Put(k, v);
    e := Next(u.cfg, s, Client(c, Acts(c)));
    ActsOk(s, c);
    PutAllowed(u, s, abs, k, v);
    SomeHealthy(u, s, k);
    var reps := TargetsUnderFault(u, s, k, HealthySet(s));
    WriteNext(u, s, c, Acts(c), reps);
    hide GoodSetup, Inv, WriteAllowed, ActOk;
    NextKeepsInv(u, s, abs, {}, Client(c, Acts(c)));
  }

  /** Without any fault a write leaves every backend healthy. */
  lemma WriteKeepsCalm(u: Setup, s: Cluster, abs: Table, c: ClientRequest, act: Act)
    requires GoodSetup(u) && Inv(u, s, abs, {}) && Calm(s) && !c.Get?
    ensures Calm(Next(u.cfg, s, Client(c, act)))
  {
    SomeHealthy(u, s, KeyOf(c));
    var reps := TargetsUnderFault(u, s, KeyOf(c), HealthySet(s));
    WriteNext(u, s, c, act, reps);
    LoopKeepsHealth(u, s, reps, act);
    hide GoodSetup, Inv, Next, GoodReplicas;
  }

  lemma LoopKeepsHealth(u: Setup, s: Cluster, reps: seq<Backend>, act: Act)
    requires Calm(s) && s.router.backends.Keys == s.machines.Keys
    requires RecordsOf(s.router.backends, reps)
    ensures var (m, r, _) := WriteLoop(u.cfg, s.machines, s.router, reps, act); Calm(s.(machines := m, router := r))
  {
    WriteLoopEffect(u.cfg, s.machines, s.router, reps, act);
    assert forall p :: p in s.machines ==> Accepts(s.machines, p);
  }

  /** What a crashed home misses. */
  lemma PutMisses(u: Setup, s: Cluster, abs: Table, k: string, v: string, p: int)
    requires GoodSetup(u) && Inv(u, s, abs, {}) && Crashed(s, p) && Home(u, k, p)
    ensures var e := Next(u.cfg, s, Client(Put(k, v), Acts(Put(k, v))));
      && p in e.machines && e.machines[p] == s.machines[p]
      && p in e.router.backends && e.router.backends[p].status == DOWN
  {
    var c := Put(k, v);
    SomeHealthy(u, s, k);
    var reps := TargetsUnderFault(u, s, k, HealthySet(s));
    WriteMisses(u, s, c, Acts(c), reps, HealthySet(s), p);
    WriteNext(u, s, c, Acts(c), reps);
  }

  /** The first home of a key is in step and known. */
  lemma FirstHome(u: Setup, s: Cluster, abs: Table, k: string) returns (p: int)
    requires Inv(u, s, abs, {}) && Calm(s)
    ensures |u.order(k)| >= 2 && p == u.order(k)[0] && Home(u, k, p)
    ensures p in s.machines && EntryOf(s.machines[p].db, k) == EntryOf(abs, k)
  {
    p := u.order(k)[0];
    assert SyncOk(u, s, abs, p, k);
  }

  /** After a write that a crashed home missed, the home restarts. */
  lemma Comeback(u: Setup, s: Cluster, abs: Table, p: int) returns (e: Cluster)
    requires Inv(u, s, abs, {}) && p in s.machines && p in s.router.backends && s.router.backends[p].status == DOWN
    ensures e == Next(u.cfg, s, Restart(p)) && Inv(u, e, abs, {}) && Waiting(e, p, DOWN)
    ensures Possible(s, Restart(p)) && Assumed(u, s, abs, Restart(p))
    ensures p in e.machines && e.machines[p].db == s.machines[p].db
  {
    e := s.(machines := SetAlive(s.machines, p, true));
    RestartWaits(s, p, e);
    RestartInv(u, s, abs, {}, p, e);
  }

  /** A value is put, a backend crashes and misses another, and restarts. */
  function MissedSteps(k: string, v1: string, v2: string, p: int): seq<Step> {
    [Client(Put(k, v1), Acts(Put(k, v1))), Crash(p), Client(Put(k, v2), Acts(Put(k, v2))), Restart(p)]
  }

  /** From the start: a value is put, its first home crashes and misses another, and
      restarts. */
  lemma MissedRun(u: Setup, s: Cluster, abs: Table, k: string, v1: string, v2: string)
    returns (steps: seq<Step>, e: Cluster, p: int)
    requires GoodSetup(u) && Initial(u, s, abs) && ProperKey(k) && v1 != "" && v2 != ""
    ensures |u.order(k)| > 0 && p == u.order(k)[0] && steps == MissedSteps(k, v1, v2, p)
    ensures Legal(u, s, abs, steps) && e == After(u.cfg, s, steps) && Contents(abs, steps) == abs[k := v1][k := v2]
    ensures Inv(u, e, abs[k := v1][k := v2], {}) && Waiting(e, p, DOWN)
    ensures Home(u, k, p) && p in e.machines && EntryOf(e.machines[p].db, k) == Some(v1)
  {
    hide GoodSetup, Inv, Next, Possible, Assumed, Acts, Waiting, Home, Initial, Calm, Crashed;
    CalmAtFirst(u, s, abs);
    WriteKeepsCalm(u, s, abs, Put(k, v1), Acts(Put(k, v1)));
    var s1 := PutOne(u, s, abs, k, v1);
    p := FirstHome(u, s1, abs[k := v1], k);
    var s2 := CrashOne(u, s1, abs[k := v1], p);
    PutMisses(u, s2, abs[k := v1], k, v2, p);
    var s3 := PutOne(u, s2, abs[k := v1], k, v2);
    e := Comeback(u, s3, abs[k := v1][k := v2], p);
    steps := FourSteps(u, s, abs, s1, s2, s3, e, Client(Put(k, v1), Acts(Put(k, v1))), Crash(p),
      Client(Put(k, v2), Acts(Put(k, v2))), Restart(p), abs[k := v1], abs[k := v1][k := v2]);
  }

  lemma FourSteps(u: Setup, s: Cluster, abs: Table, s1: Cluster, s2: Cluster, s3: Cluster, e: Cluster,
      a: Step, b: Step, c: Step, d: Step, abs1: Table, abs2: Table)
    returns (steps: seq<Step>)
    requires Possible(s, a) && Assumed(u, s, abs, a) && s1 == Next(u.cfg, s, a) && abs1 == AbsNext(abs, a)
    requires Possible(s1, b) && Assumed(u, s1, abs1, b) && s2 == Next(u.cfg, s1, b) && abs1 == AbsNext(abs1, b)
    requires Possible(s2, c) && Assumed(u, s2, abs1, c) && s3 == Next(u.cfg, s2, c) && abs2 == AbsNext(abs1, c)
    requires Possible(s3, d) && Assumed(u, s3, abs2, d) && e == Next(u.cfg, s3, d) && abs2 == AbsNext(abs2, d)
    ensures steps == [a, b, c, d] && Legal(u, s, abs, steps) && After(u.cfg, s, steps) == e && Contents(abs, steps) == abs2
  {
    hide Next, Possible, Assumed, AbsNext;
    steps := [a, b, c, d];
    assert [] + [a] == [a] && [a] + [b] == [a, b] && [a, b] + [c] == [a, b, c] && [a, b, c] + [d] == steps;
    LegalMore(u, s, abs, [], s, a);
    LegalMore(u, s, abs, [a], s1, b);
    LegalMore(u, s, abs, [a, b], s2, c);
    LegalMore(u, s, abs, [a, b, c], s3, d);
  }

  lemma {:induction false} LegalAppend(u: Setup, s: Cluster, abs: Table, a: seq<Step>, m: Cluster, abs1: Table,
      b: seq<Step>)
    requires Legal(u, s, abs, a) && m == After(u.cfg, s, a) && abs1 == Contents(abs, a)
    requires Legal(u, m, abs1, b)
    ensures Legal(u, s, abs, a + b)
    ensures After(u.cfg, s, a + b) == After(u.cfg, m, b) && Contents(abs, a + b) == Contents(abs1, b)
    decreases |b|
  {
    hide Next, Possible, Assumed, AbsNext;
    if b == [] {
      assert a + b == a;
    } else {
      var init, last := b[..|b| - 1], b[|b| - 1];
      LegalAppend(u, s, abs, a, m, abs1, init);
      LegalMore(u, s, abs, a + init, After(u.cfg, m, init), last);
      Associate(a, init, [last]);
      assert init + [last] == b;
    }
  }

  /** From every start and for every key: its first home can hold a value, crash, miss
      the next one, restart, be brought back by health steps alone, and hold the next
      one when it is UP again. */
  lemma FailoverRun(u: Setup, s: Cluster, abs: Table, k: string, v1: string, v2: string)
    returns (steps: seq<Step>, m: Cluster, later: seq<Step>, e: Cluster, p: int)
    requires GoodSetup(u) && Initial(u, s, abs) && ProperKey(k) && v1 != "" && v2 != ""
    ensures |u.order(k)| > 0 && p == u.order(k)[0] && steps == MissedSteps(k, v1, v2, p)
    ensures Legal(u, s, abs, steps) && m == After(u.cfg, s, steps) && Waiting(m, p, DOWN)
    ensures p in m.machines && EntryOf(m.machines[p].db, k) == Some(v1)
    ensures Legal(u, s, abs, steps + later) && e == After(u.cfg, s, steps + later)
    ensures Contents(abs, steps + later) == abs[k := v1][k := v2]
    ensures (forall i :: 0 <= i < |later| ==> HealthStep(later[i])) && Promote in later
    ensures Waiting(e, p, UP) && p in e.machines && EntryOf(e.machines[p].db, k) == Some(v2)
  {
    hide GoodSetup, Inv, Next, Possible, Assumed, Acts, Waiting, Home, Initial, Legal, Reaches, After, Contents;
    var abs2 := abs[k := v1][k := v2];
    steps, m, p := MissedRun(u, s, abs, k, v1, v2);
    later, e := CanReturn(u, m, abs2, p, {});
    ReachesLegal(u, m, abs2, p, {}, later, e);
    LegalAppend(u, s, abs, steps, m, abs2, later);
    SomePromotion(u.cfg, m, p, later, e);
    BackInStep(u, e, abs2, k, p);
  }

  lemma BackInStep(u: Setup, s: Cluster, abs: Table, k: string, p: int)
    requires Inv(u, s, abs, {}) && Waiting(s, p, UP) && Home(u, k, p)
    ensures p in s.machines && EntryOf(s.machines[p].db, k) == EntryOf(abs, k)
  {
    assert SyncOk(u, s, abs, p, k);
  }

  /** A backend that was DOWN is UP only after a promotion. */
  lemma {:induction false} SomePromotion(cfg: Config, s: Cluster, p: int, steps: seq<Step>, e: Cluster)
    requires e == After(cfg, s, steps) && Waiting(s, p, DOWN) && Waiting(e, p, UP)
    ensures Promote in steps
  {
    if Promote !in steps {
      NotUpAgain(cfg, s, p, steps);
    }
  }

  lemma {:induction false} NotUpAgain(cfg: Config, s: Cluster, p: int, steps: seq<Step>)
    requires p in s.router.backends && s.router.backends[p].status != UP && Promote !in steps
    ensures var e := After(cfg, s, steps); p in e.router.backends && e.router.backends[p].status != UP
  {
    if steps == [] {
    } else {
      hide Next;
      NotUpAgain(cfg, s, p, steps[..|steps| - 1]);
      OnlyPromotion(cfg, After(cfg, s, steps[..|steps| - 1]), p, steps[|steps| - 1]);
    }
  }

  // ----- a write that is done and refused -----

  /** Every backend does what it should and gives no complete response. */
  function Mute(c: ClientRequest): Act {
    (port, db) => (Acts(c)(port, db).0, None)
  }

  /** From every start, without any fault: every write may reach all its replicas and
      be answered by none of them.  It is refused, and both homes hold its effect. */
  lemma DoneYetRefused(u: Setup, s: Cluster, abs: Table, c: ClientRequest, e: Cluster)
    requires GoodSetup(u) && Initial(u, s, abs) && !c.Get? && ProperKey(KeyOf(c)) && e == Next(u.cfg, s, Client(c, Mute(c)))
    ensures Legal(u, s, abs, [Client(c, Mute(c))]) && ReplyTo(u.cfg, s, c, Mute(c)) == Unavailable
    ensures forall p | Home(u, KeyOf(c), p) ::
      p in e.machines && EntryOf(e.machines[p].db, KeyOf(c)) == EntryOf(Effect(abs, c), KeyOf(c))
  {
    CalmAtFirst(u, s, abs);
    MuteAllowed(u, s, abs, c);
    OneStepLegal(u, s, abs, Client(c, Mute(c)));
    hide GoodSetup, Inv, Initial, Next, Possible, Assumed, ActOk, Legal, Calm;
    NextKeepsInv(u, s, abs, {}, Client(c, Mute(c)));
    WriteKeepsCalm(u, s, abs, c, Mute(c));
    CalmAgrees(u, e, Effect(abs, c), KeyOf(c));
    var targets := WritesAcknowledged(u, s, abs, [], s, c, Mute(c));
  }

  lemma MuteObeys(s: Cluster, c: ClientRequest)
    requires !c.Get?
    ensures ActOk(s, c, Mute(c))
  {
    forall p | Accepts(s.machines, p) ensures Obeys(s.machines[p].db, c, Mute(c), p) {
      assert Acts(c)(p, s.machines[p].db).0 == Handle(s.machines[p].db, ToServer(c)).0;
    }
  }

  lemma MuteAllowed(u: Setup, s: Cluster, abs: Table, c: ClientRequest)
    requires Calm(s) && s.health == Idle && !c.Get? && ProperKey(KeyOf(c))
    ensures ActOk(s, c, Mute(c)) && Possible(s, Client(c, Mute(c))) && Assumed(u, s, abs, Client(c, Mute(c)))
    ensures OnlyOf(s.health, {})
  {
    MuteObeys(s, c);
    hide ActOk;
    assert forall p :: !Missed(s, p);
  }

  lemma OneStepLegal(u: Setup, s: Cluster, abs: Table, x: Step)
    requires Possible(s, x) && Assumed(u, s, abs, x)
    ensures Legal(u, s, abs, [x]) && Legal(u, s, abs, []) && After(u.cfg, s, []) == s && Contents(abs, []) == abs
  {
    hide Possible, Assumed;
    LegalMore(u, s, abs, [], s, x);
    assert [] + [x] == [x];
  }

  lemma CalmAgrees(u: Setup, s: Cluster, abs: Table, k: string)
    requires Inv(u, s, abs, {}) && Calm(s)
    ensures forall p | Home(u, k, p) :: p in s.machines && EntryOf(s.machines[p].db, k) == EntryOf(abs, k)
  {
    assert forall p | Home(u, k, p) :: SyncOk(u, s, abs, p, k);
  }

  // ----- runs to the losses -----

  /** From every start and for every key: after a PUT and a crash of its first home, a
      DELETE of the key does not land there. */
  lemma LossReachable(u: Setup, s: Cluster, abs: Table, k: string, v: string) returns (steps: seq<Step>, e: Cluster,
      p: int)
    requires GoodSetup(u) && Initial(u, s, abs) && ProperKey(k) && v != ""
    ensures |u.order(k)| > 0 && p == u.order(k)[0] && steps == [Client(Put(k, v), Acts(Put(k, v))), Crash(p)]
    ensures Legal(u, s, abs, steps) && e == After(u.cfg, s, steps) && Contents(abs, steps) == abs[k := v]
    ensures Inv(u, e, abs[k := v], {}) && LosesAt(u, e, abs[k := v], Delete(k), p)
  {
    hide GoodSetup, Inv, Next, Possible, Assumed, Acts, Initial, Calm;
    CalmAtFirst(u, s, abs);
    WriteKeepsCalm(u, s, abs, Put(k, v), Acts(Put(k, v)));
    var s1 := PutOne(u, s, abs, k, v);
    p := FirstHome(u, s1, abs[k := v], k);
    e := CrashOne(u, s1, abs[k := v], p);
    steps := TwoSteps(u, s, abs, s1, e, Client(Put(k, v), Acts(Put(k, v))), Crash(p), abs[k := v]);
  }

  lemma TwoSteps(u: Setup, s: Cluster, abs: Table, s1: Cluster, e: Cluster, a: Step, b: Step, abs1: Table)
    returns (steps: seq<Step>)
    requires Possible(s, a) && Assumed(u, s, abs, a) && s1 == Next(u.cfg, s, a) && abs1 == AbsNext(abs, a)
    requires Possible(s1, b) && Assumed(u, s1, abs1, b) && e == Next(u.cfg, s1, b) && abs1 == AbsNext(abs1, b)
    ensures steps == [a, b] && Legal(u, s, abs, steps) && After(u.cfg, s, steps) == e && Contents(abs, steps) == abs1
  {
    hide Next, Possible, Assumed, AbsNext;
    steps := [a, b];
    assert [] + [a] == [a] && [a] + [b] == [a, b];
    LegalMore(u, s, abs, [], s, a);
    LegalMore(u, s, abs, [a], s1, b);
  }

  /** So a deleted key comes back: after that run and the DELETE come only health steps,
      crashes and restarts, and then a GET of the key is answered wrongly. */
  lemma DeletedComesBack(u: Setup, s: Cluster, abs: Table, k: string, v: string)
    returns (steps: seq<Step>, e: Cluster, more: seq<Step>)
    requires GoodSetup(u) && Initial(u, s, abs) && ProperKey(k) && v != ""
    ensures |u.order(k)| > 0 && steps == [Client(Put(k, v), Acts(Put(k, v))), Crash(u.order(k)[0])]
    ensures Legal(u, s, abs, steps)
    ensures e == Next(u.cfg, After(u.cfg, s, steps), Client(Delete(k), Acts(Delete(k))))
    ensures EndsWrong(u, e, abs[k := v] - {k}, more, k)
  {
    hide GoodSetup, Inv, Next, Acts, Initial, Legal, EndsWrong, LosesAt, After, WriteAllowed, ActOk;
    var c, abs1 := Delete(k), abs[k := v];
    var run, m, p := LossReachable(u, s, abs, k, v);
    steps := run;
    ActsOk(m, c);
    AllowedOr(u, m, abs1, c);
    more := LossSurfaces(u, m, abs1, c, Acts(c));
    e := Next(u.cfg, m, Client(c, Acts(c)));
  }

  /** A key of which its home in recovery holds another value is still to be copied. */
  lemma StillDue(u: Setup, s: Cluster, abs: Table, p: int, k: string)
    requires Inv(u, s, abs, {}) && Target(s.health) == Some(p) && s.health.Copying?
    requires Home(u, k, p) && Differs(s, abs, p, k)
    ensures s.health.left != []
  {
    assert SyncOk(u, s, abs, p, k);
  }

  lemma SyncElsewhere(u: Setup, s: Cluster, abs: Table, p: int, k: string, step: Step)
    requires Differs(s, abs, p, k) && Possible(s, step) && (step.CopyFetch? || (step.CopySync? && s.health.key != k))
    ensures Differs(Next(u.cfg, s, step), abs, p, k)
  {
    hide AllTargets;
    if step.CopySync? {
      SyncTouches(s.machines, s.health.target, s.health.key, s.health.value);
    }
  }

  /** The copy loop comes to the point where that key's value is in flight. */
  lemma CopyUntil(u: Setup, s: Cluster, abs: Table, p: int, k: string, start: seq<Step>, e0: Cluster)
    returns (steps: seq<Step>, e: Cluster)
    requires GoodSetup(u) && Midway(u, s, abs, p, {}, start, e0) && e0.health.Copying?
    requires Home(u, k, p) && Differs(e0, abs, p, k)
    ensures Midway(u, s, abs, p, {}, steps, e) && e.health.Syncing? && e.health.key == k
  {
    hide GoodSetup, Midway, Next, Home, Differs, Inv, Reaches;
    steps, e := start, e0;
    while e.health.Copying? || e.health.key != k
      invariant Midway(u, s, abs, p, {}, steps, e) && (e.health.Copying? || e.health.Syncing?)
      invariant Differs(e, abs, p, k)
      decreases StillToCopy(e.health)
    {
      var step := if e.health.Syncing? then CopySync({}) else CopyFetch({});
      MidwayInv(u, s, abs, p, {}, steps, e);
      if e.health.Copying? {
        StillDue(u, e, abs, p, k);
      }
      MoveOn(u, s, abs, p, {}, steps, e, step);
      ThreadMoves(u.cfg, e, step);
      SyncElsewhere(u, e, abs, p, k, step);
      steps, e := steps + [step], Next(u.cfg, e, step);
    }
  }

  lemma MidwayInv(u: Setup, s: Cluster, abs: Table, p: int, ex: set<(int, string)>, steps: seq<Step>, e: Cluster)
    requires Midway(u, s, abs, p, ex, steps, e)
    ensures Inv(u, e, abs, ex) && Target(e.health) == Some(p) && Reaches(u, s, abs, p, ex, steps, e)
  {
  }

  /** From every start and for every key, a legal run to a point where recovery has
      fetched the key's value and not yet synced it; a PUT of any other value is then
      overtaken. */
  lemma RaceReachable(u: Setup, s: Cluster, abs: Table, k: string, v1: string, v2: string)
    returns (steps: seq<Step>, e: Cluster)
    requires GoodSetup(u) && Initial(u, s, abs) && ProperKey(k) && v1 != "" && v2 != "" && v1 != v2
    ensures Legal(u, s, abs, steps) && e == After(u.cfg, s, steps) && Contents(abs, steps) == abs[k := v1][k := v2]
    ensures Inv(u, e, abs[k := v1][k := v2], {}) && InFlight(u, e.health, k) && e.health.value == v2
    ensures forall v :: v != v2 ==> Overtaken(u, e, abs[k := v1][k := v2], Put(k, v))
  {
    hide GoodSetup, Inv, Next, Possible, Assumed, Acts, Waiting, Home, Initial, Legal, Midway, Reaches, After, Contents;
    var first, m, p := MissedRun(u, s, abs, k, v1, v2);
    var abs2 := abs[k := v1][k := v2];
    var later, x := MeetTarget(u, m, abs2, p, {});
    later, x := ListOn(u, m, abs2, p, {}, later, x);
    later, x := FetchAll(u, m, abs2, p, {}, later, x);
    later, x := StartOn(u, m, abs2, p, {}, later, x);
    later, x := CopyUntil(u, m, abs2, p, k, later, x);
    MidwayInv(u, m, abs2, p, {}, later, x);
    ReachesLegal(u, m, abs2, p, {}, later, x);
    FlightIs(u, x, abs2, p, k, v2);
    LegalAppend(u, s, abs, first, m, abs2, later);
    steps, e := first + later, x;
  }

  lemma FlightIs(u: Setup, s: Cluster, abs: Table, p: int, k: string, v: string)
    requires Inv(u, s, abs, {}) && Target(s.health) == Some(p) && Home(u, k, p) && s.health.Syncing? && s.health.key == k
    requires k in abs && abs[k] == v
    ensures InFlight(u, s.health, k) && s.health.value == v
    ensures forall w :: w != v ==> Overtaken(u, s, abs, Put(k, w))
  {
  }

  /** And a newer value is undone: after a run to that point and the PUT come only
      health steps, crashes and restarts, and then a GET of the key is answered wrongly. */
  lemma PutUndone(u: Setup, s: Cluster, abs: Table, k: string, v1: string, v2: string, v3: string)
    returns (steps: seq<Step>, m: Cluster, e: Cluster, more: seq<Step>)
    requires GoodSetup(u) && Initial(u, s, abs) && ProperKey(k) && v1 != "" && v2 != "" && v1 != v2 && v3 != v2
    ensures Legal(u, s, abs, steps) && m == After(u.cfg, s, steps) && Contents(abs, steps) == abs[k := v1][k := v2]
    ensures InFlight(u, m.health, k) && m.health.value == v2
    ensures e == Next(u.cfg, m, Client(Put(k, v3), Acts(Put(k, v3))))
    ensures EndsWrong(u, e, abs[k := v1][k := v2][k := v3], more, k)
  {
    hide GoodSetup, Inv, Next, Acts, Initial, Legal, EndsWrong, Overtaken, After, Contents, WriteAllowed, ActOk;
    var c, abs2 := Put(k, v3), abs[k := v1][k := v2];
    steps, m := RaceReachable(u, s, abs, k, v1, v2);
    ActsOk(m, c);
    AllowedOr(u, m, abs2, c);
    more := LossSurfaces(u, m, abs2, c, Acts(c));
    e := Next(u.cfg, m, Client(c, Acts(c)));
  }
}
