/** What the health checker (load_balancer/src/HealthChecker.cpp) and the router
    keep under every interleaving with sessions, crashes and restarts, without any
    assumption on faults. */
module HealthPasses {
  import opened Text
  import opened HashRings
  import opened Routers
  import opened Backends
  import opened Clusters
  import opened ClusterSafety

  /** Each step of the run is one that the threads can take when it comes. */
  ghost predicate CanRun(cfg: Config, s: Cluster, steps: seq<Step>) {
    steps != [] ==>
      && CanRun(cfg, s, steps[..|steps| - 1])
      && Possible(After(cfg, s, steps[..|steps| - 1]), steps[|steps| - 1])
  }

  /** Only the target of a running recovery is RECOVERING, and no snapshot under
      way recorded a backend as RECOVERING. */
  ghost predicate Disciplined(s: Cluster) {
    OnlyTarget(s) && forall b :: b in Todo(s.health) ==> b.status != RECOVERING
  }

  lemma OnlyDownKeeps(s: Cluster, r: RouterState)
    requires Disciplined(s) && OnlyDown(s.router.backends, r.backends)
    ensures Disciplined(s.(router := r))
  {
  }

  lemma ReactKeeps(cfg: Config, s: Cluster, todo: seq<Backend>, alive: bool)
    requires Disciplined(s) && s.health == Pinged(todo, alive) && todo != []
    ensures Disciplined(Next(cfg, s, React))
  {
    assert todo == [todo[0]] + todo[1..];
  }

  lemma StepKeeps(cfg: Config, s: Cluster, step: Step)
    requires Disciplined(s) && Possible(s, step)
    ensures Disciplined(Next(cfg, s, step))
  {
    hide Disciplined, Next;
    match step
    case Client(c, act) => ForwardKeeps(cfg, s, c, act);
    case React => ReactKeeps(cfg, s, s.health.todo, s.health.alive);
    case CopyFetch(mute) => FetchKeeps(cfg, s, mute);
    case _ => OtherKeeps(cfg, s, step);
  }

  lemma ForwardKeeps(cfg: Config, s: Cluster, c: ClientRequest, act: Act)
    requires Disciplined(s)
    ensures Disciplined(Next(cfg, s, Client(c, act)))
  {
    hide ForwardTo;
    ForwardOnlyDown(cfg, s.machines, s.router, c.Get?, act, TargetsFor(cfg, s.router, c));
    OnlyDownKeeps(s, Next(cfg, s, Client(c, act)).router);
  }

  lemma OtherKeeps(cfg: Config, s: Cluster, step: Step)
    requires Disciplined(s) && Possible(s, step) && !step.Client? && !step.React? && !step.CopyFetch?
    ensures Disciplined(Next(cfg, s, step))
  {
    hide Reacted, Fetched, AllTargets;
  }

  lemma FetchKeeps(cfg: Config, s: Cluster, mute: set<int>)
    requires Disciplined(s) && Possible(s, CopyFetch(mute))
    ensures Disciplined(Next(cfg, s, CopyFetch(mute)))
  {
    hide AllTargets;
  }

  /** The router as constructed, no pass running. */
  ghost predicate Fresh(cfg: Config, nodes: seq<Backend>, s: Cluster) {
    && WellConfigured(cfg, nodes) && (forall b :: b in nodes ==> b.status == UP)
    && s.router == Build(cfg, nodes) && s.health == Idle
  }

  lemma FreshDisciplined(cfg: Config, nodes: seq<Backend>, s: Cluster)
    requires Fresh(cfg, nodes, s)
    ensures Disciplined(s)
  {
    BuildBackends(cfg, nodes);
    forall p | p in s.router.backends ensures s.router.backends[p].status != RECOVERING {
      var b :| b in nodes && b.port == p;
    }
  }

  lemma {:induction false} RunDisciplined(cfg: Config, nodes: seq<Backend>, s: Cluster, steps: seq<Step>)
    requires Fresh(cfg, nodes, s) && CanRun(cfg, s, steps)
    ensures Disciplined(After(cfg, s, steps))
  {
    if steps == [] {
      FreshDisciplined(cfg, nodes, s);
    } else {
      RunDisciplined(cfg, nodes, s, steps[..|steps| - 1]);
      StepKeeps(cfg, After(cfg, s, steps[..|steps| - 1]), steps[|steps| - 1]);
    }
  }

  /** Under every interleaving at most one backend is RECOVERING, and none is
      between two recoveries, in particular at the head of a pass. */
  lemma AtMostOneRecovering(cfg: Config, nodes: seq<Backend>, s: Cluster, steps: seq<Step>, e: Cluster)
    requires Fresh(cfg, nodes, s) && CanRun(cfg, s, steps) && e == After(cfg, s, steps)
    ensures forall p, q | p in e.router.backends && q in e.router.backends ::
      e.router.backends[p].status == RECOVERING && e.router.backends[q].status == RECOVERING ==> p == q
    ensures e.health.Idle? || e.health.Pass? || e.health.Pinged? ==>
      forall p :: p in e.router.backends ==> e.router.backends[p].status != RECOVERING
  {
    RunDisciplined(cfg, nodes, s, steps);
  }

  /** The test for RECOVERING after a failed ping never decides anything: a failed ping
      takes a backend out of service exactly when the snapshot has it UP. */
  lemma PingOutcome(cfg: Config, nodes: seq<Backend>, s: Cluster, steps: seq<Step>, e: Cluster, todo: seq<Backend>,
      alive: bool)
    requires Fresh(cfg, nodes, s) && CanRun(cfg, s, steps) && e == After(cfg, s, steps)
    requires e.health == Pinged(todo, alive) && todo != []
    ensures Next(cfg, e, React).router ==
        if todo[0].status == UP && !alive then MarkDown(cfg, e.router, todo[0].port)
        else if todo[0].status == DOWN && alive then MarkRecovering(cfg, e.router, todo[0].port)
        else e.router
  {
    hide After, CanRun, Fresh, MarkDown, MarkRecovering;
    RunDisciplined(cfg, nodes, s, steps);
    assert todo[0] in todo;
  }

  lemma {:induction false} RouterAlong(u: Setup, s: Cluster, steps: seq<Step>)
    requires RouterOk(u, s.router)
    ensures RouterOk(u, After(u.cfg, s, steps).router)
  {
    if steps == [] {
    } else {
      RouterAlong(u, s, steps[..|steps| - 1]);
      RouterStep(u, After(u.cfg, s, steps[..|steps| - 1]), steps[|steps| - 1]);
    }
  }

  /** Under every interleaving the ring is the one built afresh from the backends in
      service, writes go to exactly the ring's replicas of a key, and reads to
      those of them that are UP, in the same order. */
  lemma TargetsAlways(cfg: Config, nodes: seq<Backend>, s: Cluster, steps: seq<Step>, e: Cluster, key: string, n: nat)
    requires Fresh(cfg, nodes, s) && e == After(cfg, s, steps)
    ensures forall live :: Listed(e.router, live, e.router.backends.Keys, {UP, RECOVERING}) ==>
      e.router.ring == Build(cfg, live).ring
    ensures e.router.ring != map[] ==>
      && WriteTargets(cfg, e.router, key, n) == Some(Replicas(cfg, e.router.ring, key, n))
      && ReadTargets(cfg, e.router, key, n) == Some(OnlyUp(Replicas(cfg, e.router.ring, key, n)))
  {
    var u := Setup(cfg, nodes, k => []);
    BuildConsistent(cfg, nodes);
    BuildAddresses(cfg, nodes);
    RouterAlong(u, s, steps);
    forall live | Listed(e.router, live, e.router.backends.Keys, {UP, RECOVERING})
      ensures e.router.ring == Build(cfg, live).ring
    {
      ConsistentIsFresh(cfg, e.router, live);
    }
    if e.router.ring != map[] {
      TargetsFollowRing(cfg, e.router, key, n);
    }
  }

  /** What the environment does: a suspicion takes a known backend out of service and
      nothing else, a crash and a restart change whether a process lives and keep its
      table. */
  lemma Environment(cfg: Config, s: Cluster, port: int)
    requires Consistent(cfg, s.router) && port in s.router.backends && port in s.machines
    ensures var e := Next(cfg, s, Suspect(port));
      OnlyTouches(cfg, s.router, e.router, port, Some(DOWN)) && e.machines == s.machines && e.health == s.health
    ensures var e := Next(cfg, s, Crash(port));
      e == s.(machines := s.machines[port := Machine(s.machines[port].db, false)])
    ensures var e := Next(cfg, s, Restart(port));
      e == s.(machines := s.machines[port := Machine(s.machines[port].db, true)])
  {
    hide OnlyTouches, Consistent;
    OneCall(cfg, s.router, port);
  }

  lemma EmptyRing(cfg: Config, r: RouterState)
    requires Consistent(cfg, r) && cfg.vnodes > 0
    ensures r.ring == map[] <==> forall p :: p in r.backends ==> r.backends[p].status == DOWN
  {
    if r.ring == map[] {
      forall p | p in r.backends ensures r.backends[p].status == DOWN {
        assert Placed(cfg, r, p);
        assert VnodeHash(cfg, r.backends[p], 0) in Points(cfg, r.backends[p]);
      }
    } else {
      var q :| q in r.ring;
      assert EntryOk(cfg, r, q);
    }
  }

  /** Under every interleaving, a request terminates the load balancer instead of
      being answered exactly when no backend is in service. */
  lemma TerminatedExactly(cfg: Config, nodes: seq<Backend>, s: Cluster, steps: seq<Step>, e: Cluster,
      c: ClientRequest, act: Act)
    requires Fresh(cfg, nodes, s) && cfg.vnodes > 0 && e == After(cfg, s, steps)
    ensures ReplyTo(cfg, e, c, act).Terminated? <==>
      forall p :: p in e.router.backends ==> e.router.backends[p].status == DOWN
  {
    var u := Setup(cfg, nodes, k => []);
    BuildConsistent(cfg, nodes);
    BuildAddresses(cfg, nodes);
    RouterAlong(u, s, steps);
    EmptyRing(cfg, e.router);
    TerminatedOnEmpty(cfg, e, c, act);
  }

  lemma TerminatedOnEmpty(cfg: Config, s: Cluster, c: ClientRequest, act: Act)
    ensures ReplyTo(cfg, s, c, act).Terminated? <==> s.router.ring == map[]
  {
    hide ReadLoop, WriteLoop, Select, Replicas, Primary;
  }
}
