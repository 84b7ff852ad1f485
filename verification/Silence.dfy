/** What recovery needs of the backends it asks: one that accepts connections and does
    not answer makes it promote a backend that is out of step. */
module Silence {
  import opened Text
  import opened HashRings
  import opened Routers
  import opened KvServers
  import opened Backends
  import opened Recoveries
  import opened Clusters
  import opened ClusterSafety
  import opened Guarantees
  import opened LostWrites
  import opened Returning
  import opened Feasibility
  import opened HealthCheckers

  /** Steps of the health thread with no fault but listings that nobody answers. */
  predicate OnlySilence(steps: seq<Step>) {
    forall i :: 0 <= i < |steps| ==> HealthStep(steps[i]) || steps[i].FetchFrom?
  }

  lemma OneMore(cfg: Config, s: Cluster, steps: seq<Step>, e: Cluster, step: Step)
    requires Ran(cfg, s, steps, e) && OnlySilence(steps)
    requires Possible(e, step) && (HealthStep(step) || step.FetchFrom?)
    ensures Ran(cfg, s, steps + [step], Next(cfg, e, step)) && OnlySilence(steps + [step])
  {
    hide Ran, Next, Possible;
    RanMore(cfg, s, steps, e, step);
  }

  lemma NothingFetched(cfg: Config, s: Cluster, mute: set<int>)
    requires s.health.Fetching? && s.health.peers != [] && s.machines.Keys <= mute
    ensures Possible(s, FetchFrom([], mute))
    ensures var h := s.health;
      Next(cfg, s, FetchFrom([], mute)) == s.(health := Fetching(h.todo, h.target, h.peers[1..], h.keys))
  {
    var h := s.health;
    assert !Accepts(Heard(s.machines, mute), h.peers[0].port);
    assert h.keys + {} == h.keys;
  }

  /** With every peer silent the thread goes straight to the promotion. */
  lemma PromotedUnread(cfg: Config, s: Cluster) returns (steps: seq<Step>, e: Cluster)
    requires s.health.Fetching? && s.health.keys == {}
    ensures Ran(cfg, s, steps, e) && OnlySilence(steps)
    ensures e == s.(router := MarkUp(cfg, s.router, s.health.target), health := Pass(s.health.todo))
  {
    var mute, h := s.machines.Keys, s.health;
    steps, e := [], s;
    RanNone(cfg, s);
    hide Ran, MarkUp;
    while e.health.peers != []
      invariant Ran(cfg, s, steps, e) && OnlySilence(steps)
      invariant e.health.Fetching? && e == s.(health := Fetching(h.todo, h.target, e.health.peers, {}))
      decreases |e.health.peers|
    {
      NothingFetched(cfg, e, mute);
      OneMore(cfg, s, steps, e, FetchFrom([], mute));
      steps, e := steps + [FetchFrom([], mute)], Next(cfg, e, FetchFrom([], mute));
    }
    OneMore(cfg, s, steps, e, StartCopy);
    steps, e := steps + [StartCopy], Next(cfg, e, StartCopy);
    assert InOrder({}) == [];
    OneMore(cfg, s, steps, e, Promote);
    steps, e := steps + [Promote], Next(cfg, e, Promote);
  }

  /** From every start and for every key: a legal run to the point where recovery has
      listed its peers, and from there, when none of them answers although all accept
      connections, to a state in which a GET of the key is answered wrongly. */
  lemma SilentPeers(u: Setup, s: Cluster, abs: Table, k: string, v1: string, v2: string)
    returns (steps: seq<Step>, m: Cluster, later: seq<Step>, e: Cluster)
    requires GoodSetup(u) && Initial(u, s, abs) && ProperKey(k) && v1 != "" && v2 != "" && v1 != v2
    ensures Legal(u, s, abs, steps) && m == After(u.cfg, s, steps) && Contents(abs, steps) == abs[k := v1][k := v2]
    ensures m.health.Fetching? && (forall p :: p in m.machines ==> m.machines[p].alive)
    ensures Ran(u.cfg, m, later, e) && OnlySilence(later)
    ensures AnsweredWrongly(u, e, abs[k := v1][k := v2], k, Acts(Get(k)))
  {
    hide GoodSetup, Inv, Next, Initial, Legal, Midway, Reaches, After, Contents, Waiting, Ran, AnsweredWrongly;
    var first, x, p := MissedRun(u, s, abs, k, v1, v2);
    var abs2 := abs[k := v1][k := v2];
    var inside, y := MeetTarget(u, x, abs2, p, {});
    inside, y := ListOn(u, x, abs2, p, {}, inside, y);
    MidwayInv(u, x, abs2, p, {}, inside, y);
    ReachesLegal(u, x, abs2, p, {}, inside, y);
    LegalAppend(u, s, abs, first, x, abs2, inside);
    steps, m := first + inside, y;
    later, e := PromotedUnread(u.cfg, m);
    MidwayAlive(u, x, abs2, p, {}, inside, m);
    UnreadIsWrong(u, x, m, abs2, p, k, inside, e);
  }

  lemma MidwayAlive(u: Setup, s: Cluster, abs: Table, p: int, ex: set<(int, string)>, steps: seq<Step>, e: Cluster)
    requires Midway(u, s, abs, p, ex, steps, e)
    ensures forall q :: q in e.machines ==> e.machines[q].alive
    ensures Accepts(e.machines, p) && p in e.router.backends
  {
  }

  lemma UnreadIsWrong(u: Setup, s: Cluster, m: Cluster, abs: Table, p: int, k: string, steps: seq<Step>, e: Cluster)
    requires GoodSetup(u) && Midway(u, s, abs, p, {}, steps, m) && m.health.Fetching? && u.order(k)[0] == p
    requires |u.order(k)| >= 2 && Differs(m, abs, p, k)
    requires e == m.(router := MarkUp(u.cfg, m.router, m.health.target), health := Pass(m.health.todo))
    ensures AnsweredWrongly(u, e, abs, k, Acts(Get(k)))
  {
    MidwayInv(u, s, abs, p, {}, steps, m);
    MidwayAlive(u, s, abs, p, {}, steps, m);
    OnlineOk(u, m.router, p, UP);
    hide GoodSetup, RouterOk, Midway, Core;
    FirstHomeServes(u, e, p, k, Acts(Get(k)));
    ServedWrong(u, e, abs, p, k, Acts(Get(k)));
  }
}
