/** A backend that came back can always complete its recovery, so a write that is
    not allowed does surface: the assumption on writes is exact. */
module Returning {
  import opened Text
  import opened HashRings
  import opened Routers
  import opened KvServers
  import opened Backends
  import opened Clusters
  import opened ClusterSafety
  import opened Guarantees
  import opened LostWrites

  // ----- the choices a step needs exist -----

  lemma {:induction false} SomeList(r: RouterState, allowed: set<Status>) returns (list: seq<Backend>)
    requires KeyedByPort(r)
    ensures Listed(r, list, r.backends.Keys, allowed)
  {
    list := [];
    var todo, done: set<int> := r.backends.Keys, {};
    while todo != {}
      invariant todo !! done && todo + done == r.backends.Keys
      invariant Listed(r, list, done, allowed)
      decreases |todo|
    {
      SomePort(todo);
      var port :| port in todo;
      ListedStep(r, list, done, allowed, port);
      todo, done := todo - {port}, done + {port};
      if r.backends[port].status in allowed {
        list := list + [r.backends[port]];
      }
    }
  }

  // ----- runs of health steps -----

  /** A step of the health thread, whose pings are right. */
  predicate HealthStep(step: Step) {
    !step.Client? && !step.Suspect? && !step.Crash? && !step.Restart? && (step.Ping? ==> step.alive)
    && (step.FetchFrom? || step.CopyFetch? || step.CopySync? ==> step.mute == {})
  }

  lemma HealthAssumed(u: Setup, s: Cluster, abs: Table, step: Step)
    requires HealthStep(step)
    ensures Assumed(u, s, abs, step) && AbsNext(abs, step) == abs
  {
  }

  /** `e` is reached from `s` by health steps only, before `p` is UP again. */
  ghost predicate Reaches(u: Setup, s: Cluster, abs: Table, p: int, ex: set<(int, string)>, steps: seq<Step>,
      e: Cluster) {
    && Legal(u, s, abs, steps) && e == After(u.cfg, s, steps) && NotBackBefore(u, s, p, steps)
    && (forall i :: 0 <= i < |steps| ==> HealthStep(steps[i]))
    && Contents(abs, steps) == abs
    && Inv(u, e, abs, ex)
  }

  lemma ReachesLegal(u: Setup, s: Cluster, abs: Table, p: int, ex: set<(int, string)>, steps: seq<Step>, e: Cluster)
    requires Reaches(u, s, abs, p, ex, steps, e)
    ensures Legal(u, s, abs, steps) && e == After(u.cfg, s, steps) && Contents(abs, steps) == abs && Inv(u, e, abs, ex)
    ensures forall i :: 0 <= i < |steps| ==> HealthStep(steps[i])
  {
    hide Legal, After, Contents, Inv, NotBackBefore;
  }

  /** `p` waits to be recovered and everything else is healthy. */
  ghost predicate Waiting(s: Cluster, p: int, status: Status) {
    && Accepts(s.machines, p) && p in s.router.backends && s.router.backends[p].status == status
    && (forall x :: x in s.machines && x != p ==> Sound(s, x))
  }

  lemma ReachesSnoc(u: Setup, s: Cluster, abs: Table, p: int, ex: set<(int, string)>, steps: seq<Step>, e: Cluster,
      step: Step, e': Cluster)
    requires Reaches(u, s, abs, p, ex, steps, e) && e' == Next(u.cfg, e, step) && Inv(u, e', abs, ex)
    requires HealthStep(step) && Possible(e, step)
    requires p in e.router.backends && e.router.backends[p].status != UP
    ensures Reaches(u, s, abs, p, ex, steps + [step], e')
  {
    hide Inv, Next, Possible, Assumed;
    var all := steps + [step];
    assert all[..|all| - 1] == steps && all[|all| - 1] == step;
    HealthAssumed(u, e, abs, step);
  }

  lemma OneStep(u: Setup, s: Cluster, abs: Table, p: int, ex: set<(int, string)>, steps: seq<Step>, e: Cluster,
      step: Step)
    requires GoodSetup(u) && Reaches(u, s, abs, p, ex, steps, e) && OnlyOf(e.health, ex)
    requires HealthStep(step) && Possible(e, step)
    requires p in e.router.backends && e.router.backends[p].status != UP
    ensures Reaches(u, s, abs, p, ex, steps + [step], Next(u.cfg, e, step))
  {
    hide Inv, Next, Possible, Assumed;
    HealthAssumed(u, e, abs, step);
    NextKeepsInv(u, e, abs, ex, step);
    ReachesSnoc(u, s, abs, p, ex, steps, e, step, Next(u.cfg, e, step));
  }

  /** Inside the recovery of `p`, with everything else healthy. */
  ghost predicate Midway(u: Setup, s: Cluster, abs: Table, p: int, ex: set<(int, string)>, steps: seq<Step>,
      e: Cluster) {
    Reaches(u, s, abs, p, ex, steps, e) && Waiting(e, p, RECOVERING) && Target(e.health) == Some(p)
    && (forall x :: x in ex ==> x.0 == p)
  }

  predicate Inside(step: Step) {
    step.ListPeers? || step.FetchFrom? || step.StartCopy? || step.CopyFetch? || step.CopySync?
  }

  /** The steps inside recovery keep to it. */
  lemma MoveOn(u: Setup, s: Cluster, abs: Table, p: int, ex: set<(int, string)>, steps: seq<Step>, e: Cluster,
      step: Step)
    requires GoodSetup(u) && Midway(u, s, abs, p, ex, steps, e)
    requires Inside(step) && HealthStep(step) && Possible(e, step)
    ensures Midway(u, s, abs, p, ex, steps + [step], Next(u.cfg, e, step))
    ensures !Next(u.cfg, e, step).health.Gone?
  {
    hide GoodSetup, Next, Possible, Inv, Waiting, Legal, After, Contents;
    TargetAlone(e, p, ex);
    WaitingIs(e, p, RECOVERING);
    OneStep(u, s, abs, p, ex, steps, e, step);
    InvThread(u, Next(u.cfg, e, step), abs, ex);
    StaysWaiting(u.cfg, e, p, step);
  }

  lemma WaitingIs(s: Cluster, p: int, status: Status)
    requires Waiting(s, p, status)
    ensures p in s.router.backends && s.router.backends[p].status == status
  {
  }

  lemma InvThread(u: Setup, s: Cluster, abs: Table, ex: set<(int, string)>)
    requires Inv(u, s, abs, ex)
    ensures !s.health.Gone?
  {
  }

  lemma TargetAlone(s: Cluster, p: int, ex: set<(int, string)>)
    requires Target(s.health) == Some(p) && forall x :: x in ex ==> x.0 == p
    ensures OnlyOf(s.health, ex)
  {
  }

  lemma StaysWaiting(cfg: Config, s: Cluster, p: int, step: Step)
    requires Waiting(s, p, RECOVERING) && Target(s.health) == Some(p) && !Next(cfg, s, step).health.Gone?
    requires Inside(step)
    ensures Waiting(Next(cfg, s, step), p, RECOVERING) && Target(Next(cfg, s, step).health) == Some(p)
  {
    hide AllTargets;
  }

  /** Where the thread is after each of its steps inside recovery. */
  lemma ThreadMoves(cfg: Config, s: Cluster, step: Step)
    requires Possible(s, step) && !Next(cfg, s, step).health.Gone?
    ensures var h := Next(cfg, s, step).health;
      match step
      case ListPeers(_) => h.Fetching? && h.keys == {}
      case FetchFrom(_, _) => h.Fetching? && |h.peers| < |s.health.peers|
      case StartCopy => h.Copying?
      case CopyFetch(_) => (h.Copying? || h.Syncing?) && StillToCopy(h) < StillToCopy(s.health)
      case CopySync(_) => h.Copying? && StillToCopy(h) < StillToCopy(s.health)
      case Promote => h.Pass?
      case _ => true
    ensures !step.CopySync? ==> Next(cfg, s, step).machines == s.machines || !HealthStep(step)
  {
    hide AllTargets;
  }

  function StillToCopy(h: Health): nat {
    if h.Copying? then 2 * |h.left| else if h.Syncing? then 2 * |h.left| + 1 else 0
  }

  lemma FetchAll(u: Setup, s: Cluster, abs: Table, p: int, ex: set<(int, string)>, start: seq<Step>, e0: Cluster)
    returns (steps: seq<Step>, e: Cluster)
    requires GoodSetup(u) && Midway(u, s, abs, p, ex, start, e0) && e0.health.Fetching?
    ensures Midway(u, s, abs, p, ex, steps, e) && e.health.Fetching? && e.health.peers == []
    ensures e.machines == e0.machines
  {
    hide GoodSetup, Midway, Next;
    steps, e := start, e0;
    while e.health.peers != []
      invariant Midway(u, s, abs, p, ex, steps, e) && e.health.Fetching? && e.machines == e0.machines
      decreases |e.health.peers|
    {
      var rows := [];
      if Accepts(e.machines, e.health.peers[0].port) {
        rows := InOrder(e.machines[e.health.peers[0].port].db.Keys);
        InOrderIs(e.machines[e.health.peers[0].port].db.Keys);
        InOrderDistinct(e.machines[e.health.peers[0].port].db.Keys);
        assert RowsOf(e.machines[e.health.peers[0].port].db, rows);
      }
      MoveOn(u, s, abs, p, ex, steps, e, FetchFrom(rows, {}));
      ThreadMoves(u.cfg, e, FetchFrom(rows, {}));
      steps, e := steps + [FetchFrom(rows, {})], Next(u.cfg, e, FetchFrom(rows, {}));
    }
  }

  lemma CopyAll(u: Setup, s: Cluster, abs: Table, p: int, ex: set<(int, string)>, start: seq<Step>, e0: Cluster)
    returns (steps: seq<Step>, e: Cluster)
    requires GoodSetup(u) && Midway(u, s, abs, p, ex, start, e0) && e0.health.Copying?
    ensures Midway(u, s, abs, p, ex, steps, e) && e.health.Copying? && e.health.left == []
  {
    hide GoodSetup, Midway, Next;
    steps, e := start, e0;
    while e.health.Syncing? || e.health.left != []
      invariant Midway(u, s, abs, p, ex, steps, e) && (e.health.Copying? || e.health.Syncing?)
      decreases StillToCopy(e.health)
    {
      var step := if e.health.Syncing? then CopySync({}) else CopyFetch({});
      MoveOn(u, s, abs, p, ex, steps, e, step);
      ThreadMoves(u.cfg, e, step);
      steps, e := steps + [step], Next(u.cfg, e, step);
    }
  }

  lemma InvKeyed(u: Setup, s: Cluster, abs: Table, ex: set<(int, string)>)
    requires Inv(u, s, abs, ex)
    ensures KeyedByPort(s.router)
  {
  }

  lemma ListOn(u: Setup, s: Cluster, abs: Table, p: int, ex: set<(int, string)>, start: seq<Step>, e0: Cluster)
    returns (steps: seq<Step>, e: Cluster)
    requires GoodSetup(u) && Midway(u, s, abs, p, ex, start, e0) && e0.health.Begun?
    ensures Midway(u, s, abs, p, ex, steps, e) && e.health.Fetching? && e.health.keys == {}
    ensures e.machines == e0.machines
  {
    hide GoodSetup, Inv, Next, Waiting, Legal;
    InvKeyed(u, e0, abs, ex);
    var online := SomeList(e0.router, {UP});
    MoveOn(u, s, abs, p, ex, start, e0, ListPeers(online));
    ThreadMoves(u.cfg, e0, ListPeers(online));
    steps, e := start + [ListPeers(online)], Next(u.cfg, e0, ListPeers(online));
  }

  lemma StartOn(u: Setup, s: Cluster, abs: Table, p: int, ex: set<(int, string)>, start: seq<Step>, e0: Cluster)
    returns (steps: seq<Step>, e: Cluster)
    requires GoodSetup(u) && Midway(u, s, abs, p, ex, start, e0) && e0.health.Fetching? && e0.health.peers == []
    ensures Midway(u, s, abs, p, ex, steps, e) && e.health.Copying?
    ensures e.machines == e0.machines
  {
    hide GoodSetup, Midway, Next;
    MoveOn(u, s, abs, p, ex, start, e0, StartCopy);
    ThreadMoves(u.cfg, e0, StartCopy);
    steps, e := start + [StartCopy], Next(u.cfg, e0, StartCopy);
  }

  lemma PromoteWaits(cfg: Config, s: Cluster, p: int)
    requires Waiting(s, p, RECOVERING) && Target(s.health) == Some(p) && s.health.Copying?
    ensures Waiting(Next(cfg, s, Promote), p, UP) && Next(cfg, s, Promote).health.Pass?
  {
  }

  lemma PromoteOn(u: Setup, s: Cluster, abs: Table, p: int, ex: set<(int, string)>, steps: seq<Step>, e: Cluster)
    requires GoodSetup(u) && Midway(u, s, abs, p, ex, steps, e) && e.health.Copying? && e.health.left == []
    ensures Reaches(u, s, abs, p, ex, steps + [Promote], Next(u.cfg, e, Promote))
    ensures Waiting(Next(u.cfg, e, Promote), p, UP) && Next(u.cfg, e, Promote).health.Pass?
  {
    hide GoodSetup, Next, Reaches;
    TargetAlone(e, p, ex);
    OneStep(u, s, abs, p, ex, steps, e, Promote);
    PromoteWaits(u.cfg, e, p);
  }

  /** From the mark to the promotion. */
  lemma FinishRecovery(u: Setup, s: Cluster, abs: Table, p: int, ex: set<(int, string)>, start: seq<Step>, e0: Cluster)
    returns (steps: seq<Step>, e: Cluster)
    requires GoodSetup(u) && Midway(u, s, abs, p, ex, start, e0) && e0.health.Begun?
    ensures Reaches(u, s, abs, p, ex, steps, e) && Waiting(e, p, UP) && e.health.Pass?
  {
    hide GoodSetup, Midway, Next, Reaches, Waiting;
    steps, e := ListOn(u, s, abs, p, ex, start, e0);
    steps, e := FetchAll(u, s, abs, p, ex, steps, e);
    steps, e := StartOn(u, s, abs, p, ex, steps, e);
    steps, e := CopyAll(u, s, abs, p, ex, steps, e);
    PromoteOn(u, s, abs, p, ex, steps, e);
    steps, e := steps + [Promote], Next(u.cfg, e, Promote);
  }

  // ----- passes -----

  /** `p` is DOWN but alive again, everything else healthy, no recovery running. */
  ghost predicate Ready(u: Setup, s: Cluster, abs: Table, p: int, ex: set<(int, string)>, steps: seq<Step>,
      e: Cluster) {
    Reaches(u, s, abs, p, ex, steps, e) && Waiting(e, p, DOWN) && Target(e.health) == None
    && (forall x :: x in ex ==> x.0 == p)
  }

  /** The reaction to a ping: recovery of `p` begins, or the pass goes on. */
  lemma ReactOn(u: Setup, s: Cluster, abs: Table, p: int, ex: set<(int, string)>, steps: seq<Step>, e: Cluster)
    requires GoodSetup(u) && Ready(u, s, abs, p, ex, steps, e) && e.health.Pinged?
    ensures var e' := Next(u.cfg, e, React);
      if e.health.alive && e.health.todo[0].status == DOWN
      then Midway(u, s, abs, p, ex, steps + [React], e') && e'.health.Begun?
      else Ready(u, s, abs, p, ex, steps + [React], e') && e'.health == Pass(e.health.todo[1..])
    ensures Next(u.cfg, e, React).machines == e.machines
  {
    hide GoodSetup, Reaches, Next, Waiting;
    ReachesLegal(u, s, abs, p, ex, steps, e);
    PingedOk(u, e, abs, ex);
    WaitingIs(e, p, DOWN);
    OneStep(u, s, abs, p, ex, steps, e, React);
    Reaction(u.cfg, e, p);
  }

  lemma PingedOk(u: Setup, s: Cluster, abs: Table, ex: set<(int, string)>)
    requires Inv(u, s, abs, ex) && s.health.Pinged?
    ensures s.health.todo != [] && TodoOk(s, s.health.todo) && s.router.backends.Keys == s.machines.Keys
  {
  }

  lemma Reaction(cfg: Config, s: Cluster, p: int)
    requires Waiting(s, p, DOWN) && s.health.Pinged? && s.health.todo != [] && TodoOk(s, s.health.todo)
    requires s.router.backends.Keys == s.machines.Keys
    ensures var e := Next(cfg, s, React);
      if s.health.alive && s.health.todo[0].status == DOWN
      then e.health.Begun? && Target(e.health) == Some(p) && Waiting(e, p, RECOVERING)
      else Waiting(e, p, DOWN) && e.health == Pass(s.health.todo[1..])
    ensures Next(cfg, s, React).machines == s.machines
  {
    var b := s.health.todo[0];
    if b.port != p {
      assert Sound(s, b.port);
    }
  }

  /** A ping and the reaction to it. */
  lemma PingOn(u: Setup, s: Cluster, abs: Table, p: int, ex: set<(int, string)>, start: seq<Step>, e0: Cluster)
    returns (steps: seq<Step>, e: Cluster)
    requires GoodSetup(u) && Ready(u, s, abs, p, ex, start, e0) && e0.health.Pass? && e0.health.todo != []
    ensures if e0.health.todo[0].status == DOWN then Midway(u, s, abs, p, ex, steps, e) && e.health.Begun?
      else Ready(u, s, abs, p, ex, steps, e) && e.health == Pass(e0.health.todo[1..])
    ensures e.machines == e0.machines
  {
    hide GoodSetup, Inv, Reaches, Waiting;
    var pinged := Next(u.cfg, e0, Ping(true));
    ReachesLegal(u, s, abs, p, ex, start, e0);
    AllAccept(u, e0, abs, p, ex);
    WaitingIs(e0, p, DOWN);
    OneStep(u, s, abs, p, ex, start, e0, Ping(true));
    ReactOn(u, s, abs, p, ex, start + [Ping(true)], pinged);
    steps, e := start + [Ping(true)] + [React], Next(u.cfg, pinged, React);
  }

  lemma AllAccept(u: Setup, s: Cluster, abs: Table, p: int, ex: set<(int, string)>)
    requires Waiting(s, p, DOWN) && Inv(u, s, abs, ex) && s.health.Pass? && s.health.todo != []
    ensures Accepts(s.machines, s.health.todo[0].port)
    ensures Waiting(Next(u.cfg, s, Ping(true)), p, DOWN)
  {
    var b := s.health.todo[0];
    if b.port != p {
      assert Sound(s, b.port);
    }
  }

  /** The snapshot has some backend DOWN. */
  ghost predicate SawDown(todo: seq<Backend>) {
    exists b :: b in todo && b.status == DOWN
  }

  lemma SawDownTail(todo: seq<Backend>)
    requires todo != []
    ensures SawDown(todo) ==> todo[0].status == DOWN || SawDown(todo[1..])
    ensures !SawDown([])
  {
    assert todo == [todo[0]] + todo[1..];
  }

  /** The pass goes on until it meets `p` as DOWN, or ends. */
  lemma RunPass(u: Setup, s: Cluster, abs: Table, p: int, ex: set<(int, string)>, start: seq<Step>, e0: Cluster)
    returns (steps: seq<Step>, e: Cluster)
    requires GoodSetup(u) && Ready(u, s, abs, p, ex, start, e0) && e0.health.Pass?
    ensures (Midway(u, s, abs, p, ex, steps, e) && e.health.Begun?)
      || (Ready(u, s, abs, p, ex, steps, e) && e.health == Pass([]))
    ensures SawDown(e0.health.todo) ==> e.health.Begun?
    ensures e.machines == e0.machines
  {
    hide GoodSetup, Midway, Ready;
    steps, e := start, e0;
    while e.health.todo != []
      invariant Ready(u, s, abs, p, ex, steps, e) && e.health.Pass? && e.machines == e0.machines
      invariant SawDown(e0.health.todo) ==> SawDown(e.health.todo)
      decreases |e.health.todo|
    {
      var todo := e.health.todo;
      SawDownTail(todo);
      steps, e := PingOn(u, s, abs, p, ex, steps, e);
      if todo[0].status == DOWN {
        return;
      }
    }
  }

  lemma BeginPass(u: Setup, s: Cluster, abs: Table, p: int, ex: set<(int, string)>, start: seq<Step>, e0: Cluster)
    returns (steps: seq<Step>, e: Cluster)
    requires GoodSetup(u) && Ready(u, s, abs, p, ex, start, e0) && e0.health.Idle?
    ensures Ready(u, s, abs, p, ex, steps, e) && e.health.Pass?
    ensures SawDown(e.health.todo) && e.machines == e0.machines
  {
    hide GoodSetup, Inv, Reaches;
    ReachesLegal(u, s, abs, p, ex, start, e0);
    InvKeyed(u, e0, abs, ex);
    var snapshot := SomeList(e0.router, ALL);
    OneStep(u, s, abs, p, ex, start, e0, StartPass(snapshot));
    assert e0.router.backends[p] in snapshot;
    steps, e := start + [StartPass(snapshot)], Next(u.cfg, e0, StartPass(snapshot));
  }

  lemma FinishPass(u: Setup, s: Cluster, abs: Table, p: int, ex: set<(int, string)>, steps: seq<Step>, e: Cluster)
    requires GoodSetup(u) && Ready(u, s, abs, p, ex, steps, e) && e.health == Pass([])
    ensures Ready(u, s, abs, p, ex, steps + [EndPass], Next(u.cfg, e, EndPass))
    ensures Next(u.cfg, e, EndPass).machines == e.machines && Next(u.cfg, e, EndPass).health == Idle
  {
    hide GoodSetup, Inv, Reaches;
    OneStep(u, s, abs, p, ex, steps, e, EndPass);
  }

  lemma ReadyNow(u: Setup, s: Cluster, abs: Table, p: int, ex: set<(int, string)>)
    requires Inv(u, s, abs, ex) && Waiting(s, p, DOWN)
    requires forall x :: x in ex ==> x.0 == p
    ensures Ready(u, s, abs, p, ex, [], s)
  {
    hide RouterOk, HomesKnown, TodoOk, Synced, ThreadOk;
    assert !Sound(s, p);
  }

  /** The health thread comes to the recovery of a backend that is alive again. */
  lemma MeetTarget(u: Setup, s: Cluster, abs: Table, p: int, ex: set<(int, string)>)
    returns (steps: seq<Step>, e: Cluster)
    requires GoodSetup(u) && Inv(u, s, abs, ex) && Waiting(s, p, DOWN)
    requires forall x :: x in ex ==> x.0 == p
    ensures Midway(u, s, abs, p, ex, steps, e) && e.health.Begun? && e.machines == s.machines
  {
    ReadyNow(u, s, abs, p, ex);
    hide GoodSetup, Inv, Midway, Next, Ready, Waiting;
    steps, e := [], s;
    if e.health.Pinged? {
      ReactOn(u, s, abs, p, ex, steps, e);
      steps, e := steps + [React], Next(u.cfg, e, React);
    }
    if e.health.Pass? {
      steps, e := RunPass(u, s, abs, p, ex, steps, e);
      if !e.health.Begun? {
        FinishPass(u, s, abs, p, ex, steps, e);
        steps, e := steps + [EndPass], Next(u.cfg, e, EndPass);
      }
    }
    if !e.health.Begun? {
      ReadyIsIdle(u, s, abs, p, ex, steps, e);
      steps, e := BeginPass(u, s, abs, p, ex, steps, e);
      steps, e := RunPass(u, s, abs, p, ex, steps, e);
    }
  }

  lemma ReadyIsIdle(u: Setup, s: Cluster, abs: Table, p: int, ex: set<(int, string)>, steps: seq<Step>, e: Cluster)
    requires Ready(u, s, abs, p, ex, steps, e)
    ensures e.health.Idle? || e.health.Pass? || e.health.Pinged?
  {
  }

  /** A backend that is alive again can be brought back by health steps alone. */
  lemma CanReturn(u: Setup, s: Cluster, abs: Table, p: int, ex: set<(int, string)>)
    returns (steps: seq<Step>, e: Cluster)
    requires GoodSetup(u) && Inv(u, s, abs, ex) && Waiting(s, p, DOWN)
    requires forall x :: x in ex ==> x.0 == p
    ensures Reaches(u, s, abs, p, ex, steps, e) && Waiting(e, p, UP) && e.health.Pass?
  {
    hide GoodSetup, Inv, Midway, Reaches, Waiting;
    steps, e := MeetTarget(u, s, abs, p, ex);
    steps, e := FinishRecovery(u, s, abs, p, ex, steps, e);
  }

  // ----- the assumption on writes is exact -----

  lemma {:induction false} LegalCons(u: Setup, s: Cluster, abs: Table, x: Step, s1: Cluster, steps: seq<Step>)
    requires Possible(s, x) && Assumed(u, s, abs, x) && AbsNext(abs, x) == abs && s1 == Next(u.cfg, s, x)
    requires Legal(u, s1, abs, steps)
    ensures Legal(u, s, abs, [x] + steps)
    ensures After(u.cfg, s, [x] + steps) == After(u.cfg, s1, steps)
    ensures Contents(abs, [x] + steps) == Contents(abs, steps)
  {
    var all := [x] + steps;
    if steps == [] {
      assert all == [x] && all[..0] == [];
    } else {
      LegalCons(u, s, abs, x, s1, steps[..|steps| - 1]);
      assert all[..|all| - 1] == [x] + steps[..|steps| - 1];
    }
  }

  /** One more legal step at the end of a run. */
  lemma LegalMore(u: Setup, s: Cluster, abs: Table, steps: seq<Step>, e: Cluster, x: Step)
    requires Legal(u, s, abs, steps) && e == After(u.cfg, s, steps)
    requires Possible(e, x) && Assumed(u, e, Contents(abs, steps), x)
    ensures Legal(u, s, abs, steps + [x])
    ensures After(u.cfg, s, steps + [x]) == Next(u.cfg, e, x)
    ensures Contents(abs, steps + [x]) == AbsNext(Contents(abs, steps), x)
  {
    hide Next, Possible, Assumed, AbsNext;
    var all := steps + [x];
    assert all[..|all| - 1] == steps && all[|all| - 1] == x;
  }

  /** Health steps, crashes and restarts, and then a GET of `key` is answered wrongly. */
  ghost predicate EndsWrong(u: Setup, s: Cluster, abs: Table, steps: seq<Step>, key: string) {
    && Legal(u, s, abs, steps) && (forall i :: 0 <= i < |steps| ==> !steps[i].Client?)
    && AnsweredWrongly(u, After(u.cfg, s, steps), Contents(abs, steps), key, Acts(Get(key)))
  }

  /** The answer to a GET of `key` after the run is the expected one. */
  ghost predicate RightAfter(u: Setup, s: Cluster, abs: Table, steps: seq<Step>, key: string, act: Act) {
    ReplyTo(u.cfg, After(u.cfg, s, steps), Get(key), act) == Answer(Expected(Contents(abs, steps), key))
  }

  /** `p`, the second home, answers when the first one crashed. */
  lemma WrongWhenFirstCrashed(u: Setup, s: Cluster, abs: Table, p: int, k: string)
    requires GoodSetup(u) && Inv(u, s, abs, {(p, k)}) && Wrong(u, s, abs, p, k)
    requires s.router.backends[p].status == UP && u.order(k)[1] == p
    requires forall x :: x in s.machines ==> Healthy(s, x)
    ensures AnsweredWrongly(u, s.(machines := SetAlive(s.machines, u.order(k)[0], false)), abs, k, Acts(Get(k)))
  {
    hide GoodSetup, Inv, ServedBy, Healthy, AnsweredWrongly, Obeys, Acts, Differs, SetAlive, ReadTargets, Accepts;
    var e := s.(machines := SetAlive(s.machines, u.order(k)[0], false));
    var reps := HomesServe(u, s, abs, k);
    SecondServes(u.cfg, s, e, reps, k);
    CrashSpares(s, abs, p, k, u.order(k)[0]);
    ActsObey(e, p, k);
    ServedWrong(u, e, abs, p, k, Acts(Get(k)));
  }

  lemma CrashSpares(s: Cluster, abs: Table, p: int, k: string, q: int)
    requires Differs(s, abs, p, k)
    ensures Differs(s.(machines := SetAlive(s.machines, q, false)), abs, p, k)
    ensures p in SetAlive(s.machines, q, false)
  {
  }

  lemma ActsObey(s: Cluster, p: int, k: string)
    requires p in s.machines
    ensures Obeys(s.machines[p].db, Get(k), Acts(Get(k)), p)
  {
  }

  /** Without any fault the two homes serve, in their order. */
  lemma HomesServe(u: Setup, s: Cluster, abs: Table, k: string) returns (reps: seq<Backend>)
    requires |u.order(k)| >= 2 && GoodSetup(u) && Inv(u, s, abs, {(u.order(k)[1], k)})
    requires forall x :: x in s.machines ==> Healthy(s, x)
    ensures |reps| == 2 && ReadTargets(u.cfg, s.router, k, 2) == Some(reps)
    ensures reps[0].port == u.order(k)[0] && reps[1].port == u.order(k)[1]
    ensures Accepts(s.machines, reps[1].port) && reps[0].port != reps[1].port
  {
    SomeHealthy(u, s, k);
    reps := TargetsUnderFault(u, s, k, HealthySet(s));
    TopIs(u, s, k, reps, HealthySet(s));
    BothUp(s, reps);
  }

  lemma BothUp(s: Cluster, reps: seq<Backend>)
    requires |reps| == 2 && RecordsOf(s.router.backends, reps) && s.router.backends.Keys == s.machines.Keys
    requires forall x :: x in s.machines ==> Healthy(s, x)
    ensures OnlyUp(reps) == reps && Accepts(s.machines, reps[1].port) && reps[0].port != reps[1].port
  {
    assert reps[0] in reps && reps[1] in reps;
    TwoUp(reps);
  }

  lemma SecondServes(cfg: Config, s: Cluster, e: Cluster, reps: seq<Backend>, k: string)
    requires |reps| == 2 && reps[0].port != reps[1].port && ReadTargets(cfg, s.router, k, 2) == Some(reps)
    requires e == s.(machines := SetAlive(s.machines, reps[0].port, false)) && Accepts(s.machines, reps[1].port)
    ensures ServedBy(cfg, e, k, Acts(Get(k)), reps[1].port)
  {
    hide ReadTargets;
    assert FirstAnswers(e.machines, reps, Acts(Get(k)), 1);
  }

  lemma TopIs(u: Setup, s: Cluster, k: string, reps: seq<Backend>, ready: set<int>)
    requires GoodReplicas(u, s, k, reps, ready) && |u.order(k)| >= 2
    requires u.order(k)[0] in Online(s.router) && u.order(k)[1] in Online(s.router)
    ensures |reps| == 2 && reps[0].port == u.order(k)[0] && reps[1].port == u.order(k)[1]
  {
    assert Ports(reps) == [u.order(k)[0], u.order(k)[1]];
    assert reps[0].port == Ports(reps)[0] && reps[1].port == Ports(reps)[1];
  }

  lemma TwoUp(reps: seq<Backend>)
    requires |reps| == 2 && reps[0].status == UP && reps[1].status == UP
    ensures OnlyUp(reps) == reps
  {
    assert reps == [reps[0], reps[1]] && reps[..1] == [reps[0]];
    assert OnlyUp([]) == [] && [reps[0]][..0] == [];
    assert OnlyUp([reps[0]]) == [reps[0]];
  }

  lemma RestartWaits(s: Cluster, p: int, s1: Cluster)
    requires OneFault(s) && p in s.machines && p in s.router.backends && s.router.backends[p].status == DOWN
    requires s1 == s.(machines := SetAlive(s.machines, p, true))
    ensures Waiting(s1, p, DOWN)
  {
    assert !Sound(s, p);
    forall x | x in s1.machines && x != p ensures Sound(s1, x) {
      assert Sound(s, x);
    }
  }

  lemma RestartDiffers(u: Setup, s: Cluster, abs: Table, p: int, k: string, s1: Cluster)
    requires Stale(u, s, abs, p, k) && s1 == s.(machines := SetAlive(s.machines, p, true))
    ensures Stale(u, s1, abs, p, k)
  {
  }

  lemma RestartInv(u: Setup, s: Cluster, abs: Table, ex: set<(int, string)>, p: int, s1: Cluster)
    requires Inv(u, s, abs, ex) && p in s.machines && s1 == s.(machines := SetAlive(s.machines, p, true))
    ensures Inv(u, s1, abs, ex)
  {
    RestartStep(u, s, abs, ex, p);
  }

  lemma RestartStale(u: Setup, s: Cluster, abs: Table, p: int, k: string) returns (s1: Cluster)
    requires Inv(u, s, abs, {(p, k)}) && Stale(u, s, abs, p, k)
    requires s.router.backends[p].status == DOWN
    ensures s1 == Next(u.cfg, s, Restart(p)) && Possible(s, Restart(p)) && Assumed(u, s, abs, Restart(p))
    ensures Inv(u, s1, abs, {(p, k)}) && Stale(u, s1, abs, p, k) && Waiting(s1, p, DOWN)
  {
    s1 := s.(machines := SetAlive(s.machines, p, true));
    RestartDiffers(u, s, abs, p, k, s1);
    RestartWaits(s, p, s1);
    RestartInv(u, s, abs, {(p, k)}, p, s1);
  }

  /** At `p`'s return the difference is still there. */
  lemma WrongOnReturn(u: Setup, s: Cluster, abs: Table, p: int, k: string, steps: seq<Step>, e: Cluster)
    requires GoodSetup(u) && Inv(u, s, abs, {(p, k)}) && Stale(u, s, abs, p, k)
    requires Reaches(u, s, abs, p, {(p, k)}, steps, e)
    ensures Wrong(u, e, abs, p, k)
  {
    StaleRun(u, s, abs, p, k, steps);
  }

  /** At most one more step after which a GET of `k` is answered wrongly. */
  ghost predicate Exposes(u: Setup, e: Cluster, abs: Table, k: string, last: seq<Step>) {
    if last == [] then AnsweredWrongly(u, e, abs, k, Acts(Get(k)))
    else
      && |last| == 1 && last[0].Crash? && Possible(e, last[0]) && Assumed(u, e, abs, last[0])
      && AnsweredWrongly(u, Next(u.cfg, e, last[0]), abs, k, Acts(Get(k)))
  }

  /** With every backend sound, the first home may crash. */
  lemma CrashNow(u: Setup, e: Cluster, abs: Table, ex: set<(int, string)>, p: int, k: string)
    requires Inv(u, e, abs, ex) && Waiting(e, p, UP) && e.health.Pass? && |u.order(k)| > 0
    ensures Possible(e, Crash(u.order(k)[0])) && Assumed(u, e, abs, Crash(u.order(k)[0]))
    ensures Next(u.cfg, e, Crash(u.order(k)[0])) == e.(machines := SetAlive(e.machines, u.order(k)[0], false))
    ensures forall x :: x in e.machines ==> Healthy(e, x)
  {
    assert Sound(e, p);
  }

  lemma FirstIsWrong(u: Setup, e: Cluster, abs: Table, p: int, k: string)
    requires GoodSetup(u) && Inv(u, e, abs, {(p, k)}) && Wrong(u, e, abs, p, k) && Waiting(e, p, UP)
    requires u.order(k)[0] == p
    ensures AnsweredWrongly(u, e, abs, k, Acts(Get(k)))
  {
    FirstHomeServes(u, e, p, k, Acts(Get(k)));
    ServedWrong(u, e, abs, p, k, Acts(Get(k)));
  }

  /** The last step, if one is needed: the other home crashes. */
  lemma Expose(u: Setup, e: Cluster, abs: Table, p: int, k: string) returns (last: seq<Step>)
    requires GoodSetup(u) && Inv(u, e, abs, {(p, k)}) && Wrong(u, e, abs, p, k) && Waiting(e, p, UP) && e.health.Pass?
    ensures Exposes(u, e, abs, k, last)
  {
    hide GoodSetup, Inv, Waiting, Next, ReplyTo, Possible, Assumed, Differs;
    WaitingIs(e, p, UP);
    if u.order(k)[0] == p {
      FirstIsWrong(u, e, abs, p, k);
      last := [];
    } else {
      CrashNow(u, e, abs, {(p, k)}, p, k);
      WrongWhenFirstCrashed(u, e, abs, p, k);
      last := [Crash(u.order(k)[0])];
    }
  }

  /** A backend that is DOWN and out of step for good. */
  lemma StaleSurfaces(u: Setup, s: Cluster, abs: Table, p: int, k: string) returns (more: seq<Step>)
    requires GoodSetup(u) && Inv(u, s, abs, {(p, k)}) && Stale(u, s, abs, p, k)
    requires s.router.backends[p].status == DOWN
    ensures EndsWrong(u, s, abs, more, k)
  {
    hide GoodSetup, Inv, Next, Stale, Waiting, Reaches, Legal, Contents, After, Exposes, EndsWrong, Acts;
    var s1 := RestartStale(u, s, abs, p, k);
    var steps, e := CanReturn(u, s1, abs, p, {(p, k)});
    WrongOnReturn(u, s1, abs, p, k, steps, e);
    ReachesLegal(u, s1, abs, p, {(p, k)}, steps, e);
    var last := Expose(u, e, abs, p, k);
    more := Assemble(u, s, abs, k, Restart(p), s1, steps, e, last);
  }

  lemma Assemble(u: Setup, s: Cluster, abs: Table, k: string, x: Step, s1: Cluster, steps: seq<Step>, e: Cluster,
      last: seq<Step>)
    returns (more: seq<Step>)
    requires Possible(s, x) && Assumed(u, s, abs, x) && !x.Client? && s1 == Next(u.cfg, s, x)
    requires Legal(u, s1, abs, steps) && e == After(u.cfg, s1, steps) && Contents(abs, steps) == abs
    requires forall i :: 0 <= i < |steps| ==> !steps[i].Client?
    requires Exposes(u, e, abs, k, last)
    ensures EndsWrong(u, s, abs, more, k)
  {
    hide Legal, After, Contents, Next, AnsweredWrongly, Assumed, Acts;
    LegalCons(u, s, abs, x, s1, steps);
    more := [x] + steps;
    if last != [] {
      LegalMore(u, s, abs, more, e, last[0]);
      more := more + [last[0]];
    }
  }

  /** A backend in recovery about to be given a value that is no longer current. */
  lemma FlightSurfaces(u: Setup, s: Cluster, abs: Table, p: int, k: string) returns (more: seq<Step>)
    requires GoodSetup(u) && Inv(u, s, abs, {(p, k)}) && InFlight(u, s.health, k) && s.health.target == p
    requires EntryOf(abs, k) != Some(s.health.value)
    ensures EndsWrong(u, s, abs, more, k)
  {
    hide GoodSetup, Inv, Next, Stale, Waiting, Reaches, Legal, Contents, After, Exposes, EndsWrong, Acts, Midway;
    var s1 := Next(u.cfg, s, CopySync({}));
    OvertakenSync(u, s, abs, p, k);
    MidwayNow(u, s1, abs, p, {(p, k)});
    var steps, e := CopyAll(u, s1, abs, p, {(p, k)}, [], s1);
    PromoteOn(u, s1, abs, p, {(p, k)}, steps, e);
    steps, e := steps + [Promote], Next(u.cfg, e, Promote);
    WrongOnReturn(u, s1, abs, p, k, steps, e);
    ReachesLegal(u, s1, abs, p, {(p, k)}, steps, e);
    var last := Expose(u, e, abs, p, k);
    more := Assemble(u, s, abs, k, CopySync({}), s1, steps, e, last);
  }

  lemma MidwayNow(u: Setup, s: Cluster, abs: Table, p: int, ex: set<(int, string)>)
    requires Inv(u, s, abs, ex) && Target(s.health) == Some(p) && forall x :: x in ex ==> x.0 == p
    ensures Midway(u, s, abs, p, ex, [], s)
  {
    hide RouterOk, HomesKnown, TodoOk, Synced, ThreadOk;
    assert !Sound(s, p);
  }

  /** A write that is not allowed has a legal continuation, without any further
      client write, after which a GET of its key is answered wrongly. */
  lemma LossSurfaces(u: Setup, s: Cluster, abs: Table, c: ClientRequest, act: Act) returns (more: seq<Step>)
    requires GoodSetup(u) && Inv(u, s, abs, {}) && !c.Get? && ProperKey(KeyOf(c)) && ActOk(s, c, act)
    requires !WriteAllowed(u, s, abs, c)
    ensures EndsWrong(u, Next(u.cfg, s, Client(c, act)), Effect(abs, c), more, KeyOf(c))
  {
    var s1, abs1 := Next(u.cfg, s, Client(c, act)), Effect(abs, c);
    AllowedOr(u, s, abs, c);
    if Overtaken(u, s, abs, c) {
      OvertakenWrite(u, s, abs, c, act);
      more := FlightSurfaces(u, s1, abs1, s.health.target, KeyOf(c));
    } else {
      var p :| LosesAt(u, s, abs, c, p);
      LosingWrite(u, s, abs, c, act, p);
      more := StaleSurfaces(u, s1, abs1, p, KeyOf(c));
    }
  }

  /** Every later GET in every legal continuation is right exactly when the write
      was allowed. */
  lemma AllowedIsExact(u: Setup, s: Cluster, abs: Table, c: ClientRequest, act: Act)
    requires GoodSetup(u) && Inv(u, s, abs, {}) && !c.Get? && ProperKey(KeyOf(c)) && ActOk(s, c, act)
    ensures WriteAllowed(u, s, abs, c) <==>
      forall more, key, get | Asked(u, Next(u.cfg, s, Client(c, act)), Effect(abs, c), more, key, get) ::
        RightAfter(u, Next(u.cfg, s, Client(c, act)), Effect(abs, c), more, key, get)
  {
    var s1, abs1 := Next(u.cfg, s, Client(c, act)), Effect(abs, c);
    if WriteAllowed(u, s, abs, c) {
      NextKeepsInv(u, s, abs, {}, Client(c, act));
      forall more, key, get | Asked(u, s1, abs1, more, key, get) ensures RightAfter(u, s1, abs1, more, key, get) {
        InvAlong(u, s1, abs1, more);
        GetAnswer(u, After(u.cfg, s1, more), Contents(abs1, more), key, get);
      }
    } else {
      var k := KeyOf(c);
      var more := LossSurfaces(u, s, abs, c, act);
      ActsOk(After(u.cfg, s1, more), Get(k));
      assert Asked(u, s1, abs1, more, k, Acts(Get(k)));
    }
  }

  /** A GET of a proper key after a legal run, meeting the assumptions. */
  ghost predicate Asked(u: Setup, s: Cluster, abs: Table, more: seq<Step>, key: string, get: Act) {
    ProperKey(key) && Legal(u, s, abs, more) && ActOk(After(u.cfg, s, more), Get(key), get)
  }
}
