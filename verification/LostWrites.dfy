/** The one assumption about client writes is exactly what the system needs: a write
    that breaks it is lost at a backend, and recovery never repairs it. */
module LostWrites {
  import opened Text
  import opened HashRings
  import opened Routers
  import opened KvServers
  import opened Backends
  import opened Clusters
  import opened ClusterSafety
  import opened Guarantees

  ghost predicate Differs(s: Cluster, abs: Table, p: int, k: string) {
    p in s.machines && EntryOf(s.machines[p].db, k) != EntryOf(abs, k)
  }

  /** The running recovery, if any, will not write `k` at `p` any more. */
  ghost predicate Past(h: Health, p: int, k: string) {
    Target(h) == Some(p) && (h.Copying? || h.Syncing?) && k !in h.left
  }

  /** `p`, a home of `k` that is not UP, is out of step, and no recovery will repair it:
      clients expect nothing under `k`, or nothing but "", or its copy is over. */
  ghost predicate Stale(u: Setup, s: Cluster, abs: Table, p: int, k: string) {
    && p in s.machines && p in s.router.backends && s.router.backends[p].status != UP
    && Home(u, k, p) && Differs(s, abs, p, k)
    && !(s.health.Syncing? && s.health.target == p && s.health.key == k)
    && (Blank(EntryOf(abs, k)) || Past(s.health, p, k))
  }

  /** The write `c` does not land at `p`. */
  ghost predicate LosesAt(u: Setup, s: Cluster, abs: Table, c: ClientRequest, p: int) {
    var k := KeyOf(c);
    var e := EntryOf(Effect(abs, c), k);
    Blank(e) && Home(u, k, p) && Missed(s, p) && EntryOf(s.machines[p].db, k) != e
  }

  /** The write `c` is overtaken by the value that recovery has fetched. */
  ghost predicate Overtaken(u: Setup, s: Cluster, abs: Table, c: ClientRequest) {
    InFlight(u, s.health, KeyOf(c)) && EntryOf(Effect(abs, c), KeyOf(c)) != Some(s.health.value)
  }

  lemma AllowedOr(u: Setup, s: Cluster, abs: Table, c: ClientRequest)
    ensures WriteAllowed(u, s, abs, c) <==> !Overtaken(u, s, abs, c) && forall p :: !LosesAt(u, s, abs, c, p)
  {
    if LandsExcept(u, s, abs, c, {}) {
      assert forall p :: !LosesAt(u, s, abs, c, p);
    } else {
      var k := KeyOf(c);
      var p :| Home(u, k, p) && Missed(s, p) && EntryOf(s.machines[p].db, k) != EntryOf(Effect(abs, c), k);
      assert LosesAt(u, s, abs, c, p);
    }
  }

  // ----- a write that does not land -----

  /** A backend that misses writes is the only fault, so no recovery is running. */
  lemma NoRecovery(u: Setup, s: Cluster, abs: Table, p: int)
    requires Core(u, s, abs, {}) && Missed(s, p)
    ensures Target(s.health) == None
    ensures forall q :: Missed(s, q) ==> q == p
  {
    assert !Sound(s, p);
    assert forall q :: Missed(s, q) ==> !Sound(s, q);
    var target := Target(s.health);
    assert target.Some? ==> !Sound(s, target.value);
  }

  /** What a write leaves at a home that misses it. */
  lemma WriteMisses(u: Setup, s: Cluster, c: ClientRequest, act: Act, reps: seq<Backend>, ready: set<int>, p: int)
    requires GoodReplicas(u, s, KeyOf(c), reps, ready) && HomesKnown(u, s) && Home(u, KeyOf(c), p) && Missed(s, p)
    ensures var (m, r, _) := WriteLoop(u.cfg, s.machines, s.router, reps, act);
      p in m && m[p] == s.machines[p] && p in r.backends && r.backends[p].status == DOWN
  {
    WriteLoopEffect(u.cfg, s.machines, s.router, reps, act);
    WriteReaches(u, s, KeyOf(c), reps, ready);
  }

  /** After a write that does not land at `p`, `p` is out of step. */
  lemma LosingWrite(u: Setup, s: Cluster, abs: Table, c: ClientRequest, act: Act, p: int)
    requires GoodSetup(u) && Inv(u, s, abs, {}) && !c.Get? && ProperKey(KeyOf(c)) && ActOk(s, c, act)
    requires LosesAt(u, s, abs, c, p)
    ensures Inv(u, Next(u.cfg, s, Client(c, act)), Effect(abs, c), {(p, KeyOf(c))})
    ensures Stale(u, Next(u.cfg, s, Client(c, act)), Effect(abs, c), p, KeyOf(c))
    ensures Next(u.cfg, s, Client(c, act)).router.backends[p].status == DOWN
  {
    NoRecovery(u, s, abs, p);
    RouterStep(u, s, Client(c, act));
    WriteStep(u, s, abs, {}, {(p, KeyOf(c))}, c, act);
    SomeHealthy(u, s, KeyOf(c));
    var reps := TargetsUnderFault(u, s, KeyOf(c), HealthySet(s));
    WriteMisses(u, s, c, act, reps, HealthySet(s), p);
    WriteNext(u, s, c, act, reps);
  }

  lemma StaleBreaks(u: Setup, s: Cluster, abs: Table, p: int, k: string)
    requires Stale(u, s, abs, p, k) && Blank(EntryOf(abs, k))
    ensures !Core(u, s, abs, {})
  {
    assert Home(u, k, p) && !SyncOk(u, s, abs, p, k);
  }

  // ----- a write that is overtaken -----

  lemma NothingMissed(u: Setup, s: Cluster, abs: Table, c: ClientRequest)
    requires Core(u, s, abs, {}) && Target(s.health).Some?
    ensures LandsExcept(u, s, abs, c, {})
  {
    forall p ensures !Missed(s, p) {
      if Missed(s, p) {
        NoRecovery(u, s, abs, p);
        assert false;
      }
    }
  }

  /** Everything is in step but the value in flight. */
  lemma OvertakenWrite(u: Setup, s: Cluster, abs: Table, c: ClientRequest, act: Act)
    requires GoodSetup(u) && Inv(u, s, abs, {}) && !c.Get? && ProperKey(KeyOf(c)) && ActOk(s, c, act)
    requires Overtaken(u, s, abs, c)
    ensures var e := Next(u.cfg, s, Client(c, act));
      && Inv(u, e, Effect(abs, c), {(s.health.target, KeyOf(c))}) && e.health == s.health
      && !FlightOk(u, e.health, Effect(abs, c), {})
  {
    NothingMissed(u, s, abs, c);
    RouterStep(u, s, Client(c, act));
    WriteStep(u, s, abs, {}, {(s.health.target, KeyOf(c))}, c, act);
    SomeHealthy(u, s, KeyOf(c));
    var reps := TargetsUnderFault(u, s, KeyOf(c), HealthySet(s));
    WriteNext(u, s, c, act, reps);
  }

  /** The sync then leaves the target out of step for good. */
  lemma OvertakenSync(u: Setup, s: Cluster, abs: Table, p: int, k: string)
    requires GoodSetup(u) && Inv(u, s, abs, {(p, k)}) && InFlight(u, s.health, k) && s.health.target == p
    requires EntryOf(abs, k) != Some(s.health.value)
    ensures var e := Next(u.cfg, s, CopySync({}));
      && Inv(u, e, abs, {(p, k)}) && Stale(u, e, abs, p, k)
      && e.health.Copying? && Target(e.health) == Some(p) && e.router == s.router
  {
    hide GoodSetup, RouterOk, Synced, TodoOk, OneFault, HomesKnown;
    NextKeepsInv(u, s, abs, {(p, k)}, CopySync({}));
    SyncTouches(s.machines, p, k, s.health.value);
  }

  /** A client write keeps the invariant exactly when it is allowed. */
  lemma AllowedExactly(u: Setup, s: Cluster, abs: Table, c: ClientRequest, act: Act)
    requires GoodSetup(u) && Inv(u, s, abs, {}) && !c.Get? && ProperKey(KeyOf(c)) && ActOk(s, c, act)
    ensures Inv(u, Next(u.cfg, s, Client(c, act)), Effect(abs, c), {}) <==> WriteAllowed(u, s, abs, c)
  {
    AllowedOr(u, s, abs, c);
    if WriteAllowed(u, s, abs, c) {
      NextKeepsInv(u, s, abs, {}, Client(c, act));
    } else if Overtaken(u, s, abs, c) {
      OvertakenWrite(u, s, abs, c, act);
    } else {
      var p :| LosesAt(u, s, abs, c, p);
      LosingWrite(u, s, abs, c, act, p);
      StaleBreaks(u, Next(u.cfg, s, Client(c, act)), Effect(abs, c), p, KeyOf(c));
    }
  }

  // ----- recovery does not repair it -----

  lemma StaleOnlyOf(u: Setup, s: Cluster, abs: Table, p: int, k: string)
    requires Core(u, s, abs, {(p, k)}) && Stale(u, s, abs, p, k)
    ensures OnlyOf(s.health, {(p, k)})
    ensures Target(s.health).Some? ==> Target(s.health).value == p
  {
    if Target(s.health).Some? {
      assert !Sound(s, Target(s.health).value) && !Sound(s, p);
    }
  }

  lemma EffectTouches(abs: Table, c: ClientRequest, k: string)
    requires c.Get? || k != KeyOf(c)
    ensures EntryOf(Effect(abs, c), k) == EntryOf(abs, k)
  {
    if !c.Get? {
      EffectOnEntry(abs, abs, c, k);
    }
  }

  lemma AppliedTouches(m: Machines, t: seq<int>, c: ClientRequest, p: int, k: string)
    requires p in m && !c.Get? && k != KeyOf(c)
    ensures EntryOf(Applied(m, t, c)[p].db, k) == EntryOf(m[p].db, k)
  {
    EffectTouches(m[p].db, c, k);
  }

  /** No request but a write of the key changes what `p` holds under it. */
  lemma RequestKeeps(u: Setup, s: Cluster, abs: Table, ex: set<(int, string)>, c: ClientRequest, act: Act, p: int,
      k: string)
    requires GoodSetup(u) && Inv(u, s, abs, ex) && ActOk(s, c, act) && p in s.machines && (c.Get? || k != KeyOf(c))
    ensures var e := Next(u.cfg, s, Client(c, act));
      p in e.machines && EntryOf(e.machines[p].db, k) == EntryOf(s.machines[p].db, k) && e.health == s.health
  {
    if c.Get? {
      SomeWilling(u, s, c.key, act);
      var reps := TargetsUnderFault(u, s, c.key, WillingSet(s, act));
      GetNext(u, s, c.key, act, OnlyUp(reps));
    } else {
      SomeHealthy(u, s, KeyOf(c));
      var reps := TargetsUnderFault(u, s, KeyOf(c), HealthySet(s));
      WriteNext(u, s, c, act, reps);
      WriteLoopEffect(u.cfg, s.machines, s.router, reps, act);
      ObeyedIsApplied(s, Ports(reps), c, act);
      AppliedTouches(s.machines, Ports(reps), c, p, k);
    }
  }

  /** Fetching a value never brings `k` on its way to `p`. */
  lemma FetchSkips(u: Setup, s: Cluster, abs: Table, p: int, k: string, mute: set<int>)
    requires GoodSetup(u) && Inv(u, s, abs, {(p, k)}) && Stale(u, s, abs, p, k)
    requires Possible(s, CopyFetch(mute)) && Answering(s, mute)
    ensures StillPast(s.health, Next(u.cfg, s, CopyFetch(mute)).health, p, k)
  {
    var h := s.health;
    SomeHealthy(u, s, h.left[0]);
    var reps := TargetsUnderFault(u, s, h.left[0], HealthySet(s));
    SkipsVia(u, s, abs, p, k, reps, HealthySet(s));
    FetchNext(u, s, reps, mute);
  }

  lemma SkipsVia(u: Setup, s: Cluster, abs: Table, p: int, k: string, reps: seq<Backend>, ready: set<int>)
    requires Core(u, s, abs, {(p, k)}) && Stale(u, s, abs, p, k) && s.health.Copying? && s.health.left != []
    requires GoodReplicas(u, s, s.health.left[0], reps, ready)
    ensures StillPast(s.health, Fetched(s.machines, s.health, Some(reps)), p, k)
  {
    var h := s.health;
    StaleOnlyOf(u, s, abs, p, k);
    assert h.left == [h.left[0]] + h.left[1..];
    if h.left[0] == k {
      FetchedIsCurrent(u, s, abs, {(p, k)}, reps, ready);
    }
  }

  /** The copy of `k` to `p` is not under way, and if it was over it still is. */
  ghost predicate StillPast(h: Health, h': Health, p: int, k: string) {
    !(h'.Syncing? && h'.target == p && h'.key == k) && (Past(h, p, k) ==> Past(h', p, k))
  }

  lemma OthersKeepTables(cfg: Config, s: Cluster, step: Step)
    requires !step.Client? && !step.CopySync?
    ensures Next(cfg, s, step).machines.Keys == s.machines.Keys
    ensures forall p :: p in s.machines ==> Next(cfg, s, step).machines[p].db == s.machines[p].db
  {
  }

  /** No step but a write to the key changes what `p` holds under it. */
  lemma EntryStays(u: Setup, s: Cluster, abs: Table, p: int, k: string, step: Step)
    requires GoodSetup(u) && Inv(u, s, abs, {(p, k)}) && Stale(u, s, abs, p, k)
    requires Possible(s, step) && Assumed(u, s, abs, step) && !Writes(step, k)
    ensures p in Next(u.cfg, s, step).machines
    ensures EntryOf(Next(u.cfg, s, step).machines[p].db, k) == EntryOf(s.machines[p].db, k)
    ensures EntryOf(AbsNext(abs, step), k) == EntryOf(abs, k)
  {
    if step.Client? {
      RequestKeeps(u, s, abs, {(p, k)}, step.c, step.act, p, k);
      EffectTouches(abs, step.c, k);
    } else if step.CopySync? {
      StaleOnlyOf(u, s, abs, p, k);
      SyncTouches(s.machines, s.health.target, s.health.key, s.health.value);
    } else {
      OthersKeepTables(u.cfg, s, step);
    }
  }

  /** Nor does any step make the copy of the key due again. */
  lemma PastStays(u: Setup, s: Cluster, abs: Table, p: int, k: string, step: Step)
    requires GoodSetup(u) && Inv(u, s, abs, {(p, k)}) && Stale(u, s, abs, p, k)
    requires Possible(s, step) && Assumed(u, s, abs, step) && !Writes(step, k) && !step.Promote?
    ensures StillPast(s.health, Next(u.cfg, s, step).health, p, k)
  {
    hide GoodSetup, Inv, Next, ActOk, Differs;
    if step.Client? {
      RequestKeeps(u, s, abs, {(p, k)}, step.c, step.act, p, k);
    } else if step.CopyFetch? {
      FetchSkips(u, s, abs, p, k, step.mute);
    } else {
      OthersStillPast(u.cfg, s, p, k, step);
    }
  }

  lemma OthersStillPast(cfg: Config, s: Cluster, p: int, k: string, step: Step)
    requires Possible(s, step) && !step.Client? && !step.CopyFetch? && !step.Promote?
    requires !(s.health.Syncing? && s.health.target == p && s.health.key == k)
    ensures StillPast(s.health, Next(cfg, s, step).health, p, k)
  {
    hide AllTargets;
  }

  /** `p` is out of step, and reachable if it is UP. */
  ghost predicate Wrong(u: Setup, s: Cluster, abs: Table, p: int, k: string) {
    && Home(u, k, p) && Differs(s, abs, p, k) && p in s.router.backends
    && (s.router.backends[p].status == UP ==> s.machines[p].alive)
  }

  /** Only a promotion makes a backend UP. */
  lemma OnlyPromotion(cfg: Config, s: Cluster, p: int, step: Step)
    requires p in s.router.backends && s.router.backends[p].status != UP && !step.Promote?
    ensures p in Next(cfg, s, step).router.backends && Next(cfg, s, step).router.backends[p].status != UP
  {
    if step.Client? {
      ForwardOnlyDown(cfg, s.machines, s.router, step.c.Get?, step.act, TargetsFor(cfg, s.router, step.c));
    }
  }

  /** And it finds the backend alive. */
  lemma UpIsAlive(u: Setup, s: Cluster, abs: Table, p: int, k: string, step: Step)
    requires Core(u, s, abs, {(p, k)}) && Stale(u, s, abs, p, k) && Possible(s, step)
    ensures p in Next(u.cfg, s, step).router.backends
    ensures Next(u.cfg, s, step).router.backends[p].status == UP ==> step.Promote? && Accepts(Next(u.cfg, s, step).machines, p)
    ensures step.Promote? ==> Next(u.cfg, s, step).router.backends[p].status == UP
  {
    StaleOnlyOf(u, s, abs, p, k);
    if !step.Promote? {
      OnlyPromotion(u.cfg, s, p, step);
    }
  }

  lemma StaleStep(u: Setup, s: Cluster, abs: Table, p: int, k: string, step: Step)
    requires GoodSetup(u) && Inv(u, s, abs, {(p, k)}) && Stale(u, s, abs, p, k)
    requires Possible(s, step) && Assumed(u, s, abs, step) && !Writes(step, k)
    ensures var e, abs' := Next(u.cfg, s, step), AbsNext(abs, step);
      && Inv(u, e, abs', {(p, k)}) && Wrong(u, e, abs', p, k)
      && (e.router.backends[p].status != UP ==> Stale(u, e, abs', p, k))
  {
    StaleOnlyOf(u, s, abs, p, k);
    NextKeepsInv(u, s, abs, {(p, k)}, step);
    EntryStays(u, s, abs, p, k, step);
    UpIsAlive(u, s, abs, p, k, step);
    if !step.Promote? {
      PastStays(u, s, abs, p, k, step);
    }
  }

  /** As long as `p` is not back, it stays out of step. */
  lemma {:induction false} StaleRun(u: Setup, s: Cluster, abs: Table, p: int, k: string, steps: seq<Step>)
    requires GoodSetup(u) && Inv(u, s, abs, {(p, k)}) && Stale(u, s, abs, p, k)
    requires Legal(u, s, abs, steps) && NotBackBefore(u, s, p, steps)
    requires forall i :: 0 <= i < |steps| ==> !Writes(steps[i], k)
    ensures var e, abs' := After(u.cfg, s, steps), Contents(abs, steps);
      && Inv(u, e, abs', {(p, k)}) && Wrong(u, e, abs', p, k)
      && (e.router.backends[p].status != UP ==> Stale(u, e, abs', p, k))
  {
    if steps == [] {
    } else {
      hide GoodSetup, Inv, Next, Possible, Assumed;
      var before, step := steps[..|steps| - 1], steps[|steps| - 1];
      assert forall i :: 0 <= i < |before| ==> before[i] == steps[i];
      StaleRun(u, s, abs, p, k, before);
      StaleStep(u, After(u.cfg, s, before), Contents(abs, before), p, k, step);
    }
  }

  /** `p` is not UP at any point of the run before its end. */
  ghost predicate NotBackBefore(u: Setup, s: Cluster, p: int, steps: seq<Step>) {
    steps != [] ==>
      var before := steps[..|steps| - 1];
      var m := After(u.cfg, s, before);
      && NotBackBefore(u, s, p, before)
      && (p in m.router.backends ==> m.router.backends[p].status != UP)
  }

  lemma KeepHead(order: seq<int>, live: set<int>)
    requires |order| >= 2 && order[0] in live
    ensures |Take(Keep(order, live), 2)| >= 1 && Take(Keep(order, live), 2)[0] == order[0]
  {
    KeepTwo(order, live);
  }

  // ----- wrong answers -----

  /** `i` is the first of the candidates that answers. */
  ghost predicate FirstAnswers(m: Machines, cs: seq<Backend>, act: Act, i: int) {
    && 0 <= i < |cs| && Answers(m, cs[i].port, act)
    && forall j :: 0 <= j < i ==> !Answers(m, cs[j].port, act)
  }

  /** A GET of `k` is answered by `p`. */
  ghost predicate ServedBy(cfg: Config, s: Cluster, k: string, act: Act, p: int) {
    var targets := ReadTargets(cfg, s.router, k, 2);
    targets.Some? && exists i ::
      FirstAnswers(s.machines, targets.value, act, i) && targets.value[i].port == p
  }

  ghost predicate AnsweredWrongly(u: Setup, s: Cluster, abs: Table, k: string, act: Act) {
    ReplyTo(u.cfg, s, Get(k), act).Answer? && ReplyTo(u.cfg, s, Get(k), act) != Answer(Expected(abs, k))
  }

  lemma ServedWrong(u: Setup, s: Cluster, abs: Table, p: int, k: string, act: Act)
    requires Differs(s, abs, p, k) && ServedBy(u.cfg, s, k, act, p) && Obeys(s.machines[p].db, Get(k), act, p)
    ensures AnsweredWrongly(u, s, abs, k, act)
  {
    var up := ReadTargets(u.cfg, s.router, k, 2).value;
    var i :| FirstAnswers(s.machines, up, act, i) && up[i].port == p;
    var j := ReadLoopAnswer(u.cfg, s.machines, s.router, up, act);
    assert i == j;
    GetReply(u, s, k, act, up);
  }

  /** The reply to a GET, once its candidates are known. */
  lemma GetReply(u: Setup, s: Cluster, k: string, act: Act, up: seq<Backend>)
    requires ReadTargets(u.cfg, s.router, k, 2) == Some(up) && up != []
    ensures ReplyTo(u.cfg, s, Get(k), act) ==
      match ReadLoop(u.cfg, s.machines, s.router, up, act).1 { case None => Unavailable case Some(res) => Answer(res) }
  {
    hide ReadTargets, ReadLoop;
  }

  /** The first home of a key serves its GETs whenever it is UP and answers. */
  lemma FirstHomeServes(u: Setup, s: Cluster, p: int, k: string, act: Act)
    requires GoodSetup(u) && RouterOk(u, s.router) && |u.order(k)| >= 2 && u.order(k)[0] == p
    requires Healthy(s, p) && !Silent(s, act, p)
    ensures ServedBy(u.cfg, s, k, act, p)
  {
    var reps := Replicas(u.cfg, s.router.ring, k, 2);
    ReplicasAre(u, s.router, k);
    KeepHead(u.order(k), Online(s.router));
    assert reps != [] && reps[0].port == Ports(reps)[0] && reps[0] in reps;
    if s.router.ring == map[] {
      NoReplicasOffRing(u.cfg, s.router.ring, k, 2);
    }
    TargetsFollowRing(u.cfg, s.router, k, 2);
    hide GoodSetup, RouterOk, Replicas;
    FirstServes(u.cfg, s, reps, k, act);
  }

  lemma FirstServes(cfg: Config, s: Cluster, reps: seq<Backend>, k: string, act: Act)
    requires reps != [] && reps[0].status == UP && ReadTargets(cfg, s.router, k, 2) == Some(OnlyUp(reps))
    requires Answers(s.machines, reps[0].port, act)
    ensures ServedBy(cfg, s, k, act, reps[0].port)
  {
    hide ReadTargets;
    UpHead(reps);
    assert FirstAnswers(s.machines, OnlyUp(reps), act, 0);
  }

  // ----- lost for good -----

  /** `p` holds something under `k` where clients expect nothing, or nothing but "". */
  ghost predicate Spoilt(u: Setup, s: Cluster, abs: Table, p: int, k: string) {
    && RouterOk(u, s.router) && Differs(s, abs, p, k) && Blank(EntryOf(abs, k))
    && (s.health.Syncing? ==> s.health.value != "")
  }

  /** Whatever the faults, a request changes no other key and starts no copy. */
  lemma RequestSpares(u: Setup, s: Cluster, c: ClientRequest, act: Act, p: int, k: string)
    requires GoodSetup(u) && RouterOk(u, s.router) && ActOk(s, c, act)
    requires p in s.machines && (c.Get? || k != KeyOf(c))
    ensures var e := Next(u.cfg, s, Client(c, act));
      && p in e.machines && EntryOf(e.machines[p].db, k) == EntryOf(s.machines[p].db, k)
      && (e.health == s.health || e.health == Gone(s.health))
  {
    hide GoodSetup, RouterOk, ActOk, WriteTargets, WriteLoop, Next, EntryOf;
    ForwardDoes(u.cfg, s, c, act);
    if !c.Get? && WriteTargets(u.cfg, s.router, KeyOf(c), 2).Some? {
      var reps := WriteTargets(u.cfg, s.router, KeyOf(c), 2).value;
      TargetsAreRecords(u, s, KeyOf(c), reps);
      WriteSpares(u.cfg, s, c, act, reps, p, k);
    }
  }

  lemma ForwardDoes(cfg: Config, s: Cluster, c: ClientRequest, act: Act)
    ensures var e, targets := Next(cfg, s, Client(c, act)), WriteTargets(cfg, s.router, KeyOf(c), 2);
      && (e.health == s.health || e.health == Gone(s.health))
      && e.machines == if c.Get? || targets.None? || targets.value == [] then s.machines
        else WriteLoop(cfg, s.machines, s.router, targets.value, act).0
  {
    hide WriteTargets, ReadTargets, WriteLoop, ReadLoop, Primary;
  }

  lemma TargetsAreRecords(u: Setup, s: Cluster, k: string, reps: seq<Backend>)
    requires GoodSetup(u) && RouterOk(u, s.router) && WriteTargets(u.cfg, s.router, k, 2) == Some(reps)
    ensures RecordsOf(s.router.backends, reps)
  {
    ReplicasAre(u, s.router, k);
    TargetsFollowRing(u.cfg, s.router, k, 2);
  }

  lemma WriteSpares(cfg: Config, s: Cluster, c: ClientRequest, act: Act, reps: seq<Backend>, p: int, k: string)
    requires RecordsOf(s.router.backends, reps) && ActOk(s, c, act) && p in s.machines && !c.Get? && k != KeyOf(c)
    ensures var m := WriteLoop(cfg, s.machines, s.router, reps, act).0;
      p in m && EntryOf(m[p].db, k) == EntryOf(s.machines[p].db, k)
  {
    hide ActOk, EntryOf;
    WriteLoopEffect(cfg, s.machines, s.router, reps, act);
    ObeyedIsApplied(s, Ports(reps), c, act);
    AppliedTouches(s.machines, Ports(reps), c, p, k);
  }

  /** Recovery writes only values that are not empty, so it cannot undo the damage. */
  lemma CopySpoils(u: Setup, s: Cluster, abs: Table, p: int, k: string, mute: set<int>)
    requires Spoilt(u, s, abs, p, k) && Possible(s, CopySync(mute))
    ensures Differs(Next(u.cfg, s, CopySync(mute)), abs, p, k)
  {
    SyncTouches(s.machines, s.health.target, s.health.key, s.health.value);
  }

  lemma HealthSpares(cfg: Config, s: Cluster, step: Step)
    requires Possible(s, step) && !step.Client? && (s.health.Syncing? ==> s.health.value != "")
    ensures var h := Next(cfg, s, step).health; h.Syncing? ==> h.value != ""
  {
    hide AllTargets;
  }

  lemma SpoiltStep(u: Setup, s: Cluster, abs: Table, p: int, k: string, step: Step)
    requires GoodSetup(u) && Spoilt(u, s, abs, p, k) && !Writes(step, k)
    requires Possible(s, step) && (step.Client? ==> ActOk(s, step.c, step.act))
    ensures Spoilt(u, Next(u.cfg, s, step), AbsNext(abs, step), p, k)
  {
    hide GoodSetup, RouterOk, ActOk;
    RouterStep(u, s, step);
    if step.Client? {
      RequestSpares(u, s, step.c, step.act, p, k);
      EffectTouches(abs, step.c, k);
    } else {
      HealthSpares(u.cfg, s, step);
      if step.CopySync? {
        CopySpoils(u, s, abs, p, k, step.mute);
      } else {
        OthersKeepTables(u.cfg, s, step);
      }
    }
  }

  lemma {:induction false} SpoiltRun(u: Setup, s: Cluster, abs: Table, p: int, k: string, steps: seq<Step>)
    requires GoodSetup(u) && Spoilt(u, s, abs, p, k) && Legal(u, s, abs, steps)
    requires forall i :: 0 <= i < |steps| ==> !Writes(steps[i], k)
    ensures Spoilt(u, After(u.cfg, s, steps), Contents(abs, steps), p, k)
  {
    if steps == [] {
    } else {
      hide GoodSetup, Next, Possible, Spoilt, ActOk;
      var before, step := steps[..|steps| - 1], steps[|steps| - 1];
      assert forall i :: 0 <= i < |before| ==> before[i] == steps[i];
      SpoiltRun(u, s, abs, p, k, before);
      SpoiltStep(u, After(u.cfg, s, before), Contents(abs, before), p, k, step);
    }
  }

  lemma LosingSpoils(u: Setup, s: Cluster, abs: Table, c: ClientRequest, act: Act, p: int)
    requires GoodSetup(u) && Inv(u, s, abs, {}) && !c.Get? && ProperKey(KeyOf(c)) && ActOk(s, c, act)
    requires LosesAt(u, s, abs, c, p)
    ensures Spoilt(u, Next(u.cfg, s, Client(c, act)), Effect(abs, c), p, KeyOf(c))
  {
    NoRecovery(u, s, abs, p);
    LosingWrite(u, s, abs, c, act, p);
    SomeHealthy(u, s, KeyOf(c));
    var reps := TargetsUnderFault(u, s, KeyOf(c), HealthySet(s));
    WriteNext(u, s, c, act, reps);
  }

  /** A write that does not land at a home is lost there for good: after any legal
      continuation, through any further faults and recoveries, until the key is written
      again, every GET of the key that this backend answers is answered wrongly; and if
      it is the first home it answers whenever it is UP and not silent. */
  lemma LostForGood(u: Setup, s: Cluster, abs: Table, steps: seq<Step>, c: ClientRequest, act: Act, p: int,
      more: seq<Step>, s1: Cluster, abs1: Table, end: Cluster, get: Act)
    requires GoodSetup(u) && Initial(u, s, abs) && Legal(u, s, abs, steps)
    requires !c.Get? && ProperKey(KeyOf(c)) && ActOk(After(u.cfg, s, steps), c, act)
    requires LosesAt(u, After(u.cfg, s, steps), Contents(abs, steps), c, p)
    requires s1 == Next(u.cfg, After(u.cfg, s, steps), Client(c, act)) && abs1 == Effect(Contents(abs, steps), c)
    requires Legal(u, s1, abs1, more) && end == After(u.cfg, s1, more)
    requires forall i :: 0 <= i < |more| ==> !Writes(more[i], KeyOf(c))
    requires p in end.machines ==> Obeys(end.machines[p].db, Get(KeyOf(c)), get, p)
    ensures ServedBy(u.cfg, end, KeyOf(c), get, p) ==> AnsweredWrongly(u, end, Contents(abs1, more), KeyOf(c), get)
    ensures u.order(KeyOf(c))[0] == p && Healthy(end, p) && !Silent(end, get, p) ==>
      ServedBy(u.cfg, end, KeyOf(c), get, p)
  {
    hide GoodSetup, Inv, Initial, Legal, NotBackBefore, ActOk, Next, After, Contents, ServedBy, AnsweredWrongly, Silent,
      Healthy, Obeys;
    var k := KeyOf(c);
    RunInv(u, s, abs, steps);
    LosingSpoils(u, After(u.cfg, s, steps), Contents(abs, steps), c, act, p);
    SpoiltRun(u, s1, abs1, p, k, more);
    if ServedBy(u.cfg, end, k, get, p) {
      ServedWrong(u, end, Contents(abs1, more), p, k, get);
    }
    if u.order(k)[0] == p && Healthy(end, p) && !Silent(end, get, p) {
      FirstHomeServes(u, end, p, k, get);
    }
  }
}
