/** What the running system guarantees over whole runs, and exactly when. */
module Guarantees {
  import opened Text
  import opened HashRings
  import opened Routers
  import opened KvServers
  import opened Backends
  import opened Clusters
  import opened ClusterSafety

  /** The system as it starts: every backend alive and UP, no health pass running,
      and both homes of every key holding what clients expect of it. */
  ghost predicate Initial(u: Setup, s: Cluster, abs: Table) {
    && s.router == Build(u.cfg, u.nodes)
    && s.machines.Keys == PortSet(u.nodes)
    && (forall p :: p in s.machines ==> s.machines[p].alive)
    && s.health == Idle
    && (forall k :: k in abs ==> ProperKey(k))
    && (forall p, k :: Home(u, k, p) && p in s.machines ==> EntryOf(s.machines[p].db, k) == EntryOf(abs, k))
  }

  /** Every step of the run can happen and meets the assumptions when it does. */
  ghost predicate Legal(u: Setup, s: Cluster, abs: Table, steps: seq<Step>) {
    steps != [] ==>
      var before, step := steps[..|steps| - 1], steps[|steps| - 1];
      && Legal(u, s, abs, before)
      && Possible(After(u.cfg, s, before), step)
      && Assumed(u, After(u.cfg, s, before), Contents(abs, before), step)
  }

  lemma InitialInv(u: Setup, s: Cluster, abs: Table)
    requires GoodSetup(u) && Initial(u, s, abs)
    ensures Inv(u, s, abs, {})
  {
    hide Build, Consistent, SameAddresses, KeyedByPort;
    BuildConsistent(u.cfg, u.nodes);
    BuildAddresses(u.cfg, u.nodes);
    BuildBackends(u.cfg, u.nodes);
    forall p | p in s.router.backends ensures s.router.backends[p].status == UP {
      var b :| b in u.nodes && b.port == p;
    }
    forall k ensures |u.order(k)| >= 2 && u.order(k)[0] != u.order(k)[1]
      && u.order(k)[0] in s.machines && u.order(k)[1] in s.machines
    {
      TwoOwners(u, k);
    }
  }

  lemma TwoOwners(u: Setup, k: string)
    requires GoodSetup(u)
    ensures |u.order(k)| >= 2 && u.order(k)[0] != u.order(k)[1]
    ensures u.order(k)[0] in PortSet(u.nodes) && u.order(k)[1] in PortSet(u.nodes)
  {
    HomeOrderComplete(u.cfg, u.nodes, k);
    TwoOf(HomeOrder(u.cfg, u.nodes, k), u.nodes);
    assert NamesOwners(u, k);
  }

  lemma TwoOf(o: seq<int>, nodes: seq<Backend>)
    requires |nodes| >= 2 && nodes[0].port != nodes[1].port
    requires forall p :: p in o <==> p in PortSet(nodes)
    requires forall i, j :: 0 <= i < j < |o| ==> o[i] != o[j]
    ensures |o| >= 2 && o[0] in PortSet(nodes) && o[1] in PortSet(nodes) && o[0] != o[1]
  {
    assert nodes[0] in nodes && nodes[1] in nodes;
    assert nodes[0].port in o && nodes[1].port in o;
    var i :| 0 <= i < |o| && o[i] == nodes[0].port;
    var j :| 0 <= j < |o| && o[j] == nodes[1].port;
    assert o[0] in o && o[1] in o;
  }

  lemma {:induction false} InvAlong(u: Setup, s: Cluster, abs: Table, steps: seq<Step>)
    requires GoodSetup(u) && Inv(u, s, abs, {}) && Legal(u, s, abs, steps)
    ensures Inv(u, After(u.cfg, s, steps), Contents(abs, steps), {})
  {
    if steps == [] {
    } else {
      var before := steps[..|steps| - 1];
      InvAlong(u, s, abs, before);
      NextKeepsInv(u, After(u.cfg, s, before), Contents(abs, before), {}, steps[|steps| - 1]);
    }
  }

  lemma RunInv(u: Setup, s: Cluster, abs: Table, steps: seq<Step>)
    requires GoodSetup(u) && Initial(u, s, abs) && Legal(u, s, abs, steps)
    ensures Inv(u, After(u.cfg, s, steps), Contents(abs, steps), {})
  {
    InitialInv(u, s, abs);
    InvAlong(u, s, abs, steps);
  }

  /** In every legal run every GET is answered with the value of the store that the
      clients' writes built, across crashes, failovers and recoveries, and although
      the backend at fault may accept the GET and not answer it. */
  lemma GetReturnsLastWrite(u: Setup, s: Cluster, abs: Table, steps: seq<Step>, key: string, act: Act)
    requires GoodSetup(u) && Initial(u, s, abs) && Legal(u, s, abs, steps) && ProperKey(key)
    requires ActOk(After(u.cfg, s, steps), Get(key), act)
    ensures ReplyTo(u.cfg, After(u.cfg, s, steps), Get(key), act) == Answer(Expected(Contents(abs, steps), key))
  {
    RunInv(u, s, abs, steps);
    GetAnswer(u, After(u.cfg, s, steps), Contents(abs, steps), key, act);
  }

  /** A step that may change what clients expect under `key`. */
  predicate Writes(step: Step, key: string) {
    step.Client? && !step.c.Get? && KeyOf(step.c) == key
  }

  lemma {:induction false} LastPut(abs: Table, steps: seq<Step>, i: nat, key: string, value: string)
    requires i < |steps| && steps[i].Client? && steps[i].c == Put(key, value)
    requires forall j :: i < j < |steps| ==> !Writes(steps[j], key)
    ensures Expected(Contents(abs, steps), key) == Response(200, value)
  {
    var n := |steps| - 1;
    if i < n {
      LastPut(abs, steps[..n], i, key, value);
      if steps[n].Client? {
        EffectOnEntry(Contents(abs, steps[..n]), Contents(abs, steps[..n]), steps[n].c, key);
      }
    }
  }

  lemma {:induction false} UnwrittenStays(abs: Table, steps: seq<Step>, i: nat, key: string)
    requires i <= |steps| && forall j :: i <= j < |steps| ==> !Writes(steps[j], key)
    ensures EntryOf(Contents(abs, steps), key) == EntryOf(Contents(abs, steps[..i]), key)
  {
    var n := |steps| - 1;
    if i == |steps| {
      assert steps[..i] == steps;
    } else {
      UnwrittenStays(abs, steps[..n], i, key);
      assert steps[..n][..i] == steps[..i];
      if steps[n].Client? {
        EffectOnEntry(Contents(abs, steps[..n]), Contents(abs, steps[..n]), steps[n].c, key);
      }
    }
  }

  /** A create of an absent key that nothing overwrites fixes the answer, and one of a
      present key changes nothing. */
  lemma LastCreate(abs: Table, steps: seq<Step>, i: nat, key: string, value: string)
    requires ' ' !in key && '\n' !in value
    requires i < |steps| && steps[i].Client? && steps[i].c == Create(key + " " + value)
    requires forall j :: i < j < |steps| ==> !Writes(steps[j], key)
    ensures Expected(Contents(abs, steps), key) ==
      if key in Contents(abs, steps[..i]) then Expected(Contents(abs, steps[..i]), key) else Response(200, value)
  {
    CreateBodyRead(key, value, "");
    UnwrittenStays(abs, steps, i + 1, key);
    assert steps[..i + 1][..i] == steps[..i];
  }

  /** So does a DELETE. */
  lemma LastDelete(abs: Table, steps: seq<Step>, i: nat, key: string)
    requires i < |steps| && steps[i].Client? && steps[i].c == Delete(key)
    requires forall j :: i < j < |steps| ==> !Writes(steps[j], key)
    ensures Expected(Contents(abs, steps), key) == Response(404, "Key not Found\n")
  {
    UnwrittenStays(abs, steps, i + 1, key);
    assert steps[..i + 1][..i] == steps[..i];
  }

  /** When a backend is promoted it agrees, on every key it is a home of, with the
      other home and with what clients expect. */
  lemma PromotedAgrees(u: Setup, s: Cluster, abs: Table, steps: seq<Step>, e: Cluster, key: string, p: int, q: int)
    requires GoodSetup(u) && Initial(u, s, abs) && Legal(u, s, abs, steps)
    requires e == After(u.cfg, s, steps) && Possible(e, Promote) && Target(e.health) == Some(p)
    requires Home(u, key, p) && Home(u, key, q)
    ensures HomesAgree(e, Contents(abs, steps), key, p, q)
  {
    RunInv(u, s, abs, steps);
    PromotionAgrees(u, e, Contents(abs, steps), key, p, q);
  }

  ghost predicate HomesAgree(s: Cluster, abs: Table, key: string, p: int, q: int) {
    && p in s.machines && q in s.machines
    && EntryOf(s.machines[p].db, key) == EntryOf(s.machines[q].db, key)
    && EntryOf(s.machines[q].db, key) == EntryOf(abs, key)
  }

  lemma PromotionAgrees(u: Setup, s: Cluster, abs: Table, key: string, p: int, q: int)
    requires Core(u, s, abs, {}) && Possible(s, Promote) && Target(s.health) == Some(p)
    requires Home(u, key, p) && Home(u, key, q)
    ensures HomesAgree(s, abs, key, p, q)
  {
    PromoteStep(u, s, abs, {});
    var x := OtherHome(u, s, abs, {}, key);
    assert SyncOk(u, s, abs, x, key);
  }

  // ----- acknowledgements -----

  /** The responses are those of the candidates that accept and answer. */
  lemma {:induction false} WriteLoopAnswers(cfg: Config, m: Machines, r: RouterState, cs: seq<Backend>, act: Act)
    requires forall i, j :: 0 <= i < j < |cs| ==> cs[i].port != cs[j].port
    ensures forall x :: x in WriteLoop(cfg, m, r, cs, act).2 <==>
      exists b :: b in cs && Answers(m, b.port, act) && Some(x) == act(b.port, m[b.port].db).1
  {
    if cs == [] {
    } else {
      hide MarkDown;
      var init, last := cs[..|cs| - 1], cs[|cs| - 1];
      WriteLoopAnswers(cfg, m, r, init, act);
      WriteLoopEffect(cfg, m, r, init, act);
      NotEarlier(cs);
      assert cs == init + [last];
      InSnoc(init, last);
      var (m', _, out) := WriteLoop(cfg, m, r, init, act);
      assert last.port in m ==> m'[last.port] == m[last.port];
      if Answers(m, last.port, act) {
        InSnoc(out, act(last.port, m[last.port].db).1.value);
      }
    }
  }

  predicate Success(res: Response) {
    res.status == 200 || res.status == 201
  }

  ghost predicate LastSuccess(out: seq<Response>, i: nat)
    requires i < |out|
  {
    (out[i].status == 200 || out[i].status == 201) && forall j :: i < j < |out| ==> out[j].status != 200 && out[j].status != 201
  }

  /** The last success is relayed, and without one the first response. */
  lemma {:induction false} PrimaryOf(out: seq<Response>)
    ensures if out == [] then Primary(out) == None else Primary(out).Some? && Primary(out).value in out
    ensures (exists x :: x in out && Success(x)) ==> Success(Primary(out).value)
    ensures forall i :: 0 <= i < |out| && LastSuccess(out, i) ==> Primary(out) == Some(out[i])
    ensures out != [] && (forall j :: 0 <= j < |out| ==> out[j].status != 200 && out[j].status != 201) ==> Primary(out) == Some(out[0])
  {
    if out == [] {
    } else {
      var init, last := out[..|out| - 1], out[|out| - 1];
      PrimaryOf(init);
      assert out == init + [last];
      InSnoc(init, last);
    }
  }

  /** The success that clients may rely on: every PUT, a DELETE of a present key, and a
      create of an absent one. */
  function Due(abs: Table, c: ClientRequest): Option<Response> {
    match c
    case Put(_, _) => Some(Response(200, "Updated Successfully\n"))
    case Delete(key) => if key in abs then Some(Response(200, "Deleted Successfully\n")) else None
    case Create(body) => if FirstWord(body) in abs then None else Some(Response(201, "Created Successfully"))
    case Get(_) => None
  }

  /** `p` gives the answer that is due. */
  ghost predicate Confirms(s: Cluster, abs: Table, c: ClientRequest, act: Act, p: int) {
    Answers(s.machines, p, act) && act(p, s.machines[p].db).1 == Due(abs, c)
  }

  /** Every write has candidates. It is refused exactly when none of them answers, and
      the success that is due is relayed exactly when one of them gives it; a healthy
      home that answers does. */
  lemma WritesAcknowledged(u: Setup, s: Cluster, abs: Table, steps: seq<Step>, e: Cluster, c: ClientRequest, act: Act)
    returns (targets: seq<Backend>)
    requires GoodSetup(u) && Initial(u, s, abs) && Legal(u, s, abs, steps) && e == After(u.cfg, s, steps)
    requires !c.Get? && ActOk(e, c, act)
    ensures WriteTargets(u.cfg, e.router, KeyOf(c), 2) == Some(targets) && targets != []
    ensures ReplyTo(u.cfg, e, c, act).Answer? <==> exists b :: b in targets && Answers(e.machines, b.port, act)
    ensures !ReplyTo(u.cfg, e, c, act).Answer? ==> ReplyTo(u.cfg, e, c, act) == Unavailable
    ensures var due := Due(Contents(abs, steps), c);
      due.Some? ==> (ReplyTo(u.cfg, e, c, act) == Answer(due.value) <==>
        exists b :: b in targets && Confirms(e, Contents(abs, steps), c, act, b.port))
    ensures Due(Contents(abs, steps), c).Some? ==> forall p | Home(u, KeyOf(c), p) && Healthy(e, p) ::
      Answers(e.machines, p, act) ==> Confirms(e, Contents(abs, steps), c, act, p) && exists b :: b in targets && b.port == p
  {
    RunInv(u, s, abs, steps);
    SomeHealthy(u, e, KeyOf(c));
    targets := TargetsUnderFault(u, e, KeyOf(c), HealthySet(e));
    hide GoodSetup, Initial, Legal, Inv, After, Contents, ActOk, Healthy, Confirms, GoodReplicas, Due, Next, ReplyTo;
    WriteOutcome(u, e, Contents(abs, steps), c, act, targets);
    if Due(Contents(abs, steps), c).Some? {
      forall p | Home(u, KeyOf(c), p) && Healthy(e, p) && Answers(e.machines, p, act)
        ensures Confirms(e, Contents(abs, steps), c, act, p) && exists b :: b in targets && b.port == p
      {
        HomeConfirms(u, e, Contents(abs, steps), c, act, p);
        HomeIsTarget(u, e, KeyOf(c), targets, p);
      }
    }
  }

  lemma WriteOutcome(u: Setup, s: Cluster, abs: Table, c: ClientRequest, act: Act, targets: seq<Backend>)
    requires !c.Get? && ActOk(s, c, act) && GoodReplicas(u, s, KeyOf(c), targets, HealthySet(s))
    requires WriteTargets(u.cfg, s.router, KeyOf(c), 2) == Some(targets) && targets != []
    ensures ReplyTo(u.cfg, s, c, act).Answer? <==> exists b :: b in targets && Answers(s.machines, b.port, act)
    ensures !ReplyTo(u.cfg, s, c, act).Answer? ==> ReplyTo(u.cfg, s, c, act) == Unavailable
    ensures Due(abs, c).Some? ==> (ReplyTo(u.cfg, s, c, act) == Answer(Due(abs, c).value) <==>
      exists b :: b in targets && Confirms(s, abs, c, act, b.port))
  {
    hide ActOk, Confirms, GoodReplicas, Due, Primary, WriteTargets;
    WriteNext(u, s, c, act, targets);
    ReplicasDistinct(u, s, KeyOf(c), targets);
    WriteLoopAnswers(u.cfg, s.machines, s.router, targets, act);
    var out := WriteLoop(u.cfg, s.machines, s.router, targets, act).2;
    PrimaryOf(out);
    AnsweredBy(s, targets, act, out);
    if Due(abs, c).Some? {
      DueRelayed(s, abs, c, act, targets, out);
    }
  }

  lemma AnsweredBy(s: Cluster, cs: seq<Backend>, act: Act, out: seq<Response>)
    requires forall x :: x in out <==>
      exists b :: b in cs && Answers(s.machines, b.port, act) && Some(x) == act(b.port, s.machines[b.port].db).1
    ensures out != [] <==> exists b :: b in cs && Answers(s.machines, b.port, act)
  {
    if out != [] {
      assert out[0] in out;
    }
    if b :| b in cs && Answers(s.machines, b.port, act) {
      assert act(b.port, s.machines[b.port].db).1.value in out;
    }
  }

  /** All successes among the responses are the one that is due. */
  lemma DueRelayed(s: Cluster, abs: Table, c: ClientRequest, act: Act, cs: seq<Backend>, out: seq<Response>)
    requires ActOk(s, c, act) && Due(abs, c).Some?
    requires forall x :: x in out <==>
      exists b :: b in cs && Answers(s.machines, b.port, act) && Some(x) == act(b.port, s.machines[b.port].db).1
    ensures Primary(out) == Due(abs, c) <==> exists b :: b in cs && Confirms(s, abs, c, act, b.port)
  {
    hide Primary, Due, Handle, ToServer;
    PrimaryOf(out);
    DueSucceeds(abs, c);
    forall x | x in out && Success(x) ensures x == Due(abs, c).value {
      var b :| b in cs && Answers(s.machines, b.port, act) && Some(x) == act(b.port, s.machines[b.port].db).1;
      assert Obeys(s.machines[b.port].db, c, act, b.port);
      SameSuccess(s.machines[b.port].db, abs, c);
    }
    if b :| b in cs && Confirms(s, abs, c, act, b.port) {
      assert Due(abs, c).value in out;
    }
    if Primary(out) == Due(abs, c) {
      var b :| b in cs && Answers(s.machines, b.port, act) && Primary(out) == act(b.port, s.machines[b.port].db).1;
      assert Confirms(s, abs, c, act, b.port);
    }
  }

  lemma DueSucceeds(abs: Table, c: ClientRequest)
    ensures Due(abs, c).Some? ==> Success(Due(abs, c).value)
  {
  }

  lemma SameSuccess(db: Table, abs: Table, c: ClientRequest)
    ensures Due(abs, c).Some? && Success(Handle(db, ToServer(c)).1) ==> Handle(db, ToServer(c)).1 == Due(abs, c).value
  {
  }

  lemma ReplicasDistinct(u: Setup, s: Cluster, k: string, reps: seq<Backend>)
    requires GoodReplicas(u, s, k, reps, HealthySet(s))
    ensures forall i, j :: 0 <= i < j < |reps| ==> reps[i].port != reps[j].port
  {
  }

  /** A home in service is among the replicas. */
  lemma HomeIsTarget(u: Setup, s: Cluster, k: string, reps: seq<Backend>, p: int)
    requires GoodReplicas(u, s, k, reps, HealthySet(s)) && Home(u, k, p) && Healthy(s, p)
    ensures exists b :: b in reps && b.port == p
  {
    assert p in Ports(reps);
    var i :| 0 <= i < |reps| && Ports(reps)[i] == p;
    assert reps[i] in reps;
  }

  /** A backend in step gives the success that is due. */
  lemma HomeConfirms(u: Setup, s: Cluster, abs: Table, c: ClientRequest, act: Act, p: int)
    requires Inv(u, s, abs, {}) && ActOk(s, c, act) && Home(u, KeyOf(c), p) && Healthy(s, p)
    requires Answers(s.machines, p, act) && Due(abs, c).Some?
    ensures Confirms(s, abs, c, act, p)
  {
    assert SyncOk(u, s, abs, p, KeyOf(c));
    assert Obeys(s.machines[p].db, c, act, p);
    DueAnswer(s.machines[p].db, abs, c);
  }

  lemma DueAnswer(db: Table, abs: Table, c: ClientRequest)
    requires EntryOf(db, KeyOf(c)) == EntryOf(abs, KeyOf(c)) && Due(abs, c).Some?
    ensures Handle(db, ToServer(c)).1 == Due(abs, c).value
  {
  }
}
