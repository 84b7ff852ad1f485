/** The recovery manager and the health checker as programs
    (load_balancer/src/RecoveryManager.cpp, load_balancer/src/HealthChecker.cpp):
    without interference their loops are runs of the step system. */
module HealthCheckers {
  import opened Text
  import opened HashRings
  import opened Routers
  import opened KvServers
  import opened Backends
  import opened Recoveries
  import opened Clusters
  import opened HealthPasses
  import opened Outcomes

  /** `e` is reached from `s` by steps the health thread can take. */
  ghost predicate Ran(cfg: Config, s: Cluster, steps: seq<Step>, e: Cluster) {
    CanRun(cfg, s, steps) && After(cfg, s, steps) == e
  }

  lemma RanNone(cfg: Config, s: Cluster)
    ensures Ran(cfg, s, [], s)
  {
  }

  lemma RanMore(cfg: Config, s: Cluster, steps: seq<Step>, e: Cluster, step: Step)
    requires Ran(cfg, s, steps, e) && Possible(e, step)
    ensures Ran(cfg, s, steps + [step], Next(cfg, e, step))
  {
    var all := steps + [step];
    assert all[..|all| - 1] == steps && all[|all| - 1] == step;
  }

  class RecoveryManager {
    const router: Router
    const network: Network

    constructor (router: Router, network: Network)
      ensures this.router == router && this.network == network
    {
      this.router, this.network := router, network;
    }

    ghost function At(h: Health): Cluster
      reads this, network, router, router.hashRing
    {
      Cluster(network.machines, router.State(), h)
    }

    /** A complete response comes back; the backends in `mute` do not give one. */
    predicate Responds(port: int, mute: set<int>)
      reads network
    {
      Accepts(network.machines, port) && port !in mute
    }

    /** `rows` is the order in which the peer's table lists its keys. */
    method FetchAllKeysFromNode(backend: Backend, mute: set<int>) returns (keys: seq<string>, rows: seq<string>)
      ensures Responds(backend.port, mute) ==> RowsOf(network.machines[backend.port].db, rows)
      ensures (set k | k in keys) == FetchKeys(Heard(network.machines, mute), backend.port, rows)
    {
      keys, rows := [], [];
      if !Responds(backend.port, mute) {
        return;
      }
      var stream;
      rows, stream := JoinKeys(network.machines[backend.port].db);
      while stream != ""
        invariant keys + Lines(stream) == Lines(AllKeysBody(rows))
        decreases |stream|
      {
        var (key, rest) := GetLine(stream);
        if key != "" {
          Associate(keys, [key], Lines(rest));
          keys := keys + [key];
        } else {
          assert [] + Lines(rest) == Lines(rest);
        }
        stream := rest;
      }
      assert keys == Lines(AllKeysBody(rows));
    }

    method FetchValueFromPeer(peer: Backend, key: string, mute: set<int>) returns (value: string)
      ensures value == FetchValue(Heard(network.machines, mute), peer.port, key)
    {
      if Responds(peer.port, mute) {
        var res := Handle(network.machines[peer.port].db, ReadRequest(key)).1;
        if res.status == 200 {
          return res.body;
        }
      }
      value := "";
    }

    method WriteValueToRecoveredNode(target: Backend, key: string, value: string, mute: set<int>) returns (ok: bool)
      modifies network
      ensures ok <==> old(Responds(target.port, mute))
      ensures network.machines == if target.port in mute then old(network.machines)
        else SyncValue(old(network.machines), target.port, key, value)
    {
      if !Responds(target.port, mute) {
        return false;
      }
      var (db, res) := Handle(network.machines[target.port].db, SyncRequest(key, value));
      network.machines := network.machines[target.port := network.machines[target.port].(db := db)];
      ok := res.status == 200 || res.status == 201;
    }

    /** The search for a value to copy. */
    method FindSource(replicas: seq<Backend>, target: Backend, key: string, mute: set<int>) returns (value: string)
      ensures value == SourceValue(Heard(network.machines, mute), replicas, target.port, key)
    {
      hide Heard;
      value := "";
      for i := 0 to |replicas|
        invariant value == ""
        invariant SourceValue(Heard(network.machines, mute), replicas, target.port, key)
          == SourceValue(Heard(network.machines, mute), replicas[i..], target.port, key)
      {
        assert replicas[i..][1..] == replicas[i + 1..];
        if replicas[i].port != target.port {
          value := FetchValueFromPeer(replicas[i], key, mute);
          if value != "" {
            return;
          }
        }
      }
    }

    method Owns(replicas: seq<Backend>, target: Backend) returns (owns: bool)
      ensures owns <==> exists b :: b in replicas && b.port == target.port
    {
      for i := 0 to |replicas|
        invariant forall j :: 0 <= j < i ==> replicas[j].port != target.port
      {
        if replicas[i].port == target.port {
          return true;
        }
      }
      owns := false;
    }

    /** The first half of a round of the copy loop; a lookup on an empty ring throws. */
    method FetchOneKey(target: Backend, key: string, mute: set<int>) returns (thrown: bool, value: string)
      ensures match AllTargets(router.hashRing.cfg, router.State(), key, 2) {
        case None => thrown
        case Some(reps) => !thrown && value == CopyValue(Heard(network.machines, mute), reps, target.port, key)
      }
    {
      var replicas := router.GetBackendsForKey(key, 2);
      if replicas.None? {
        return true, "";
      }
      var owns := Owns(replicas.value, target);
      if !owns {
        return false, "";
      }
      value := FindSource(replicas.value, target, key, mute);
      thrown := false;
    }

    /** One round of the copy loop: a fetch, and a sync if a value was found. */
    method CopyOneKey(target: Backend, key: string, quiet: Quiet, ghost left: seq<string>, ghost todo: seq<Backend>,
        ghost start: Cluster, ghost done: seq<Step>)
      returns (thrown: bool, ghost steps: seq<Step>)
      requires Ran(router.hashRing.cfg, start, done, At(Copying(todo, target.port, [key] + left)))
      modifies network
      ensures thrown <==> AllTargets(router.hashRing.cfg, router.State(), key, 2).None?
      ensures var v := CopyOf(router.hashRing.cfg, old(network.machines), router.State(), target.port, quiet, key);
        network.machines == if v == "" then old(network.machines)
          else SyncValue(old(network.machines), target.port, key, v)
      ensures var h := Copying(todo, target.port, [key] + left);
        Ran(router.hashRing.cfg, start, steps, if thrown then At(Gone(h)) else At(Copying(todo, target.port, left)))
    {
      hide Ran, AllTargets, CopyValue, SyncValue, Heard;
      ghost var here := At(Copying(todo, target.port, [key] + left));
      assert ([key] + left)[1..] == left;
      var value;
      thrown, value := FetchOneKey(target, key, quiet.fetches(target.port, key));
      RanMore(router.hashRing.cfg, start, done, here, CopyFetch(quiet.fetches(target.port, key)));
      steps := done + [CopyFetch(quiet.fetches(target.port, key))];
      if !thrown && value != "" {
        ghost var there := At(Syncing(todo, target.port, left, key, value));
        SyncAway(network.machines, target.port, key, value);
        var _ := WriteValueToRecoveredNode(target, key, value, quiet.syncs(target.port, key));
        RanMore(router.hashRing.cfg, start, steps, there, CopySync(quiet.syncs(target.port, key)));
        steps := steps + [CopySync(quiet.syncs(target.port, key))];
      }
    }

    /** The loop over the peers. */
    method CollectKeys(target: Backend, quiet: Quiet, ghost todo: seq<Backend>)
      returns (keyspace: set<string>, ghost steps: seq<Step>)
      requires KeyedByPort(router.State())
      ensures keyspace == Keyspace(network.machines, router.State(), target.port, quiet.lists(target.port))
      ensures Ran(router.hashRing.cfg, At(Begun(todo, target.port)), steps, At(Fetching(todo, target.port, [], keyspace)))
    {
      hide Ran, KeysAt, FetchKeys;
      var peers := router.GetOnlineBackends();
      ghost var start := At(Begun(todo, target.port));
      ghost var mute := quiet.lists(target.port);
      keyspace, steps := {}, [ListPeers(peers)];
      RanNone(router.hashRing.cfg, start);
      RanMore(router.hashRing.cfg, start, [], start, ListPeers(peers));
      assert [] + [ListPeers(peers)] == [ListPeers(peers)];
      assert peers[0..] == peers;
      for i := 0 to |peers|
        invariant Ran(router.hashRing.cfg, start, steps, At(Fetching(todo, target.port, peers[i..], keyspace)))
        invariant keyspace == Named(network.machines, peers[..i], target.port, mute)
      {
        ghost var here := At(Fetching(todo, target.port, peers[i..], keyspace));
        assert peers[i..][1..] == peers[i + 1..] && peers[i..][0] == peers[i];
        var keys, rows := FetchAllKeysFromNode(peers[i], quiet.lists(target.port));
        FetchedIsKeysAt(network.machines, peers[i].port, mute, rows);
        NamedMore(network.machines, peers, i, target.port, mute);
        if peers[i].port != target.port {
          keyspace := keyspace + set k | k in keys;
        } else {
          assert keyspace + {} == keyspace;
        }
        RanMore(router.hashRing.cfg, start, steps, here, FetchFrom(rows, mute));
        steps := steps + [FetchFrom(rows, mute)];
      }
      assert peers[|peers|..] == [] && peers[..|peers|] == peers;
      NamedIsKeyspace(network.machines, router.State(), peers, target.port, mute);
    }

    /** `recover`, up to the return to the health checker, or to an exception that
        nothing catches.  It leaves the tables as specified, given who answers. */
    method Recover(target: Backend, quiet: Quiet, ghost todo: seq<Backend>)
      returns (thrown: bool, ghost steps: seq<Step>, ghost last: Health)
      requires KeyedByPort(router.State())
      modifies network
      ensures Ran(router.hashRing.cfg, old(At(Begun(todo, target.port))), steps, At(last))
      ensures if thrown then last.Gone? else last == Copying(todo, target.port, [])
      ensures thrown ==> router.State().ring == map[]
      ensures thrown || network.machines ==
        Restored(router.hashRing.cfg, old(network.machines), router.State(), target.port, quiet,
          Keyspace(old(network.machines), router.State(), target.port, quiet.lists(target.port)))
    {
      hide Ran, Restored, CopyOf, SyncValue, Keyspace;
      ghost var m, r := network.machines, router.State();
      var keyspace;
      keyspace, steps := CollectKeys(target, quiet, todo);
      var order := InOrder(keyspace);
      InOrderIs(keyspace);
      InOrderDistinct(keyspace);
      hide InOrder;
      ghost var start := At(Begun(todo, target.port));
      RanMore(router.hashRing.cfg, start, steps, At(Fetching(todo, target.port, [], keyspace)), StartCopy);
      steps := steps + [StartCopy];
      assert order[0..] == order && KeysOf(order[..0]) == {};
      RestoreNone(router.hashRing.cfg, m, r, target.port, quiet);
      for i := 0 to |order|
        invariant Ran(router.hashRing.cfg, start, steps, At(Copying(todo, target.port, order[i..])))
        invariant router.State() == r && network.machines ==
          Restored(router.hashRing.cfg, m, r, target.port, quiet, KeysOf(order[..i]))
      {
        HeadFirst(order, i);
        OneMoreKey(order, i);
        RestoreOne(router.hashRing.cfg, m, r, target.port, quiet, KeysOf(order[..i]), order[i]);
        thrown, steps := CopyOneKey(target, order[i], quiet, order[i + 1..], todo, start, steps);
        if thrown {
          last := Gone(Copying(todo, target.port, order[i..]));
          return;
        }
      }
      assert order[|order|..] == [] && KeysOf(order[..|order|]) == keyspace;
      thrown, last := false, Copying(todo, target.port, []);
    }
  }

  lemma SyncAway(m: Machines, p: int, k: string, v: string)
    ensures !Accepts(m, p) ==> SyncValue(m, p, k, v) == m
  {
  }

  ghost function KeysOf(order: seq<string>): set<string> {
    set k | k in order
  }

  lemma OneMoreKey(order: seq<string>, i: nat)
    requires i < |order| && forall a, b :: 0 <= a < b < |order| ==> order[a] != order[b]
    ensures KeysOf(order[..i + 1]) == KeysOf(order[..i]) + {order[i]} && order[i] !in KeysOf(order[..i])
  {
    assert order[..i + 1] == order[..i] + [order[i]];
  }

  /** The keys that these peers name. */
  ghost function Named(m: Machines, peers: seq<Backend>, target: int, mute: set<int>): set<string> {
    set b, k | b in peers && b.port != target && k in KeysAt(m, b.port, mute) :: k
  }

  lemma NamedMore(m: Machines, peers: seq<Backend>, i: nat, target: int, mute: set<int>)
    requires i < |peers|
    ensures Named(m, peers[..i + 1], target, mute) == Named(m, peers[..i], target, mute)
      + if peers[i].port != target then KeysAt(m, peers[i].port, mute) else {}
  {
    hide KeysAt;
    assert forall b :: b in peers[..i + 1] <==> b in peers[..i] || b == peers[i];
  }

  lemma NamedIsKeyspace(m: Machines, r: RouterState, peers: seq<Backend>, target: int, mute: set<int>)
    requires KeyedByPort(r) && Listed(r, peers, r.backends.Keys, {UP})
    ensures Named(m, peers, target, mute) == Keyspace(m, r, target, mute)
  {
    hide KeysAt;
    forall k ensures k in Named(m, peers, target, mute) <==> k in Keyspace(m, r, target, mute) {
      if k in Keyspace(m, r, target, mute) {
        var p :| p in r.backends.Keys && r.backends[p].status == UP && p != target && k in KeysAt(m, p, mute);
        assert r.backends[p] in peers;
      }
    }
  }

  lemma HeadFirst<T>(s: seq<T>, i: nat)
    requires i < |s|
    ensures s[i..] == [s[i]] + s[i + 1..]
  {
  }

  class HealthChecker {
    const router: Router
    const network: Network
    const recovery: RecoveryManager

    constructor (router: Router, network: Network)
      ensures this.router == router && this.network == network && Wired()
    {
      this.router, this.network := router, network;
      recovery := new RecoveryManager(router, network);
    }

    ghost predicate Wired() {
      recovery.router == router && recovery.network == network
    }

    ghost function At(h: Health): Cluster
      reads this, network, router, router.hashRing
    {
      Cluster(network.machines, router.State(), h)
    }

    method PingBackend(backend: Backend, quiet: Quiet) returns (alive: bool)
      ensures alive == PingAnswered(network.machines, backend.port, quiet)
    {
      alive := Accepts(network.machines, backend.port) && backend.port !in quiet.pings;
    }

    /** One backend of the snapshot: from `Pass(todo)` to `Pass(todo[1..])`. */
    method CheckOne(backend: Backend, quiet: Quiet, ghost todo: seq<Backend>, ghost start: Cluster, ghost done: seq<Step>)
      returns (thrown: bool, ghost steps: seq<Step>, ghost last: Health)
      requires Wired() && KeyedByPort(router.State()) && todo != [] && todo[0] == backend
      requires Ran(router.hashRing.cfg, start, done, At(Pass(todo)))
      modifies router, router.hashRing, network
      ensures KeyedByPort(router.State())
      ensures Ran(router.hashRing.cfg, start, steps, At(last))
      ensures if thrown then last.Gone? else last == Pass(todo[1..])
      ensures thrown || (network.machines, router.State()) ==
        Checked(router.hashRing.cfg, old(network.machines), old(router.State()), backend, quiet)
      ensures router.hashRing.cfg.vnodes > 0 && backend.port in old(router.backends) ==> !thrown
    {
      hide Ran, Restored, Keyspace, MarkUp;
      var alive := PingBackend(backend, quiet);
      RanMore(router.hashRing.cfg, start, done, At(Pass(todo)), Ping(alive));
      RanMore(router.hashRing.cfg, start, done + [Ping(alive)], At(Pinged(todo, alive)), React);
      steps := done + [Ping(alive)] + [React];
      thrown, last := false, Pass(todo[1..]);
      if alive {
        if backend.status == DOWN {
          SomePoint(router.hashRing.cfg, router.State(), backend.port);
          router.MarkBackendRecovering(backend.port);
          thrown, steps, last := RecoverAndPromote(backend, quiet, todo[1..], start, steps);
        }
      } else {
        if backend.status == UP || backend.status == RECOVERING {
          router.MarkBackendDown(backend.port);
        }
      }
    }

    method RecoverAndPromote(backend: Backend, quiet: Quiet, ghost todo: seq<Backend>, ghost start: Cluster,
        ghost done: seq<Step>)
      returns (thrown: bool, ghost steps: seq<Step>, ghost last: Health)
      requires Wired() && KeyedByPort(router.State())
      requires Ran(router.hashRing.cfg, start, done, At(Begun(todo, backend.port)))
      modifies router, router.hashRing, network
      ensures KeyedByPort(router.State())
      ensures Ran(router.hashRing.cfg, start, steps, At(last))
      ensures if thrown then last.Gone? else last == Pass(todo)
      ensures thrown ==> old(router.State()).ring == map[]
      ensures !thrown ==> router.State() == MarkUp(router.hashRing.cfg, old(router.State()), backend.port)
      ensures thrown || network.machines ==
        Restored(router.hashRing.cfg, old(network.machines), old(router.State()), backend.port, quiet,
          Keyspace(old(network.machines), old(router.State()), backend.port, quiet.lists(backend.port)))
    {
      hide Ran, Restored, Keyspace;
      ghost var begun := At(Begun(todo, backend.port));
      ghost var inside;
      thrown, inside, last := recovery.Recover(backend, quiet, todo);
      RanAppend(router.hashRing.cfg, start, done, begun, inside, At(last));
      steps := done + inside;
      if !thrown {
        RanMore(router.hashRing.cfg, start, steps, At(last), Promote);
        steps, last := steps + [Promote], Pass(todo);
        router.MarkBackendUp(backend.port);
      }
    }

    /** The body of the endless loop of `run`, without its pause, undisturbed.  A backend
        that answers its ping is UP afterwards if it was DOWN, and as it was otherwise;
        one that does not is DOWN.  An exception needs a ring without virtual nodes. */
    method RunOnce(quiet: Quiet)
      returns (thrown: bool, ghost snapshot: seq<Backend>, ghost steps: seq<Step>, ghost last: Health)
      requires Wired() && KeyedByPort(router.State())
      modifies router, router.hashRing, network
      ensures KeyedByPort(router.State())
      ensures Ran(router.hashRing.cfg, old(At(Idle)), steps, At(last))
      ensures if thrown then last.Gone? else last == Idle
      ensures Listed(old(router.State()), snapshot, old(router.State()).backends.Keys, {UP, RECOVERING, DOWN})
      ensures thrown || (network.machines, router.State()) ==
        CheckedAll(router.hashRing.cfg, old(network.machines), old(router.State()), snapshot, quiet)
      ensures !thrown ==> router.backends.Keys == old(router.backends).Keys
      ensures !thrown ==> forall p :: p in router.backends ==> var b := old(router.backends)[p];
        router.backends[p] ==
          if !Accepts(old(network.machines), p) || p in quiet.pings then b.(status := DOWN)
          else if b.status == DOWN then b.(status := UP) else b
      ensures router.hashRing.cfg.vnodes > 0 ==> !thrown
    {
      hide Ran, Checked;
      ghost var start := At(Idle);
      ghost var m, r := network.machines, router.State();
      var backends := router.GetAllBackends();
      snapshot := backends;
      SnapshotIs(r, backends);
      assert backends[0..] == backends && backends[..0] == [];
      RanNone(router.hashRing.cfg, start);
      RanMore(router.hashRing.cfg, start, [], start, StartPass(backends));
      steps := [] + [StartPass(backends)];
      for i := 0 to |backends|
        invariant KeyedByPort(router.State())
        invariant Ran(router.hashRing.cfg, start, steps, At(Pass(backends[i..])))
        invariant (network.machines, router.State()) == CheckedAll(router.hashRing.cfg, m, r, backends[..i], quiet)
      {
        assert backends[i..][1..] == backends[i + 1..] && backends[..i + 1][..i] == backends[..i];
        StillKnown(router.hashRing.cfg, m, r, backends, i, quiet);
        thrown, steps, last := CheckOne(backends[i], quiet, backends[i..], start, steps);
        if thrown {
          return;
        }
      }
      assert backends[|backends|..] == [] && backends[..|backends|] == backends;
      RanMore(router.hashRing.cfg, start, steps, At(Pass([])), EndPass);
      steps := steps + [EndPass];
      thrown, last := false, Idle;
      PassStatuses(router.hashRing.cfg, m, r, backends, quiet);
      EveryRecord(r, backends);
    }
  }

  lemma SomePoint(cfg: Config, r: RouterState, port: int)
    ensures port in r.backends && cfg.vnodes > 0 ==> MarkRecovering(cfg, r, port).ring != map[]
  {
    if port in r.backends && cfg.vnodes > 0 {
      var b := r.backends[port].(status := RECOVERING);
      assert VnodeHash(cfg, b, 0) in MarkRecovering(cfg, r, port).ring;
    }
  }

  lemma SnapshotIs(r: RouterState, snapshot: seq<Backend>)
    requires KeyedByPort(r) && Listed(r, snapshot, r.backends.Keys, {UP, RECOVERING, DOWN})
    ensures DistinctRecords(r, snapshot)
  {
  }

  lemma EveryRecord(r: RouterState, snapshot: seq<Backend>)
    requires KeyedByPort(r) && Listed(r, snapshot, r.backends.Keys, {UP, RECOVERING, DOWN})
    ensures forall p :: p in r.backends ==> r.backends[p] in snapshot && r.backends[p].port == p
  {
    forall p | p in r.backends ensures r.backends[p] in snapshot {
      var b := r.backends[p];
      assert b.status.UP? || b.status.RECOVERING? || b.status.DOWN?;
      assert b.port == p && Serves(r, b, {UP, RECOVERING, DOWN});
    }
  }

  lemma StillKnown(cfg: Config, m: Machines, r: RouterState, snapshot: seq<Backend>, i: nat, quiet: Quiet)
    requires DistinctRecords(r, snapshot) && i < |snapshot|
    ensures snapshot[i].port in CheckedAll(cfg, m, r, snapshot[..i], quiet).1.backends
  {
    hide CheckedAll;
    assert DistinctRecords(r, snapshot[..i]);
    PassStatuses(cfg, m, r, snapshot[..i], quiet);
    var r' := CheckedAll(cfg, m, r, snapshot[..i], quiet).1;
    assert snapshot[i] in snapshot && r'.backends.Keys == r.backends.Keys;
    assert snapshot[i].port in r'.backends.Keys;
  }

  lemma RanLess(cfg: Config, s: Cluster, steps: seq<Step>, e: Cluster) returns (before: Cluster)
    requires Ran(cfg, s, steps, e) && steps != []
    ensures Ran(cfg, s, steps[..|steps| - 1], before)
    ensures Possible(before, steps[|steps| - 1]) && e == Next(cfg, before, steps[|steps| - 1])
  {
    before := After(cfg, s, steps[..|steps| - 1]);
  }

  lemma {:induction false} RanAppend(cfg: Config, s: Cluster, a: seq<Step>, m: Cluster, b: seq<Step>, e: Cluster)
    requires Ran(cfg, s, a, m) && Ran(cfg, m, b, e)
    ensures Ran(cfg, s, a + b, e)
    decreases |b|
  {
    if b == [] {
      assert a + b == a;
    } else {
      var init, last := b[..|b| - 1], b[|b| - 1];
      var before := RanLess(cfg, m, b, e);
      RanAppend(cfg, s, a, m, init, before);
      RanMore(cfg, s, a + init, before, last);
      AppendSnoc(a, b);
    }
  }

  lemma AppendSnoc<T>(a: seq<T>, b: seq<T>)
    requires b != []
    ensures a + b[..|b| - 1] + [b[|b| - 1]] == a + b
  {
  }
}
