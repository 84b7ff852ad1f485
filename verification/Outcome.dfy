/** What recovery and a health pass leave behind, given who answers them
    (load_balancer/src/RecoveryManager.cpp, load_balancer/src/HealthChecker.cpp). */
module Outcomes {
  import opened Text
  import opened HashRings
  import opened Routers
  import opened KvServers
  import opened Backends
  import opened Recoveries
  import opened ClusterSafety

  /** The ports of the backends that do not answer although they may accept
      connections: to a ping; and, during the recovery of a target, to the request for
      all keys, to the request for a key, and to the sync of a key. */
  datatype Quiet = Quiet(pings: set<int>, lists: int -> set<int>, fetches: (int, string) -> set<int>,
                         syncs: (int, string) -> set<int>)

  // ----- the value that is copied -----

  /** `p`, another backend than the target, answers with a value for `k`. */
  predicate Holds(m: Machines, p: int, target: int, k: string) {
    p != target && p in m && m[p].alive && k in m[p].db && m[p].db[k] != ""
  }

  /** The first of the replicas with a value. */
  ghost predicate FirstHolds(m: Machines, reps: seq<Backend>, target: int, k: string, i: int) {
    0 <= i < |reps| && Holds(m, reps[i].port, target, k) && forall j :: 0 <= j < i ==> !Holds(m, reps[j].port, target, k)
  }

  lemma {:induction false} SourceIsFirst(m: Machines, reps: seq<Backend>, target: int, k: string)
    ensures forall i :: FirstHolds(m, reps, target, k, i) ==> SourceValue(m, reps, target, k) == m[reps[i].port].db[k]
    ensures (forall i :: !FirstHolds(m, reps, target, k, i)) ==> SourceValue(m, reps, target, k) == ""
  {
    if reps == [] {
    } else {
      var rest := reps[1..];
      SourceIsFirst(m, rest, target, k);
      if Holds(m, reps[0].port, target, k) {
        assert FirstHolds(m, reps, target, k, 0);
      } else {
        forall i ensures FirstHolds(m, reps, target, k, i) ==> FirstHolds(m, rest, target, k, i - 1) {
          assert forall j :: 0 <= j < |rest| ==> rest[j] == reps[j + 1];
        }
        forall i ensures FirstHolds(m, rest, target, k, i) ==> FirstHolds(m, reps, target, k, i + 1) {
          assert forall j :: 1 <= j < |reps| ==> reps[j] == rest[j - 1];
        }
      }
    }
  }

  lemma {:induction false} SourceElsewhere(m: Machines, m': Machines, reps: seq<Backend>, target: int, k: string)
    requires m.Keys == m'.Keys && forall p :: p in m && p != target ==> m'[p] == m[p]
    ensures SourceValue(m', reps, target, k) == SourceValue(m, reps, target, k)
  {
    if reps == [] {
    } else {
      SourceElsewhere(m, m', reps[1..], target, k);
    }
  }

  // ----- the keys that are listed -----

  /** The keys that a peer's answer names. */
  function KeysAt(m: Machines, p: int, mute: set<int>): set<string> {
    if p in m && m[p].alive && p !in mute then set row, k | row in m[p].db.Keys && k in Lines(row) :: k else {}
  }

  /** The keys that the backends in service other than the target name. */
  function Keyspace(m: Machines, r: RouterState, target: int, mute: set<int>): set<string> {
    set p, k | p in r.backends.Keys && r.backends[p].status == UP && p != target && k in KeysAt(m, p, mute) :: k
  }

  lemma {:induction false} LinesOfAll(rows: seq<string>)
    ensures forall k :: k in Lines(AllKeysBody(rows)) <==> exists row :: row in rows && k in Lines(row)
  {
    if rows == [] {
    } else {
      hide Lines;
      LinesOfAll(rows[1..]);
      var body, more := AllKeysBody(rows), AllKeysBody(rows[1..]);
      RowRead(rows[0], more, body);
      assert forall k :: k in Lines(body) <==> k in Lines(rows[0]) || k in Lines(more);
      assert forall row :: row in rows <==> row == rows[0] || row in rows[1..];
    }
  }

  lemma FetchedIsKeysAt(m: Machines, p: int, mute: set<int>, rows: seq<string>)
    requires Accepts(Heard(m, mute), p) ==> RowsOf(m[p].db, rows)
    ensures FetchKeys(Heard(m, mute), p, rows) == KeysAt(m, p, mute)
  {
    hide Lines, AllKeysBody;
    LinesOfAll(rows);
  }

  /** A key of one line is named by each backend that holds it and answers. */
  lemma LineNamed(m: Machines, p: int, mute: set<int>, k: string)
    requires LineKey(k) && p in m && m[p].alive && p !in mute && k in m[p].db
    ensures k in KeysAt(m, p, mute)
  {
    FirstLine(k, "\n");
    assert k in Lines(k);
  }

  // ----- recovery -----

  /** What recovery writes at the target under `k`; "" when it writes nothing. */
  function CopyOf(cfg: Config, m: Machines, r: RouterState, target: int, quiet: Quiet, k: string): string {
    match AllTargets(cfg, r, k, 2)
    case None => ""
    case Some(reps) =>
      if target in quiet.syncs(target, k) || !Accepts(m, target) then ""
      else CopyValue(Heard(m, quiet.fetches(target, k)), reps, target, k)
  }

  function RestoredTable(cfg: Config, m: Machines, r: RouterState, target: int, quiet: Quiet, keys: set<string>): Table
    requires target in m
  {
    var copied := set k | k in keys && CopyOf(cfg, m, r, target, quiet, k) != "";
    map k | k in m[target].db.Keys + copied ::
      if k in copied then CopyOf(cfg, m, r, target, quiet, k) else m[target].db[k]
  }

  /** The machines after the copies of these keys: only the target's table changes. */
  function Restored(cfg: Config, m: Machines, r: RouterState, target: int, quiet: Quiet, keys: set<string>): Machines {
    if target in m then m[target := m[target].(db := RestoredTable(cfg, m, r, target, quiet, keys))] else m
  }

  lemma RestoreNone(cfg: Config, m: Machines, r: RouterState, target: int, quiet: Quiet)
    ensures Restored(cfg, m, r, target, quiet, {}) == m
  {
    if target in m {
      assert RestoredTable(cfg, m, r, target, quiet, {}) == m[target].db;
    }
  }

  lemma CopyElsewhere(cfg: Config, m: Machines, m': Machines, r: RouterState, target: int, quiet: Quiet, k: string)
    requires m.Keys == m'.Keys && (forall p :: p in m && p != target ==> m'[p] == m[p])
    requires target in m ==> m'[target].alive == m[target].alive
    ensures CopyOf(cfg, m', r, target, quiet, k) == CopyOf(cfg, m, r, target, quiet, k)
  {
    hide AllTargets, SourceValue;
    var reps := AllTargets(cfg, r, k, 2);
    if reps.Some? {
      SourceElsewhere(Heard(m, quiet.fetches(target, k)), Heard(m', quiet.fetches(target, k)), reps.value, target, k);
    }
  }

  /** One more copy. */
  lemma RestoreOne(cfg: Config, m: Machines, r: RouterState, target: int, quiet: Quiet, keys: set<string>, k: string)
    requires k !in keys
    ensures var here, v := Restored(cfg, m, r, target, quiet, keys), CopyOf(cfg, m, r, target, quiet, k);
      && CopyOf(cfg, here, r, target, quiet, k) == v
      && Restored(cfg, m, r, target, quiet, keys + {k}) == if v == "" then here else SyncValue(here, target, k, v)
  {
    hide CopyOf;
    var here, v := Restored(cfg, m, r, target, quiet, keys), CopyOf(cfg, m, r, target, quiet, k);
    CopyElsewhere(cfg, m, here, r, target, quiet, k);
    CopyReaches(cfg, m, r, target, quiet, k);
    if target in m {
      var before, after := RestoredTable(cfg, m, r, target, quiet, keys), RestoredTable(cfg, m, r, target, quiet, keys + {k});
      if v == "" {
        assert after == before;
      } else {
        assert after == before[k := v];
      }
    }
  }

  lemma CopyReaches(cfg: Config, m: Machines, r: RouterState, target: int, quiet: Quiet, k: string)
    ensures CopyOf(cfg, m, r, target, quiet, k) != "" ==> Accepts(m, target) && target !in quiet.syncs(target, k)
  {
    hide AllTargets, CopyValue, Heard;
  }

  /** Those who do not answer the request for the key are as good as dead. */
  lemma HeardHolds(m: Machines, reps: seq<Backend>, target: int, mute: set<int>, k: string, i: int)
    ensures FirstHolds(Heard(m, mute), reps, target, k, i) <==>
      && 0 <= i < |reps| && Holds(m, reps[i].port, target, k) && reps[i].port !in mute
      && forall j :: 0 <= j < i ==> reps[j].port in mute || !Holds(m, reps[j].port, target, k)
  {
    forall p ensures Holds(Heard(m, mute), p, target, k) <==> p !in mute && Holds(m, p, target, k) {
    }
  }

  /** A backend in service, other than the target, that lists its keys. */
  predicate Lists(m: Machines, r: RouterState, target: int, quiet: Quiet, p: int) {
    && p in r.backends && r.backends[p].status == UP && p != target && p in m && m[p].alive
    && p !in quiet.lists(target)
  }

  /** The target ends up with the first value that those of its other replicas hold who
      answer, for every key of which it is a replica and that some backend in service
      other than itself has and lists; and where none of them holds one, with what it
      had.  The tables of the others stay. */
  lemma RestoredHolds(cfg: Config, m: Machines, r: RouterState, target: int, quiet: Quiet, k: string, reps: seq<Backend>,
      p: int, i: int, m': Machines)
    requires m' == Restored(cfg, m, r, target, quiet, Keyspace(m, r, target, quiet.lists(target)))
    requires Accepts(m, target) && target !in quiet.syncs(target, k) && LineKey(k)
    requires Lists(m, r, target, quiet, p) && k in m[p].db
    requires AllTargets(cfg, r, k, 2) == Some(reps) && exists b :: b in reps && b.port == target
    ensures forall q :: q in m && q != target ==> q in m' && m'[q] == m[q]
    ensures target in m' && m'[target].alive
    ensures var heard := Heard(m, quiet.fetches(target, k));
      && (FirstHolds(heard, reps, target, k, i) ==> EntryOf(m'[target].db, k) == Some(m[reps[i].port].db[k]))
      && ((forall j :: !FirstHolds(heard, reps, target, k, j)) ==> EntryOf(m'[target].db, k) == EntryOf(m[target].db, k))
  {
    hide AllTargets, SourceValue, Lines;
    LineNamed(m, p, quiet.lists(target), k);
    assert k in Keyspace(m, r, target, quiet.lists(target));
    SourceIsFirst(Heard(m, quiet.fetches(target, k)), reps, target, k);
  }

  /** A key that no backend in service but the target has and lists is not touched, nor
      is one whose sync the target does not answer. */
  lemma NotCopied(cfg: Config, m: Machines, r: RouterState, target: int, quiet: Quiet, k: string, m': Machines)
    requires m' == Restored(cfg, m, r, target, quiet, Keyspace(m, r, target, quiet.lists(target))) && target in m
    requires forall p, row :: p in m && row in m[p].db ==> LineKey(row)
    requires target in quiet.syncs(target, k) || forall p :: Lists(m, r, target, quiet, p) ==> k !in m[p].db
    ensures target in m' && EntryOf(m'[target].db, k) == EntryOf(m[target].db, k)
  {
    hide AllTargets, SourceValue, Heard, Lines, CopyValue, LineKey;
    if target !in quiet.syncs(target, k) {
      assert k !in Keyspace(m, r, target, quiet.lists(target)) by {
        forall p | Lists(m, r, target, quiet, p) ensures k !in KeysAt(m, p, quiet.lists(target)) {
          OwnLines(m, p, k);
        }
      }
    }
  }

  lemma OwnLines(m: Machines, p: int, k: string)
    requires p in m && k !in m[p].db && forall row :: row in m[p].db ==> LineKey(row)
    ensures forall row :: row in m[p].db ==> k !in Lines(row)
  {
    hide Lines;
    forall row | row in m[p].db ensures k !in Lines(row) {
      FirstLine(row, "\n");
    }
  }

  /** No other key is touched. */
  lemma RestoredSpares(cfg: Config, m: Machines, r: RouterState, target: int, quiet: Quiet, keys: set<string>, k: string,
      m': Machines)
    requires m' == Restored(cfg, m, r, target, quiet, keys) && target in m
    requires k !in keys || (AllTargets(cfg, r, k, 2).Some? &&
      forall b :: b in AllTargets(cfg, r, k, 2).value ==> b.port != target)
    ensures target in m' && EntryOf(m'[target].db, k) == EntryOf(m[target].db, k)
  {
    hide AllTargets, SourceValue, Heard;
  }

  // ----- a pass -----

  predicate PingAnswered(m: Machines, p: int, quiet: Quiet) {
    Accepts(m, p) && p !in quiet.pings
  }

  /** What becomes of one backend of the snapshot. */
  function Checked(cfg: Config, m: Machines, r: RouterState, b: Backend, quiet: Quiet): (Machines, RouterState) {
    if PingAnswered(m, b.port, quiet) then
      if b.status == DOWN then
        var r' := MarkRecovering(cfg, r, b.port);
        (Restored(cfg, m, r', b.port, quiet, Keyspace(m, r', b.port, quiet.lists(b.port))), MarkUp(cfg, r', b.port))
      else (m, r)
    else if b.status == UP || b.status == RECOVERING then (m, MarkDown(cfg, r, b.port))
    else (m, r)
  }

  function CheckedAll(cfg: Config, m: Machines, r: RouterState, snapshot: seq<Backend>, quiet: Quiet)
    : (Machines, RouterState)
  {
    if snapshot == [] then (m, r)
    else
      var n := |snapshot| - 1;
      var (m', r') := CheckedAll(cfg, m, r, snapshot[..n], quiet);
      Checked(cfg, m', r', snapshot[n], quiet)
  }

  /** The status after a ping. */
  function AfterPing(status: Status, answered: bool): Status {
    if !answered then DOWN else if status == DOWN then UP else status
  }

  lemma CheckedStatus(cfg: Config, m: Machines, r: RouterState, b: Backend, quiet: Quiet)
    requires b.port in r.backends && r.backends[b.port] == b
    ensures Checked(cfg, m, r, b, quiet).1.backends ==
      r.backends[b.port := b.(status := AfterPing(b.status, PingAnswered(m, b.port, quiet)))]
  {
    hide AddTo, RemoveFrom, Restored, Keyspace;
    assert r.backends == r.backends[b.port := b];
  }

  lemma CheckedTables(cfg: Config, m: Machines, r: RouterState, b: Backend, quiet: Quiet)
    ensures var m' := Checked(cfg, m, r, b, quiet).0;
      && m'.Keys == m.Keys && (forall p :: p in m ==> m'[p].alive == m[p].alive)
      && (forall p :: p in m && m'[p] != m[p] ==> p == b.port && b.status == DOWN && PingAnswered(m, p, quiet))
  {
    hide AddTo, RemoveFrom, RestoredTable, Keyspace;
  }

  /** The tables of this pass are those of backends that were DOWN and answered. */
  lemma {:induction false} PassTables(cfg: Config, m: Machines, r: RouterState, snapshot: seq<Backend>, quiet: Quiet)
    ensures var m' := CheckedAll(cfg, m, r, snapshot, quiet).0;
      && m'.Keys == m.Keys && (forall p :: p in m ==> m'[p].alive == m[p].alive)
      && (forall p :: p in m && m'[p] != m[p] ==>
        (exists b :: b in snapshot && b.port == p && b.status == DOWN) && PingAnswered(m, p, quiet))
  {
    if snapshot == [] {
    } else {
      hide Checked, PingAnswered;
      var init, b := snapshot[..|snapshot| - 1], snapshot[|snapshot| - 1];
      assert snapshot == init + [b];
      InSnoc(init, b);
      PassTables(cfg, m, r, init, quiet);
      var (m1, r1) := CheckedAll(cfg, m, r, init, quiet);
      OneMoreChecked(cfg, m, r, snapshot, quiet);
      hide CheckedAll;
      CheckedTables(cfg, m1, r1, b, quiet);
      SamePings(m, m1, quiet);
    }
  }

  lemma SamePings(m: Machines, m': Machines, quiet: Quiet)
    requires m'.Keys == m.Keys && forall p :: p in m ==> m'[p].alive == m[p].alive
    ensures forall p :: PingAnswered(m', p, quiet) == PingAnswered(m, p, quiet)
  {
  }

  ghost predicate DistinctRecords(r: RouterState, snapshot: seq<Backend>) {
    && (forall i, j :: 0 <= i < j < |snapshot| ==> snapshot[i].port != snapshot[j].port)
    && (forall b :: b in snapshot ==> b.port in r.backends && r.backends[b.port] == b)
  }

  /** A backend that answers its ping is UP after the pass if it was DOWN, and as it was
      otherwise; one that does not is DOWN. */
  lemma {:induction false} PassStatuses(cfg: Config, m: Machines, r: RouterState, snapshot: seq<Backend>, quiet: Quiet)
    requires DistinctRecords(r, snapshot)
    ensures var r' := CheckedAll(cfg, m, r, snapshot, quiet).1;
      && r'.backends.Keys == r.backends.Keys
      && (forall b :: b in snapshot ==>
        r'.backends[b.port] == b.(status := AfterPing(b.status, PingAnswered(m, b.port, quiet))))
      && (forall p :: p in r.backends && (forall b :: b in snapshot ==> b.port != p) ==> r'.backends[p] == r.backends[p])
  {
    if snapshot == [] {
    } else {
      hide Checked, AfterPing;
      var init, b := snapshot[..|snapshot| - 1], snapshot[|snapshot| - 1];
      assert snapshot == init + [b];
      InSnoc(init, b);
      LastApart(r, snapshot);
      PassStatuses(cfg, m, r, init, quiet);
      PassTables(cfg, m, r, init, quiet);
      var (m1, r1) := CheckedAll(cfg, m, r, init, quiet);
      OneMoreChecked(cfg, m, r, snapshot, quiet);
      hide CheckedAll, PingAnswered;
      CheckedStatus(cfg, m1, r1, b, quiet);
      SamePings(m, m1, quiet);
    }
  }

  lemma LastApart(r: RouterState, snapshot: seq<Backend>)
    requires DistinctRecords(r, snapshot) && snapshot != []
    ensures DistinctRecords(r, snapshot[..|snapshot| - 1])
    ensures forall c :: c in snapshot[..|snapshot| - 1] ==> c.port != snapshot[|snapshot| - 1].port
    ensures var b := snapshot[|snapshot| - 1]; b.port in r.backends && r.backends[b.port] == b
  {
    assert snapshot[|snapshot| - 1] in snapshot;
  }

  /** And the table of a backend that came back is the one that its recovery left. */
  lemma {:induction false} PassRestores(cfg: Config, m: Machines, r: RouterState, snapshot: seq<Backend>, quiet: Quiet,
      i: nat)
    requires DistinctRecords(r, snapshot) && i < |snapshot|
    requires snapshot[i].status == DOWN && PingAnswered(m, snapshot[i].port, quiet)
    ensures var (m', r') := CheckedAll(cfg, m, r, snapshot[..i], quiet);
      var t := snapshot[i].port;
      var s := MarkRecovering(cfg, r', t);
      var end, left := CheckedAll(cfg, m, r, snapshot, quiet).0,
        Restored(cfg, m', s, t, quiet, Keyspace(m', s, t, quiet.lists(t)));
      t in end && t in left && end[t] == left[t]
  {
    hide MarkRecovering, MarkUp, MarkDown, Restored, Keyspace, CheckedAll;
    var n := |snapshot| - 1;
    var init := snapshot[..n];
    LastApart(r, snapshot);
    OneMoreChecked(cfg, m, r, snapshot, quiet);
    PassTables(cfg, m, r, init, quiet);
    if i == n {
      RestoredKeys(cfg, m, r, init, quiet, snapshot[i].port);
    } else {
      assert init[i] == snapshot[i] && init[..i] == snapshot[..i] && init[i] in init;
      PassRestores(cfg, m, r, init, quiet, i);
      var (m1, r1) := CheckedAll(cfg, m, r, init, quiet);
      CheckedTables(cfg, m1, r1, snapshot[n], quiet);
    }
  }

  lemma OneMoreChecked(cfg: Config, m: Machines, r: RouterState, snapshot: seq<Backend>, quiet: Quiet)
    requires snapshot != []
    ensures var n := |snapshot| - 1;
      var (m1, r1) := CheckedAll(cfg, m, r, snapshot[..n], quiet);
      CheckedAll(cfg, m, r, snapshot, quiet) == Checked(cfg, m1, r1, snapshot[n], quiet)
  {
    hide Checked;
  }

  lemma RestoredKeys(cfg: Config, m: Machines, r: RouterState, init: seq<Backend>, quiet: Quiet, t: int)
    requires t in m
    ensures var (m', r') := CheckedAll(cfg, m, r, init, quiet);
      t in m' && forall s, keys :: t in Restored(cfg, m', s, t, quiet, keys)
  {
    hide RestoredTable;
    PassTables(cfg, m, r, init, quiet);
  }
}
