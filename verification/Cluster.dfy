/** Backend machines as the load balancer sees them, and the requests it sends. */
module Backends {
  import opened Text
  import opened HashRings
  import opened Routers
  import opened KvServers

  /** A backend process and its table; the table outlives the process. */
  datatype Machine = Machine(db: Table, alive: bool)

  type Machines = map<int, Machine>

  /** The backend machines, reachable through sockets. */
  class Network {
    var machines: Machines

    constructor (machines: Machines)
      ensures this.machines == machines
    {
      this.machines := machines;
    }
  }

  datatype ClientRequest =
    | Get(key: string)
    | Put(key: string, value: string)
    | Create(body: string)
    | Delete(key: string)

  /** The key a request is routed by. */
  function KeyOf(c: ClientRequest): string {
    match c
    case Create(body) => FirstWord(body)
    case _ => c.key
  }

  /** What a backend receives: a PUT always carries the replication header. */
  function ToServer(c: ClientRequest): Request {
    match c
    case Get(key) => ReadRequest(key)
    case Put(key, value) => UpdateRequest(key, value, true)
    case Create(body) => CreateRequest(body)
    case Delete(key) => DeleteRequest(key)
  }

  /** A connection to `port` is accepted. */
  predicate Accepts(m: Machines, port: int) {
    port in m && m[port].alive
  }

  /** What happens when a request reaches the backend at a port: its new table, and
      its response unless the connection ends before a complete one. */
  type Act = (int, Table) -> (Table, Option<Response>)

  /** A client request, as every backend should act on it. */
  function Acts(c: ClientRequest): Act {
    (port, db) => var (after, res) := Handle(db, ToServer(c)); (after, Some(res))
  }

  function Deliver(m: Machines, port: int, act: Act): (Machines, Option<Response>)
    requires port in m
  {
    var (db, res) := act(port, m[port].db);
    (m[port := m[port].(db := db)], res)
  }

  /** The backend accepts and answers completely. */
  predicate Answers(m: Machines, port: int, act: Act) {
    Accepts(m, port) && act(port, m[port].db).1.Some?
  }

  /** What the client is told: a backend's answer or 503; or the load balancer is
      terminated, because a lookup on an empty ring throws and nothing catches. */
  datatype Reply = Answer(response: Response) | Unavailable | Terminated

  /** The write path: every candidate that accepts gets the request, every other
      one is marked DOWN; the complete responses are collected. */
  function WriteLoop(cfg: Config, m: Machines, r: RouterState, candidates: seq<Backend>, act: Act)
    : (Machines, RouterState, seq<Response>)
  {
    if candidates == [] then (m, r, [])
    else
      var n := |candidates| - 1;
      var (m', r', out) := WriteLoop(cfg, m, r, candidates[..n], act);
      var port := candidates[n].port;
      if Accepts(m', port) then
        var (m'', res) := Deliver(m', port, act);
        (m'', r', if res.Some? then out + [res.value] else out)
      else (m', MarkDown(cfg, r', port), out)
  }

  /** The response relayed after a write: the last success, else the first response. */
  function Primary(out: seq<Response>): Option<Response> {
    if out == [] then None
    else
      var p, last := Primary(out[..|out| - 1]), out[|out| - 1];
      if p.None? || last.status == 200 || last.status == 201 then Some(last) else p
  }

  /** The read path: candidates in order until one answers; the others go DOWN. */
  function ReadLoop(cfg: Config, m: Machines, r: RouterState, candidates: seq<Backend>, act: Act)
    : (RouterState, Option<Response>)
    decreases |candidates|
  {
    if candidates == [] then (r, None)
    else
      var port := candidates[0].port;
      if Answers(m, port, act) then (r, act(port, m[port].db).1)
      else ReadLoop(cfg, m, MarkDown(cfg, r, port), candidates[1..], act)
  }

  /** One request, on the read or the write path, once its candidates are known. */
  function ForwardTo(cfg: Config, m: Machines, r: RouterState, read: bool, act: Act, targets: Option<seq<Backend>>)
    : (Machines, RouterState, Reply)
  {
    match targets
    case None => (m, r, Terminated)
    case Some(candidates) =>
      if candidates == [] then (m, r, Unavailable)
      else if read then
        var (r', answer) := ReadLoop(cfg, m, r, candidates, act);
        (m, r', match answer case None => Unavailable case Some(res) => Answer(res))
      else
        var (m', r', out) := WriteLoop(cfg, m, r, candidates, act);
        (m', r', match Primary(out) case None => Unavailable case Some(res) => Answer(res))
  }

  function TargetsFor(cfg: Config, r: RouterState, c: ClientRequest): Option<seq<Backend>> {
    if c.Get? then ReadTargets(cfg, r, KeyOf(c), 2) else WriteTargets(cfg, r, KeyOf(c), 2)
  }

  /** One client request through the proxy. */
  function Forward(cfg: Config, m: Machines, r: RouterState, c: ClientRequest, act: Act): (Machines, RouterState,
      Reply) {
    ForwardTo(cfg, m, r, c.Get?, act, TargetsFor(cfg, r, c))
  }
}

/** Recovery of a backend that came back (load_balancer/src/RecoveryManager.cpp). */
module Recoveries {
  import opened Text
  import opened HashRings
  import opened KvServers
  import opened Backends

  /** The non-empty lines that `getline` yields. */
  function Lines(body: string): seq<string>
    decreases |body|
  {
    if body == "" then []
    else
      var (line, rest) := GetLine(body);
      (if line == "" then [] else [line]) + Lines(rest)
  }

  /** The machines as recovery finds them when some do not answer it. */
  function Heard(m: Machines, mute: set<int>): Machines {
    map p | p in m :: m[p].(alive := m[p].alive && p !in mute)
  }

  /** The keys fetched from a peer whose table lists its rows in the given order. */
  function FetchKeys(m: Machines, port: int, rows: seq<string>): set<string> {
    if Accepts(m, port) then set k | k in Lines(AllKeysBody(rows)) else {}
  }

  /** The value of a key at a peer; "" when it is missing or the peer is gone. */
  function FetchValue(m: Machines, port: int, key: string): string {
    if !Accepts(m, port) then ""
    else
      var res := Handle(m[port].db, ReadRequest(key)).1;
      if res.status == 200 then res.body else ""
  }

  function SyncValue(m: Machines, port: int, key: string, value: string): Machines {
    if Accepts(m, port) then m[port := m[port].(db := Handle(m[port].db, SyncRequest(key, value)).0)] else m
  }

  /** The first non-empty value among the replicas other than `target`. */
  function SourceValue(m: Machines, replicas: seq<Backend>, target: int, key: string): string {
    if replicas == [] then ""
    else
      var v := if replicas[0].port != target then FetchValue(m, replicas[0].port, key) else "";
      if v != "" then v else SourceValue(m, replicas[1..], target, key)
  }

  /** The value to copy to `target`; "" when it is no replica or nothing is found. */
  function CopyValue(m: Machines, replicas: seq<Backend>, target: int, key: string): string {
    if forall b :: b in replicas ==> b.port != target then ""
    else SourceValue(m, replicas, target, key)
  }

  /** A key that survives the trip through a line of text. */
  predicate LineKey(k: string) {
    k != "" && '\n' !in k
  }

  lemma ProperIsLine(k: string)
    requires ProperKey(k)
    ensures LineKey(k)
  {
  }

  lemma {:induction false} LinesAppend(a: string, t: string)
    requires t != "" && t[0] == '\n'
    ensures Lines(a + t) == Lines(a) + Lines(t[1..])
    decreases |a|
  {
    FindChar(a, '\n');
    match Find(a, "\n")
    case None => FirstLine(a, t);
    case Some(j) =>
      var rest := a[j + 1..];
      LinesAppend(rest, t);
      LinesCut(a, j);
      CutAppended(a, t, j);
      LinesCut(a + t, j);
      Associate(if j == 0 then [] else [a[..j]], Lines(rest), Lines(t[1..]));
  }

  lemma CutAppended(a: string, t: string, j: nat)
    requires j < |a|
    ensures (a + t)[..j] == a[..j] && (a + t)[j + 1..] == a[j + 1..] + t && (a + t)[j] == a[j]
  {
  }

  lemma LinesCut(s: string, j: nat)
    requires j < |s| && s[j] == '\n' && '\n' !in s[..j]
    ensures Lines(s) == (if j == 0 then [] else [s[..j]]) + Lines(s[j + 1..])
  {
    FindCharIs(s, '\n', j);
  }

  lemma FirstLine(a: string, t: string)
    requires '\n' !in a
    requires t != "" && t[0] == '\n'
    ensures Lines(a + t) == (if a == "" then [] else [a]) + Lines(t[1..])
    ensures Lines(a) == if a == "" then [] else [a]
  {
    assert (a + t)[..|a|] == a && (a + t)[|a| + 1..] == t[1..];
    LinesCut(a + t, |a|);
    FindChar(a, '\n');
  }

  lemma RowRead(row: string, more: string, body: string)
    requires body == row + ("\n" + more)
    ensures Lines(body) == Lines(row) + Lines(more) && (LineKey(row) ==> Lines(row) == [row])
  {
    var t := "\n" + more;
    LinesAppend(row, t);
    assert t[1..] == more;
    if LineKey(row) {
      FirstLine(row, t);
    }
  }

  /** Every proper key of the peer's table is found in its answer, and if all are
      proper nothing else is. */
  lemma {:induction false} LinesOfRows(rows: seq<string>)
    ensures forall k :: k in rows && LineKey(k) ==> k in Lines(AllKeysBody(rows))
    ensures (forall k :: k in rows ==> LineKey(k)) ==> Lines(AllKeysBody(rows)) == rows
  {
    if rows == [] {
    } else {
      hide Lines;
      LinesOfRows(rows[1..]);
      assert rows == [rows[0]] + rows[1..];
      RowRead(rows[0], AllKeysBody(rows[1..]), AllKeysBody(rows));
    }
  }
}

/** The running system: client requests, crashes, and the health checker
    (load_balancer/src/HealthChecker.cpp) interleaved step by step. */
module Clusters {
  import opened Text
  import opened HashRings
  import opened Routers
  import opened KvServers
  import opened Backends
  import opened Recoveries

  /** Where the health checker's thread is: between passes; inside a pass over a
      snapshot, before or after the ping of its first backend; inside `recover` for a
      target; or nowhere, because the load balancer has been terminated. */
  datatype Health =
    | Idle
    | Pass(todo: seq<Backend>)
    | Pinged(todo: seq<Backend>, alive: bool)
    | Begun(todo: seq<Backend>, target: int)
    | Fetching(todo: seq<Backend>, target: int, peers: seq<Backend>, keys: set<string>)
    | Copying(todo: seq<Backend>, target: int, left: seq<string>)
    | Syncing(todo: seq<Backend>, target: int, left: seq<string>, key: string, value: string)
    | Gone(was: Health)

  datatype Cluster = Cluster(machines: Machines, router: RouterState, health: Health)

  /** The parameters of a step carry the choices the sources leave open: what the
      backends do with a request, whether a ping is answered, which backends do not
      answer recovery, the order of an `unordered_map` and of a table's rows. */
  datatype Step =
    | Client(c: ClientRequest, act: Act)
    | Suspect(port: int)
    | Crash(port: int)
    | Restart(port: int)
    | StartPass(snapshot: seq<Backend>)
    | EndPass
    | Ping(alive: bool)
    | React
    | ListPeers(online: seq<Backend>)
    | FetchFrom(rows: seq<string>, mute: set<int>)
    | StartCopy
    | CopyFetch(mute: set<int>)
    | CopySync(mute: set<int>)
    | Promote

  const ALL: set<Status> := {UP, RECOVERING, DOWN}

  /** The step is at the thread's program point and its choices are real ones. */
  ghost predicate Possible(s: Cluster, step: Step) {
    match step
    case Client(_, _) => !s.health.Gone?
    case Suspect(_) => !s.health.Gone?
    case Crash(port) => port in s.machines
    case Restart(port) => port in s.machines
    case StartPass(snapshot) => s.health.Idle? && Listed(s.router, snapshot, s.router.backends.Keys, ALL)
    case EndPass => s.health.Pass? && s.health.todo == []
    case Ping(alive) =>
      s.health.Pass? && s.health.todo != [] && (alive ==> Accepts(s.machines, s.health.todo[0].port))
    case React => s.health.Pinged? && s.health.todo != []
    case ListPeers(online) => s.health.Begun? && Listed(s.router, online, s.router.backends.Keys, {UP})
    case FetchFrom(rows, mute) =>
      && s.health.Fetching? && s.health.peers != []
      && (Accepts(Heard(s.machines, mute), s.health.peers[0].port) ==> RowsOf(s.machines[s.health.peers[0].port].db, rows))
    case StartCopy => s.health.Fetching? && s.health.peers == []
    case CopyFetch(_) => s.health.Copying? && s.health.left != []
    case CopySync(_) => s.health.Syncing?
    case Promote => s.health.Copying? && s.health.left == []
  }

  function SetAlive(m: Machines, port: int, alive: bool): Machines {
    if port in m then m[port := m[port].(alive := alive)] else m
  }

  /** What follows the answer of a ping. */
  function Reacted(cfg: Config, s: Cluster, todo: seq<Backend>, alive: bool): Cluster
    requires todo != []
  {
    var b, rest := todo[0], todo[1..];
    if alive then
      if b.status == DOWN then
        s.(router := MarkRecovering(cfg, s.router, b.port), health := Begun(rest, b.port))
      else s.(health := Pass(rest))
    else if b.status == UP || b.status == RECOVERING then
      s.(router := MarkDown(cfg, s.router, b.port), health := Pass(rest))
    else s.(health := Pass(rest))
  }

  /** The first half of a round of the copy loop, once the replicas are known. */
  function Fetched(m: Machines, h: Health, replicas: Option<seq<Backend>>): Health
    requires h.Copying? && h.left != []
  {
    match replicas
    case None => Gone(h)
    case Some(reps) =>
      var value := CopyValue(m, reps, h.target, h.left[0]);
      if value == "" then Copying(h.todo, h.target, h.left[1..])
      else Syncing(h.todo, h.target, h.left[1..], h.left[0], value)
  }

  function Next(cfg: Config, s: Cluster, step: Step): Cluster {
    match step
    case Client(c, act) =>
      var (m, r, reply) := Forward(cfg, s.machines, s.router, c, act);
      Cluster(m, r, if reply.Terminated? then Gone(s.health) else s.health)
    case Suspect(port) => s.(router := MarkDown(cfg, s.router, port))
    case Crash(port) => s.(machines := SetAlive(s.machines, port, false))
    case Restart(port) => s.(machines := SetAlive(s.machines, port, true))
    case StartPass(snapshot) => s.(health := Pass(snapshot))
    case EndPass => s.(health := Idle)
    case Ping(alive) => if s.health.Pass? then s.(health := Pinged(s.health.todo, alive)) else s
    case React =>
      if s.health.Pinged? && s.health.todo != [] then Reacted(cfg, s, s.health.todo, s.health.alive) else s
    case ListPeers(online) =>
      if s.health.Begun? then s.(health := Fetching(s.health.todo, s.health.target, online, {})) else s
    case FetchFrom(rows, mute) =>
      if s.health.Fetching? && s.health.peers != [] then
        var h := s.health;
        var port := h.peers[0].port;
        var found := if port == h.target then {} else FetchKeys(Heard(s.machines, mute), port, rows);
        s.(health := Fetching(h.todo, h.target, h.peers[1..], h.keys + found))
      else s
    case StartCopy =>
      if s.health.Fetching? then s.(health := Copying(s.health.todo, s.health.target, InOrder(s.health.keys))) else s
    case CopyFetch(mute) =>
      if s.health.Copying? && s.health.left != [] then
        s.(health := Fetched(Heard(s.machines, mute), s.health, AllTargets(cfg, s.router, s.health.left[0], 2)))
      else s
    case CopySync(mute) =>
      if s.health.Syncing? then
        var h := s.health;
        var m := if h.target in mute then s.machines else SyncValue(s.machines, h.target, h.key, h.value);
        s.(machines := m, health := Copying(h.todo, h.target, h.left))
      else s
    case Promote =>
      if s.health.Copying? then
        s.(router := MarkUp(cfg, s.router, s.health.target), health := Pass(s.health.todo))
      else s
  }

  /** The state after a run. */
  function After(cfg: Config, s: Cluster, steps: seq<Step>): Cluster {
    if steps == [] then s
    else Next(cfg, After(cfg, s, steps[..|steps| - 1]), steps[|steps| - 1])
  }

  function ReplyTo(cfg: Config, s: Cluster, c: ClientRequest, act: Act): Reply {
    Forward(cfg, s.machines, s.router, c, act).2
  }

  // ----- what clients may expect -----

  /** The store as one map: PUT sets, create inserts if absent, DELETE removes. */
  function Effect(abs: Table, c: ClientRequest): Table {
    match c
    case Get(_) => abs
    case Put(key, value) => abs[key := value]
    case Create(body) =>
      if FirstWord(body) in abs then abs else abs[FirstWord(body) := CreateValueOf(body)]
    case Delete(key) => abs - {key}
  }

  function AbsNext(abs: Table, step: Step): Table {
    if step.Client? then Effect(abs, step.c) else abs
  }

  /** The map that the client requests of a run build, whatever happens to machines. */
  function Contents(abs: Table, steps: seq<Step>): Table {
    if steps == [] then abs else AbsNext(Contents(abs, steps[..|steps| - 1]), steps[|steps| - 1])
  }

  /** The right answer to a GET. */
  function Expected(abs: Table, key: string): Response {
    if key in abs then Response(200, abs[key]) else Response(404, "Key not Found\n")
  }
}
