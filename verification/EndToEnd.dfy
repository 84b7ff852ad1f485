/** From the bytes of a client's connection to the guarantees of the running system. */
module EndToEnd {
  import opened Text
  import opened HashRings
  import opened Routers
  import opened KvServers
  import opened Backends
  import opened Clusters
  import opened ClusterSafety
  import opened Guarantees
  import opened HttpHelpers
  import opened HttpLaws
  import opened Routes
  import opened Framings
  import opened Sessions

  /** The request is one of the store's clients, on a proper key. */
  predicate Known(q: HttpRequest) {
    ToClient(q).Some? && ProperKey(KeyOf(ToClient(q).value))
  }

  /** The request is accepted but not answered. */
  ghost predicate Hangs(env: Env, s: Cluster, payload: string, p: int) {
    Accepts(s.machines, p) && env.fate(p, s.machines[p].db, payload).Unanswered?
  }

  /** Writes are applied where they are accepted; a GET that is left unanswered is a
      fault of one backend. */
  ghost predicate Obliging(env: Env, s: Cluster, c: ClientRequest, payload: string) {
    && (!c.Get? ==> forall p :: Hangs(env, s, payload, p) ==> env.fate(p, s.machines[p].db, payload).applied)
    && (c.Get? ==> forall p :: Hangs(env, s, payload, p) ==> MayFail(s, p))
    && (c.Get? ==> forall p, q :: Hangs(env, s, payload, p) && Hangs(env, s, payload, q) ==> p == q)
  }

  /** Bytes of a client request are acted on as the step system assumes. */
  lemma BytesObey(env: Env, s: Cluster, q: HttpRequest, c: ClientRequest)
    requires Taken(q) && ToClient(q) == Some(c) && ProperKey(KeyOf(c)) && Obliging(env, s, c, Payload(q))
    ensures ActOk(s, c, OnBytes(env, Payload(q)))
  {
    PayloadMeans(q, c);
    ObeyBytes(env, s, c, Payload(q));
  }

  lemma ObeyBytes(env: Env, s: Cluster, c: ClientRequest, payload: string)
    requires Meaning(payload) == Some(ToServer(c)) && Obliging(env, s, c, payload)
    ensures ActOk(s, c, OnBytes(env, payload))
  {
    hide Meaning, MayFail;
    var act := OnBytes(env, payload);
    forall p | Accepts(s.machines, p) ensures Obeys(s.machines[p].db, c, act, p) && (Silent(s, act, p) ==> Hangs(env, s, payload, p)) {
      assert Handled(env, payload, s.machines[p].db) == Handle(s.machines[p].db, ToServer(c));
    }
  }

  /** A GET that arrives as bytes, at any point of a legal run, is answered with the
      last write of its key, and the session goes on. */
  lemma GetOverHttp(u: Setup, s: Cluster, abs: Table, steps: seq<Step>, e: Cluster, env: Env,
      replies: seq<Reply>, buffer: string, key: string)
    requires GoodSetup(u) && Initial(u, s, abs) && Legal(u, s, abs, steps) && e == After(u.cfg, s, steps)
    requires ParseRequest(buffer).Complete? && ToClient(ParseRequest(buffer).request) == Some(Get(key)) && ProperKey(key)
    requires Obliging(env, e, Get(key), Payload(ParseRequest(buffer).request))
    ensures var (after, stop) := ServeOne(u.cfg, env, State(e.machines, e.router, replies), ParseRequest(buffer).request);
      after.replies == replies + [Answer(Expected(Contents(abs, steps), key))] && !stop
  {
    hide GoodSetup, Initial, Legal, After, Contents, ParseRequest, ToClient, Payload, Forward, ServeOne, Obliging;
    var q, st := ParseRequest(buffer).request, State(e.machines, e.router, replies);
    TakenFromBuffer(buffer);
    BytesObey(env, e, q, Get(key));
    BytesAreClientStep(u.cfg, env, st, q, Get(key));
    GetReturnsLastWrite(u, s, abs, steps, key, OnBytes(env, Payload(q)));
    AnsweredGoesOn(u.cfg, env, st, q);
  }

  /** A session ends only without an answer. */
  lemma AnsweredGoesOn(cfg: Config, env: Env, s: State, q: HttpRequest)
    ensures var (after, stop) := ServeOne(cfg, env, s, q);
      |after.replies| == |s.replies| + 1 && (after.replies[|s.replies|].Answer? ==> !stop)
  {
  }

  // ----- a value written and read back over one connection -----

  /** A request that announces its body with its true length. */
  predicate Announces(q: HttpRequest, lines: seq<string>) {
    && Printable(q.verb, q.path, q.version, lines) && lines != []
    && LengthSaid(RequestLine(q.verb, q.path, q.version), lines) == |q.body|
    && q.rawRequest == Print(q.verb, q.path, q.version, lines, q.body)
  }

  lemma AnnouncedParse(q: HttpRequest, lines: seq<string>)
    requires Announces(q, lines)
    ensures ParseRequest(q.rawRequest) == Complete(q, |q.rawRequest|) && q.rawRequest != ""
  {
    PrintParse(q.verb, q.path, q.version, lines, q.body);
  }

  /** A write that has candidates does not end the session. */
  lemma WriteGoesOn(cfg: Config, env: Env, st: State, q: HttpRequest, c: ClientRequest, targets: seq<Backend>)
    requires ToClient(q) == Some(c) && ProperKey(KeyOf(c)) && !c.Get?
    requires WriteTargets(cfg, st.router, KeyOf(c), 2) == Some(targets) && targets != []
    ensures !ServeOne(cfg, env, st, q).1
  {
    AsInStepSystem(q);
    hide ForwardTo, WriteTargets, GetKey, Route, Payload, ToClient;
  }

  /** Two requests in one stream. */
  lemma DrainTwo(h: Handler<State>, st: State, first: HttpRequest, second: HttpRequest, bytes: string)
    requires ParseRequest(first.rawRequest) == Complete(first, |first.rawRequest|) && first.rawRequest != ""
    requires ParseRequest(second.rawRequest) == Complete(second, |second.rawRequest|) && second.rawRequest != ""
    requires bytes == first.rawRequest + second.rawRequest && !h(st, first).1 && !h(h(st, first).0, second).1
    ensures Drain(h, st, bytes) == Outcome(h(h(st, first).0, second).0, [first, second], "", Waiting)
  {
    hide ParseRequest;
    var st', a, b := h(st, first).0, first.rawRequest, second.rawRequest;
    ParseStable(a, b);
    assert bytes[|a|..] == b && b[|b|..] == "";
    assert Drain(h, h(st', second).0, "") == Outcome(h(st', second).0, [], "", Waiting);
    assert Drain(h, st', b) == Prepend([second], Outcome(h(st', second).0, [], "", Waiting));
    assert [first] + ([second] + []) == [first, second];
  }

  /** The PUT's bytes are a step of the run, which goes on. */
  lemma PutServed(u: Setup, s: Cluster, abs: Table, steps: seq<Step>, env: Env, st: State, key: string, value: string,
      put: HttpRequest) returns (first: Reply)
    requires ToClient(put) == Some(Put(key, value))
    requires GoodSetup(u) && Initial(u, s, abs) && ProperKey(key) && Shows(st, After(u.cfg, s, steps))
    requires Legal(u, s, abs, steps + [Client(Put(key, value), OnBytes(env, Payload(put)))])
    ensures var written := steps + [Client(Put(key, value), OnBytes(env, Payload(put)))];
      var (st', stop) := ServeOne(u.cfg, env, st, put);
      !stop && Shows(st', After(u.cfg, s, written)) && st'.replies == st.replies + [first]
  {
    hide GoodSetup, Initial, Legal, After, Contents, Payload, Forward, ToClient, ServeOne, WriteTargets;
    var act := OnBytes(env, Payload(put));
    LegalPrefix(u, s, abs, steps, Client(Put(key, value), act));
    var targets := WritesAcknowledged(u, s, abs, steps, After(u.cfg, s, steps), Put(key, value), act);
    WriteGoesOn(u.cfg, env, st, put, Put(key, value), targets);
    BytesAreClientStep(u.cfg, env, st, put, Put(key, value));
    first := Forward(u.cfg, st.machines, st.router, Put(key, value), act).2;
  }

  /** And the GET's bytes are answered with the value. */
  lemma GetServed(u: Setup, s: Cluster, abs: Table, steps: seq<Step>, env: Env, st: State, key: string, value: string,
      act: Act, get: HttpRequest)
    requires ToClient(get) == Some(Get(key)) && ParseRequest(get.rawRequest) == Complete(get, |get.rawRequest|)
    requires GoodSetup(u) && Initial(u, s, abs) && ProperKey(key)
    requires var written := steps + [Client(Put(key, value), act)];
      && Legal(u, s, abs, written) && Shows(st, After(u.cfg, s, written))
      && Obliging(env, After(u.cfg, s, written), Get(key), Payload(get))
    ensures var (st', stop) := ServeOne(u.cfg, env, st, get);
      !stop && st'.replies == st.replies + [Answer(Response(200, value))]
  {
    hide GoodSetup, Initial, Legal, After, Contents, Payload, ToClient, ServeOne, Obliging, ParseRequest;
    var written := steps + [Client(Put(key, value), act)];
    GetOverHttp(u, s, abs, written, After(u.cfg, s, written), env, st.replies, get.rawRequest, key);
    LastPut(abs, written, |steps|, key, value);
  }

  /** After a PUT of a value, the GET of its key that follows on the same connection is
      answered 200 with that value, and nothing of the two is left, however their bytes
      arrive. */
  lemma PutThenGet(u: Setup, s: Cluster, abs: Table, steps: seq<Step>, env: Env, st: State, key: string, value: string,
      put: HttpRequest, get: HttpRequest, lines: seq<string>, more: seq<string>, chunks: seq<string>)
    returns (first: Reply)
    requires put.verb == "PUT" && put.path == "/kvstore/" + key && put.body == value && Announces(put, lines)
    requires get.verb == "GET" && get.path == "/kvstore/" + key && get.body == "" && Announces(get, more)
    requires Concat(chunks) == put.rawRequest + get.rawRequest
    requires GoodSetup(u) && Initial(u, s, abs) && ProperKey(key) && Shows(st, After(u.cfg, s, steps))
    requires var written := steps + [Client(Put(key, value), OnBytes(env, Payload(put)))];
      Legal(u, s, abs, written) && Obliging(env, After(u.cfg, s, written), Get(key), Payload(get))
    ensures var o := Receive(Serving(u.cfg, env), st, chunks);
      && o.served == [put, get] && o.rest == "" && o.end == Waiting
      && o.state.replies == st.replies + [first, Answer(Response(200, value))]
  {
    hide GoodSetup, Initial, Legal, After, Payload, Obliging, Drain, Receive, ServeOne, ToClient, Announces, ParseRequest;
    AnnouncedParse(put, lines);
    AnnouncedParse(get, more);
    ClientRequests(put, key, value);
    ClientRequests(get, key, "");
    first := PutServed(u, s, abs, steps, env, st, key, value, put);
    var h, st' := Serving(u.cfg, env), ServeOne(u.cfg, env, st, put).0;
    GetServed(u, s, abs, steps, env, st', key, value, OnBytes(env, Payload(put)), get);
    DrainTwo(h, st, put, get, put.rawRequest + get.rawRequest);
    SplittingIsInvisible(h, st, chunks);
  }

  lemma LegalPrefix(u: Setup, s: Cluster, abs: Table, steps: seq<Step>, step: Step)
    requires Legal(u, s, abs, steps + [step])
    ensures Legal(u, s, abs, steps) && Possible(After(u.cfg, s, steps), step)
    ensures Assumed(u, After(u.cfg, s, steps), Contents(abs, steps), step)
    ensures After(u.cfg, s, steps + [step]) == Next(u.cfg, After(u.cfg, s, steps), step)
  {
    assert (steps + [step])[..|steps + [step]| - 1] == steps;
  }

  // ----- a whole session is a run -----

  /** The requests that were handled, the one that ended the session included. */
  function Dispatched(o: Outcome<State>): seq<HttpRequest> {
    o.served + if o.end.Closed? then [o.end.last] else []
  }

  predicate AllKnown(qs: seq<HttpRequest>) {
    forall i :: 0 <= i < |qs| ==> Known(qs[i])
  }

  /** The client step that a request on the wire is. */
  function StepOf(env: Env, q: HttpRequest): Step
    requires Known(q)
  {
    Client(ToClient(q).value, OnBytes(env, Payload(q)))
  }

  function ClientSteps(env: Env, qs: seq<HttpRequest>): (steps: seq<Step>)
    requires AllKnown(qs)
    ensures |steps| == |qs|
  {
    if qs == [] then [] else [StepOf(env, qs[0])] + ClientSteps(env, qs[1..])
  }

  lemma {:induction false} AfterCons(cfg: Config, s: Cluster, x: Step, steps: seq<Step>)
    ensures After(cfg, s, [x] + steps) == After(cfg, Next(cfg, s, x), steps)
  {
    hide Next;
    var all := [x] + steps;
    if steps == [] {
      assert all == [x] && all[..0] == [];
    } else {
      AfterCons(cfg, s, x, steps[..|steps| - 1]);
      assert all[..|all| - 1] == [x] + steps[..|steps| - 1];
    }
  }

  /** What the session knows of the running system. */
  predicate Shows(st: State, e: Cluster) {
    st.machines == e.machines && st.router == e.router
  }

  lemma DispatchedCons(q: HttpRequest, o: Outcome<State>)
    ensures Dispatched(Prepend([q], o)) == [q] + Dispatched(o)
  {
  }

  lemma OneRequestIsStep(cfg: Config, env: Env, st: State, s: Cluster, q: HttpRequest)
    requires Shows(st, s) && Taken(q) && Known(q)
    ensures Shows(ServeOne(cfg, env, st, q).0, Next(cfg, s, StepOf(env, q)))
  {
    BytesAreClientStep(cfg, env, st, q, ToClient(q).value);
  }

  lemma {:induction false} DrainIsRun(cfg: Config, env: Env, st: State, s: Cluster, buffer: string)
    requires Shows(st, s) && AllKnown(Dispatched(Drain(Serving(cfg, env), st, buffer)))
    ensures var o := Drain(Serving(cfg, env), st, buffer); Shows(o.state, After(cfg, s, ClientSteps(env, Dispatched(o))))
    decreases |buffer|
  {
    var h := Serving(cfg, env);
    if buffer != "" && ParseRequest(buffer).Complete? {
      var q, n := ParseRequest(buffer).request, ParseRequest(buffer).consumed;
      TakenFromBuffer(buffer);
      TakenIsPrefix(buffer);
      var (st', stop) := ServeOne(cfg, env, st, q);
      if stop {
        assert Dispatched(Drain(h, st, buffer)) == [q];
        StepOfOne(cfg, env, st, s, q);
      } else {
        var o := Drain(h, st', buffer[n..]);
        DispatchedCons(q, o);
        assert Drain(h, st, buffer) == Prepend([q], o);
        KnownTail(env, q, Dispatched(o));
        OneRequestIsStep(cfg, env, st, s, q);
        DrainIsRun(cfg, env, st', Next(cfg, s, StepOf(env, q)), buffer[n..]);
        AfterCons(cfg, s, StepOf(env, q), ClientSteps(env, Dispatched(o)));
      }
    }
  }

  lemma KnownTail(env: Env, q: HttpRequest, qs: seq<HttpRequest>)
    requires AllKnown([q] + qs)
    ensures Known(q) && AllKnown(qs)
    ensures ClientSteps(env, [q] + qs) == [StepOf(env, q)] + ClientSteps(env, qs)
  {
    assert ([q] + qs)[0] == q && ([q] + qs)[1..] == qs;
    assert forall i :: 0 <= i < |qs| ==> qs[i] == ([q] + qs)[i + 1];
  }

  lemma StepOfOne(cfg: Config, env: Env, st: State, s: Cluster, q: HttpRequest)
    requires Shows(st, s) && Taken(q) && AllKnown([q])
    ensures Shows(ServeOne(cfg, env, st, q).0, After(cfg, s, ClientSteps(env, [q])))
  {
    assert [q][0] == q && [q][1..] == [];
    OneRequestIsStep(cfg, env, st, s, q);
    AfterCons(cfg, s, StepOf(env, q), []);
    assert ClientSteps(env, [q]) == [StepOf(env, q)] + [];
  }

  /** Whatever the pieces in which its bytes arrive, a session of the store's clients
      takes the running system through one client step for each request that one
      parse of the whole stream finds, in order, up to the one that ends it. */
  lemma SessionIsRun(cfg: Config, env: Env, st: State, s: Cluster, chunks: seq<string>)
    requires Shows(st, s) && AllKnown(Dispatched(Drain(Serving(cfg, env), st, Concat(chunks))))
    ensures var whole := Drain(Serving(cfg, env), st, Concat(chunks));
      var o := Receive(Serving(cfg, env), st, chunks);
      Dispatched(o) == Dispatched(whole) && Shows(o.state, After(cfg, s, ClientSteps(env, Dispatched(whole))))
  {
    SplittingIsInvisible(Serving(cfg, env), st, chunks);
    DrainIsRun(cfg, env, st, s, Concat(chunks));
  }
}
