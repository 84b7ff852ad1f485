/** The session object (load_balancer/src/ProxySession.cpp): its socket to a backend,
    the replication and failover loops, and the loops over the client's bytes. */
module ProxySessions {
  import opened Text
  import opened HashRings
  import opened Routers
  import opened KvServers
  import opened Backends
  import opened HttpHelpers
  import opened Routes
  import opened Framings
  import opened Sessions

  class ProxySession {
    const router: Router
    const network: Network
    const env: Env
    var backendSocket: Option<int>
    var replies: seq<Reply>

    ghost function Now(): State
      reads this, network, router, router.hashRing
    {
      State(network.machines, router.State(), replies)
    }

    constructor (router: Router, network: Network, env: Env)
      ensures this.router == router && this.network == network && this.env == env
      ensures backendSocket == None && Now() == State(network.machines, router.State(), [])
    {
      this.router, this.network, this.env := router, network, env;
      backendSocket, replies := None, [];
    }

    /** An open connection is used again, whatever backend it leads to. */
    method ConnectToBackend(backend: Backend) returns (ok: bool)
      modifies `backendSocket
      ensures old(backendSocket).Some? ==> ok && backendSocket == old(backendSocket)
      ensures old(backendSocket).None? ==>
        ok == Accepts(network.machines, backend.port) && backendSocket == if ok then Some(backend.port) else None
    {
      if backendSocket != None {
        return true;
      }
      if !Accepts(network.machines, backend.port) {
        return false;
      }
      backendSocket := Some(backend.port);
      ok := true;
    }

    method CloseBackend()
      modifies `backendSocket
      ensures backendSocket == None
    {
      if backendSocket != None {
        backendSocket := None;
      }
    }

    /** Sending over the socket and reading the response; `named` is the backend that
        the caller means to reach. */
    method Exchange(ghost named: Backend, payload: string) returns (res: Option<Response>)
      requires backendSocket == Some(named.port) && Accepts(network.machines, named.port)
      modifies network
      ensures (network.machines, res) == Deliver(old(network.machines), named.port, OnBytes(env, payload))
    {
      var peer := backendSocket.value;
      var act := OnBytes(env, payload);
      var (db, answer) := act(peer, network.machines[peer].db);
      network.machines := network.machines[peer := network.machines[peer].(db := db)];
      res := answer;
    }

    /** The write loop; every send reaches the backend it is meant for. */
    method ReplicateWrite(candidates: seq<Backend>, payload: string) returns (primary: Option<Response>)
      requires backendSocket == None
      modifies `backendSocket, network, router, router.hashRing
      ensures backendSocket == None
      ensures WriteLoop(router.hashRing.cfg, old(network.machines), old(router.State()), candidates, OnBytes(env, payload)).0
        == network.machines
      ensures WriteLoop(router.hashRing.cfg, old(network.machines), old(router.State()), candidates, OnBytes(env, payload)).1
        == router.State()
      ensures primary ==
        Primary(WriteLoop(router.hashRing.cfg, old(network.machines), old(router.State()), candidates, OnBytes(env, payload)).2)
    {
      primary := None;
      ghost var out: seq<Response> := [];
      ghost var act := OnBytes(env, payload);
      assert candidates[..0] == [];
      for i := 0 to |candidates|
        invariant backendSocket == None
        invariant WriteLoop(router.hashRing.cfg, old(network.machines), old(router.State()), candidates[..i], act)
          == (network.machines, router.State(), out)
        invariant primary == Primary(out)
      {
        assert candidates[..i + 1][..i] == candidates[..i];
        var connected := ConnectToBackend(candidates[i]);
        if connected {
          var res := Exchange(candidates[i], payload);
          if res.Some? {
            if primary.None? || res.value.status == 200 || res.value.status == 201 {
              primary := res;
            }
            assert (out + [res.value])[..|out + [res.value]| - 1] == out;
            out := out + [res.value];
          }
          CloseBackend();
        } else {
          router.MarkBackendDown(candidates[i].port);
        }
      }
      assert candidates[..|candidates|] == candidates;
    }

    /** The read loop, in candidate order until one backend answers. */
    method ReadAny(candidates: seq<Backend>, payload: string) returns (answer: Option<Response>)
      requires backendSocket == None
      requires forall port: int, db: Table :: OnBytes(env, payload)(port, db).0 == db
      modifies `backendSocket, network, router, router.hashRing
      ensures backendSocket == None && network.machines == old(network.machines)
      ensures (router.State(), answer) ==
        ReadLoop(router.hashRing.cfg, old(network.machines), old(router.State()), candidates, OnBytes(env, payload))
    {
      ghost var act := OnBytes(env, payload);
      for i := 0 to |candidates|
        invariant backendSocket == None && network.machines == old(network.machines)
        invariant ReadLoop(router.hashRing.cfg, network.machines, old(router.State()), candidates, act)
          == ReadLoop(router.hashRing.cfg, network.machines, router.State(), candidates[i..], act)
      {
        assert candidates[i..][1..] == candidates[i + 1..];
        var connected := ConnectToBackend(candidates[i]);
        if connected {
          var res := Exchange(candidates[i], payload);
          assert network.machines == old(network.machines);
          CloseBackend();
          if res.Some? {
            return res;
          }
        }
        router.MarkBackendDown(candidates[i].port);
      }
      answer := None;
    }

    method Candidates(q: HttpRequest) returns (candidates: Option<seq<Backend>>)
      ensures candidates == CandidatesFor(router.hashRing.cfg, router.State(), q)
    {
      var key := GetKey(q.path, q.body);
      if IsWrite(q.verb) {
        candidates := router.GetWriteBackendsForKey(key, 2);
      } else {
        candidates := router.GetReadBackendsForKey(key, 2);
      }
    }

    /** The path of the request, once there are candidates. */
    method TryCandidates(read: bool, candidates: seq<Backend>, payload: string) returns (reply: Reply)
      requires backendSocket == None && candidates != []
      requires read ==> forall port: int, db: Table :: OnBytes(env, payload)(port, db).0 == db
      modifies `backendSocket, network, router, router.hashRing
      ensures backendSocket == None
      ensures (network.machines, router.State(), reply) ==
        ForwardTo(router.hashRing.cfg, old(network.machines), old(router.State()), read, OnBytes(env, payload), Some(candidates))
    {
      var res;
      if read {
        res := ReadAny(candidates, payload);
      } else {
        res := ReplicateWrite(candidates, payload);
      }
      reply := if res.Some? then Answer(res.value) else Unavailable;
    }

    /** One request out of the buffer. */
    method HandleRequest(q: HttpRequest) returns (stop: bool)
      requires backendSocket == None && Taken(q)
      modifies this, network, router, router.hashRing
      ensures backendSocket == None
      ensures (Now(), stop) == ServeOne(router.hashRing.cfg, env, old(Now()), q)
    {
      hide ServeOne, CandidatesFor, ForwardTo;
      var candidates := Candidates(q);
      ServeByTargets(router.hashRing.cfg, env, Now(), q, candidates);
      if candidates.None? {
        replies := replies + [Terminated];
        return true;
      }
      if |candidates.value| == 0 {
        replies := replies + [Unavailable];
        return true;
      }
      if !IsWrite(q.verb) {
        forall port: int, db: Table ensures OnBytes(env, Payload(q))(port, db).0 == db {
          ReadsKeepTables(env, q, port, db);
        }
      }
      var reply := TryCandidates(!IsWrite(q.verb), candidates.value, Payload(q));
      replies := replies + [reply];
      stop := !IsWrite(q.verb) && reply.Unavailable?;
    }

    /** The inner loop over the complete requests of the buffer. */
    method ProcessBuffer(buffer: string) returns (rest: string, served: seq<HttpRequest>, end: End)
      requires backendSocket == None
      modifies this, network, router, router.hashRing
      ensures backendSocket == None
      ensures Drain(Serving(router.hashRing.cfg, env), old(Now()), buffer) == Outcome(Now(), served, rest, end)
    {
      rest, served := buffer, [];
      ghost var h := Serving(router.hashRing.cfg, env);
      while rest != ""
        invariant backendSocket == None
        invariant Drain(h, old(Now()), buffer) == Prepend(served, Drain(h, Now(), rest))
        decreases |rest|
      {
        match ParseRequest(rest) {
          case Incomplete =>
            return rest, served, Waiting;
          case Error(message) =>
            return rest, served, Malformed(message);
          case Complete(q, n) =>
            TakenFromBuffer(rest);
            TakenIsPrefix(rest);
            var stop := HandleRequest(q);
            if stop {
              return rest, served, Closed(q);
            }
            PrependTwice(served, [q], Drain(h, Now(), rest[n..]));
            rest, served := rest[n..], served + [q];
        }
      }
      end := Waiting;
    }

    /** The whole session over the byte strings that `recv` delivers. */
    method ForwardTraffic(chunks: seq<string>) returns (leftover: string, served: seq<HttpRequest>, end: End)
      requires backendSocket == None
      modifies this, network, router, router.hashRing
      ensures backendSocket == None
      ensures Receive(Serving(router.hashRing.cfg, env), old(Now()), chunks) == Outcome(Now(), served, leftover, end)
    {
      var clientBuffer := "";
      served, end := [], Waiting;
      ghost var h := Serving(router.hashRing.cfg, env);
      assert chunks[..0] == [];
      var i := 0;
      while i < |chunks| && end == Waiting
        invariant 0 <= i <= |chunks| && backendSocket == None
        invariant Receive(h, old(Now()), chunks[..i]) == Outcome(Now(), served, clientBuffer, end)
      {
        assert chunks[..i + 1][..i] == chunks[..i];
        clientBuffer := clientBuffer + chunks[i];
        var more;
        clientBuffer, more, end := ProcessBuffer(clientBuffer);
        served := served + more;
        i := i + 1;
      }
      StaysEnded(h, old(Now()), chunks, i);
      leftover := clientBuffer;
    }
  }

  /** Once it has ended, a session receives nothing more. */
  lemma {:induction false} StaysEnded<S>(h: Handler<S>, s: S, chunks: seq<string>, i: nat)
    requires i <= |chunks| && (i == |chunks| || !Receive(h, s, chunks[..i]).end.Waiting?)
    ensures Receive(h, s, chunks) == Receive(h, s, chunks[..i])
  {
    if i == |chunks| {
      assert chunks[..i] == chunks;
    } else {
      var n := |chunks| - 1;
      assert chunks[..n][..i] == chunks[..i];
      StaysEnded(h, s, chunks[..n], i);
    }
  }
}
