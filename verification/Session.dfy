/** A client session (load_balancer/src/ProxySession.cpp), on values. */
module Sessions {
  import opened Text
  import opened HashRings
  import opened Routers
  import opened KvServers
  import opened Backends
  import opened HttpHelpers
  import opened HttpLaws
  import opened Injections
  import opened Routes
  import opened Framings

  /** What becomes of a request at a backend that accepted the connection: it is
      answered, or the connection ends before a complete response, with the request
      applied or not. */
  datatype Fate = Answered | Unanswered(applied: bool)

  /** What the sources do not decide: the answers to requests that are for none of the
      handlers of one key, which leave the table alone, and the fate of each request. */
  datatype Env = Env(unrouted: (Table, string) -> Response, fate: (int, Table, string) -> Fate)

  datatype State = State(machines: Machines, router: RouterState, replies: seq<Reply>)

  /** The bytes sent to a backend. */
  function Payload(q: HttpRequest): string {
    if q.verb == "PUT" then Inject(q.rawRequest) else q.rawRequest
  }

  /** The header section has this line. */
  predicate HasLine(payload: string, line: string) {
    match Find(payload, BLANK_LINE)
    case None => false
    case Some(e) => Find(payload[..e + 2], CRLF + line + CRLF).Some?
  }

  predicate Marked(payload: string) {
    HasLine(payload, MARKER)
  }

  /** What the handler reached by the bytes does. */
  function Handled(env: Env, payload: string, db: Table): (Table, Response) {
    match Meaning(payload)
    case Some(req) => Handle(db, req)
    case None => (db, env.unrouted(db, payload))
  }

  /** What happens when these bytes reach a backend. */
  function OnBytes(env: Env, payload: string): Act {
    (port, db) =>
      match env.fate(port, db, payload)
      case Answered => (Handled(env, payload, db).0, Some(Handled(env, payload, db).1))
      case Unanswered(applied) => (if applied then Handled(env, payload, db).0 else db, None)
  }

  /** The handler call that the bytes stand for. */
  function Meaning(payload: string): Option<Request> {
    match ParseRequest(payload)
    case Complete(q, _) => Route(q.verb, q.path, q.body, Marked(payload))
    case _ => None
  }

  function CandidatesFor(cfg: Config, r: RouterState, q: HttpRequest): Option<seq<Backend>> {
    var key := GetKey(q.path, q.body);
    if IsWrite(q.verb) then WriteTargets(cfg, r, key, 2) else ReadTargets(cfg, r, key, 2)
  }

  /** One request: the new state, and whether the session ends. */
  function ServeOne(cfg: Config, env: Env, s: State, q: HttpRequest): (State, bool) {
    var targets := CandidatesFor(cfg, s.router, q);
    var (m, r, reply) := ForwardTo(cfg, s.machines, s.router, !IsWrite(q.verb), OnBytes(env, Payload(q)), targets);
    (State(m, r, s.replies + [reply]), Ends(!IsWrite(q.verb), targets, reply))
  }

  lemma ServeByTargets(cfg: Config, env: Env, s: State, q: HttpRequest, targets: Option<seq<Backend>>)
    requires targets == CandidatesFor(cfg, s.router, q)
    ensures ServeOne(cfg, env, s, q) ==
      match targets
      case None => (s.(replies := s.replies + [Terminated]), true)
      case Some(candidates) =>
        if candidates == [] then (s.(replies := s.replies + [Unavailable]), true)
        else
          var (m, r, reply) :=
            ForwardTo(cfg, s.machines, s.router, !IsWrite(q.verb), OnBytes(env, Payload(q)), Some(candidates));
          (State(m, r, s.replies + [reply]), !IsWrite(q.verb) && reply.Unavailable?)
  {
    hide CandidatesFor;
  }

  /** No candidate, a lookup that throws, or a read that nobody answered. */
  predicate Ends(read: bool, targets: Option<seq<Backend>>, reply: Reply) {
    targets.None? || targets.value == [] || (read && reply.Unavailable?)
  }

  function Serving(cfg: Config, env: Env): Handler<State> {
    (s, q) => ServeOne(cfg, env, s, q)
  }

  // ----- the bytes sent mean what the step system assumes -----

  lemma LineInHead(a: string, m: string, b: string, out: string, e: nat)
    requires out == a + CRLF + (m + CRLF + b) && |a| + |m| + 2 <= e && e + 2 <= |out|
    requires Find(out, BLANK_LINE) == Some(e)
    ensures HasLine(out, m)
  {
    var pat := CRLF + m + CRLF;
    assert out == a + pat + b;
    SliceInside(a, pat, b, e + 2);
    assert At(out[..e + 2], pat, |a|);
  }

  lemma SliceInside(a: string, pat: string, b: string, n: nat)
    requires |a| + |pat| <= n <= |a + pat + b|
    ensures (a + pat + b)[..n][|a|..|a| + |pat|] == pat
  {
  }

  /** What a client's request looks like when it leaves the buffer. */
  predicate Taken(q: HttpRequest) {
    ParseRequest(q.rawRequest) == Complete(q, |q.rawRequest|)
  }

  lemma TakenFromBuffer(buffer: string)
    requires ParseRequest(buffer).Complete?
    ensures Taken(ParseRequest(buffer).request)
  {
    var n := ParseRequest(buffer).consumed;
    ParseMinimal(buffer, n);
    assert ParseRequest(buffer).request.rawRequest == buffer[..n];
  }

  lemma InsertedShape(raw: string, m: string, out: string) returns (a: string, b: string, e: nat)
    requires ParseRequest(raw).Complete? && Neutral(m) && out == InsertLine(raw, m)
    ensures out == a + CRLF + (m + CRLF + b)
    ensures |a| + |m| + 2 <= e && e + 2 <= |out| && Find(out, BLANK_LINE) == Some(e)
  {
    CompleteSplits(raw);
    a, b := SplitLine(raw);
    InsertedIs(raw, a, b, m);
    var n := Find(raw, BLANK_LINE).value;
    e := BlankLineAfter(raw, m, a, b, out, n);
  }

  lemma BlankLineAfter(raw: string, m: string, a: string, b: string, out: string, n: nat) returns (e: nat)
    requires Splits(raw, a, b) && Find(raw, BLANK_LINE) == Some(n) && Neutral(m)
    requires out == a + CRLF + (m + CRLF + b) && Find(raw[..n], CRLF).Some?
    ensures |a| + |m| + 2 <= e && e + 2 <= |out| && Find(out, BLANK_LINE) == Some(e)
  {
    var d := |m| + 2;
    e := n + d;
    LineInSection(raw, a, b, n);
    BlankLineShifts(a, m, b, raw, out, n, d);
    assert n + 4 <= |raw|;
  }

  lemma InsertedLine(raw: string, m: string, out: string)
    requires ParseRequest(raw).Complete? && Neutral(m) && out == InsertLine(raw, m)
    ensures HasLine(out, m)
  {
    var a, b, e := InsertedShape(raw, m, out);
    LineInHead(a, m, b, out, e);
  }

  lemma InjectedIsMarked(raw: string)
    requires ParseRequest(raw).Complete?
    ensures Marked(Inject(raw))
  {
    MarkerNeutral();
    InsertedLine(raw, MARKER, Inject(raw));
  }

  lemma PayloadMeans(q: HttpRequest, c: ClientRequest)
    requires Taken(q) && ToClient(q) == Some(c) && ProperKey(KeyOf(c))
    ensures Meaning(Payload(q)) == Some(ToServer(c))
  {
    AsInStepSystem(q);
    if q.verb == "PUT" {
      InjectionKeepsMeaning(q.rawRequest);
      InjectedIsMarked(q.rawRequest);
    } else {
      RouteIgnoresMark(q, Marked(q.rawRequest));
    }
  }

  /** `t` is some text of length `n`, a line end, `last` and a line end. */
  ghost predicate TwoEnds(t: string, n: nat, last: string) {
    && |t| == n + |last| + 4 && t[n] == '\r' && t[n + 1] == '\n' && t[n + 2 + |last|] == '\r'
    && forall i :: n + 2 <= i < n + 2 + |last| ==> t[i] == last[i - n - 2]
  }

  lemma AtBetween(t: string, line: string, j: nat)
    requires At(t, CRLF + line + CRLF, j)
    ensures j + |line| + 4 <= |t| && t[j] == '\r' && t[j + 1] == '\n' && t[j + 2 + |line|] == '\r'
    ensures forall i :: j + 2 <= i < j + 2 + |line| ==> t[i] == line[i - j - 2]
  {
    var pat := CRLF + line + CRLF;
    var x := t[j..j + |pat|];
    assert x == pat;
    assert t[j] == x[0] && t[j + 1] == x[1] && t[j + 2 + |line|] == x[2 + |line|];
    assert forall i :: j + 2 <= i < j + 2 + |line| ==> t[i] == x[i - j] == pat[i - j] == line[i - j - 2];
  }

  /** Between two line ends stands one line. */
  lemma LineBetween(t: string, n: nat, last: string, line: string, j: nat)
    requires TwoEnds(t, n, last) && LineText(line) && LineText(last)
    requires At(t, CRLF + line + CRLF, j) && j + |line| + 4 > n + 2
    ensures line == last
  {
    AtBetween(t, line, j);
    hide At;
    assert j == n;
    assert |line| == |last|;
    assert forall i :: 0 <= i < |line| ==> line[i] == t[i + j + 2] == last[i];
  }

  lemma OneMoreLine(a: string, last: string, line: string)
    requires LineText(line) && LineText(last)
    ensures var pat := CRLF + line + CRLF;
      Find(a + CRLF + last + CRLF, pat).Some? <==> Find(a + CRLF, pat).Some? || line == last
  {
    var s, t, pat := a + CRLF, a + CRLF + last + CRLF, CRLF + line + CRLF;
    assert t == s + (last + CRLF);
    if line == last {
      assert t == a + pat + "";
      SliceInside(a, pat, "", |t|);
      assert t[..|t|] == t && At(t, pat, |a|);
    } else if Find(s, pat).Some? {
      AtAppend(s, last + CRLF, pat, Find(s, pat).value);
    } else if Find(t, pat).Some? {
      var j := Find(t, pat).value;
      AtAppend(s, last + CRLF, pat, j);
      LineBetween(t, |a|, last, line, j);
    }
  }

  lemma {:induction false} LineOfSection(first: string, lines: seq<string>, line: string)
    requires LineText(first) && LineText(line) && forall i :: 0 <= i < |lines| ==> LineText(lines[i])
    ensures Find(Section(first, lines) + CRLF, CRLF + line + CRLF).Some? <==> line in lines
  {
    if lines == [] {
      var pat, t := CRLF + line + CRLF, first + CRLF;
      forall j | 0 <= j < |first| ensures !At(t, pat, j) {
        NotAt(t, pat, j, 0);
      }
    } else {
      hide Find;
      var n := |lines| - 1;
      LineOfSection(first, lines[..n], line);
      OneMoreLine(Section(first, lines[..n]), lines[n], line);
      assert lines == lines[..n] + [lines[n]];
    }
  }

  /** A backend takes a request for a replicated one exactly when one of its header
      lines is the proxy's. */
  lemma MarkedExactly(verb: string, path: string, version: string, lines: seq<string>, body: string)
    requires Printable(verb, path, version, lines)
    ensures Marked(Print(verb, path, version, lines, body)) <==> "X-Internal-Replication: true" in lines
  {
    hide Find, Section;
    var line := RequestLine(verb, path, version);
    var s := Section(line, lines);
    SectionHasNoBlankLine(line, lines);
    BlankLineAtEnd(s, body);
    assert (s + BLANK_LINE + body)[..|s| + 2] == s + CRLF;
    MarkerNeutral();
    LineOfSection(line, lines, MARKER);
  }

  lemma RouteIgnoresMark(q: HttpRequest, marked: bool)
    requires q.verb != "PUT"
    ensures Route(q.verb, q.path, q.body, marked) == Route(q.verb, q.path, q.body, false)
  {
  }

  /** A request of the store's clients, as bytes, is one client step of the running
      system. */
  lemma BytesAreClientStep(cfg: Config, env: Env, s: State, q: HttpRequest, c: ClientRequest)
    requires ToClient(q) == Some(c) && ProperKey(KeyOf(c))
    ensures var (m, r, reply) := Forward(cfg, s.machines, s.router, c, OnBytes(env, Payload(q)));
      ServeOne(cfg, env, s, q).0 == State(m, r, s.replies + [reply])
  {
    AsInStepSystem(q);
    hide ForwardTo, ReadTargets, WriteTargets, GetKey, Route, Payload, ToClient;
  }

  lemma ReadRoute(verb: string, path: string, body: string, marked: bool)
    requires !IsWrite(verb)
    ensures Route(verb, path, body, marked).None? || Route(verb, path, body, marked).value.ReadRequest?
  {
  }

  lemma ReadMeaning(q: HttpRequest)
    requires Taken(q) && !IsWrite(q.verb)
    ensures Meaning(Payload(q)).None? || Meaning(Payload(q)).value.ReadRequest?
  {
    ReadRoute(q.verb, q.path, q.body, Marked(q.rawRequest));
    assert Payload(q) == q.rawRequest;
  }

  lemma HandledKeeps(env: Env, payload: string, db: Table)
    requires Meaning(payload).None? || Meaning(payload).value.ReadRequest?
    ensures Handled(env, payload, db).0 == db
  {
    hide Meaning;
  }

  /** On the read path, which every other verb takes, no table changes, whatever is
      asked. */
  lemma ReadsKeepTables(env: Env, q: HttpRequest, port: int, db: Table)
    requires Taken(q) && q.verb != "POST" && q.verb != "PUT" && q.verb != "DELETE"
    ensures OnBytes(env, Payload(q))(port, db).0 == db
  {
    hide Meaning, Payload, Taken, Handled;
    ReadMeaning(q);
    HandledKeeps(env, Payload(q), db);
    var f := OnBytes(env, Payload(q));
    assert f(port, db).0 == if env.fate(port, db, Payload(q)).Unanswered? && !env.fate(port, db, Payload(q)).applied then db
      else Handled(env, Payload(q), db).0;
  }
}
