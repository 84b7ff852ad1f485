/** Which handler of the key-value server a request reaches (kvserver.cpp, `main`),
    and that the proxy routes it by the same key. */
module Routes {
  import opened Text
  import opened HttpHelpers
  import opened KvServers
  import opened Backends

  const PREFIX := "/kvstore/"
  const CREATE_PATH := "/kvstore/create"
  const SYNC_PREFIX := "/kvstore/sync/"

  /** The request that reaches a handler which works on one key; `None` for the
      other routes and for no route.  `replicated` is the proxy's header. */
  function Route(verb: string, path: string, body: string, replicated: bool): Option<Request> {
    if verb == "POST" && path == CREATE_PATH then Some(CreateRequest(body))
    else if PREFIX <= path && IsWord(path[9..]) then
      if verb == "PUT" then Some(UpdateRequest(path[9..], body, replicated))
      else if verb == "DELETE" then Some(DeleteRequest(path[9..]))
      else if verb == "GET" && path[9..] != "allkeys" then Some(ReadRequest(path[9..]))
      else None
    else if verb == "POST" && SYNC_PREFIX <= path && IsWord(path[14..]) then Some(SyncRequest(path[14..], body))
    else None
  }

  /** The key that the handler works on. */
  function KeyIn(r: Request): string {
    match r
    case CreateRequest(body) => FirstWord(body)
    case _ => r.key
  }

  lemma WordHasNoSlash(k: string)
    requires IsWord(k)
    ensures forall i :: 0 <= i < |k| ==> k[i] != '/' && k[i] != ' '
  {
  }

  lemma AfterSlash(path: string, n: nat)
    requires n < |path| && path[n] == '/' && IsWord(path[n + 1..])
    ensures FindLast(path, '/') == Some(n)
  {
    var k := path[n + 1..];
    WordHasNoSlash(k);
    assert forall i :: n < i < |path| ==> path[i] == k[i - n - 1];
  }

  lemma CreateSegment()
    ensures CREATE_PATH[9..] == "create" && IsWord("create") && FindLast(CREATE_PATH, '/') == Some(8)
    ensures GetKey(CREATE_PATH, "") == "create"
  {
    assert CREATE_PATH[9..] == "create";
    assert IsWord("create");
    AfterSlash(CREATE_PATH, 8);
  }

  /** The proxy routes a request by the key its handler works on, except for a
      create without a body and for a PUT, GET or DELETE of the key `create` whose
      body starts with another word. */
  lemma RoutedByItsKey(verb: string, path: string, body: string, replicated: bool)
    requires Route(verb, path, body, replicated).Some?
    ensures GetKey(path, body) == KeyIn(Route(verb, path, body, replicated).value) <==>
      !(path == CREATE_PATH && if verb == "POST" then body == "" else body != "" && FirstWord(body) != "create")
  {
    CreateSegment();
    if path == CREATE_PATH {
      assert FirstWord("") == "";
    } else if PREFIX <= path && IsWord(path[9..]) {
      assert path[8] == PREFIX[8];
      AfterSlash(path, 8);
    } else {
      assert path[13] == SYNC_PREFIX[13];
      AfterSlash(path, 13);
    }
  }

  /** What a key may consist of, by character codes: digits, capitals, underscore and
      small letters. */
  predicate WordCodes(k: string) {
    k != "" && forall i :: 0 <= i < |k| ==>
      48 <= k[i] as int <= 57 || 65 <= k[i] as int <= 90 || k[i] as int == 95 || 97 <= k[i] as int <= 122
  }

  lemma AfterPrefix(prefix: string, k: string, path: string)
    ensures path == prefix + k <==> prefix <= path && path[|prefix|..] == k
  {
    if prefix <= path && path[|prefix|..] == k {
      assert path == path[..|prefix|] + path[|prefix|..];
    }
  }

  lemma SyncIsNoKey(path: string)
    requires SYNC_PREFIX <= path
    ensures PREFIX <= path && !IsWord(path[9..]) && path != CREATE_PATH
  {
    assert path[..14] == SYNC_PREFIX && SYNC_PREFIX[..9] == PREFIX;
    assert path[..9] == path[..14][..9];
    assert path[9..][4] == path[..14][13] == '/';
    assert path[..14][9] == 's' && CREATE_PATH[9] == 'c';
  }

  /** Which requests reach which handler, with which key and value. */
  lemma Routing(verb: string, path: string, body: string, replicated: bool, k: string, v: string, marked: bool)
    ensures var r := Route(verb, path, body, replicated);
      && (r == Some(UpdateRequest(k, v, marked)) <==>
            verb == "PUT" && path == "/kvstore/" + k && WordCodes(k) && v == body && marked == replicated)
      && (r == Some(DeleteRequest(k)) <==> verb == "DELETE" && path == "/kvstore/" + k && WordCodes(k))
      && (r == Some(ReadRequest(k)) <==> verb == "GET" && path == "/kvstore/" + k && WordCodes(k) && k != "allkeys")
      && (r == Some(SyncRequest(k, v)) <==> verb == "POST" && path == "/kvstore/sync/" + k && WordCodes(k) && v == body)
      && (r == Some(CreateRequest(v)) <==> verb == "POST" && path == "/kvstore/create" && v == body)
  {
    AfterPrefix(PREFIX, k, path);
    AfterPrefix(SYNC_PREFIX, k, path);
    if SYNC_PREFIX <= path {
      SyncIsNoKey(path);
    }
    assert IsWord(k) <==> WordCodes(k);
    hide IsWord, WordCodes;
  }

  // ----- the requests of the store's clients -----

  predicate IsWrite(verb: string) {
    verb == "POST" || verb == "PUT" || verb == "DELETE"
  }

  /** The client request that an HTTP request stands for. */
  function ToClient(q: HttpRequest): Option<ClientRequest> {
    match Route(q.verb, q.path, q.body, false)
    case Some(CreateRequest(body)) => Some(Create(body))
    case Some(ReadRequest(key)) => Some(Get(key))
    case Some(UpdateRequest(key, value, _)) => Some(Put(key, value))
    case Some(DeleteRequest(key)) => Some(Delete(key))
    case _ => None
  }

  /** What a client's request has to look like to be one of the four. */
  lemma ClientRequests(q: HttpRequest, k: string, v: string)
    ensures var c := ToClient(q);
      && (c == Some(Put(k, v)) <==> q.verb == "PUT" && q.path == "/kvstore/" + k && WordCodes(k) && v == q.body)
      && (c == Some(Delete(k)) <==> q.verb == "DELETE" && q.path == "/kvstore/" + k && WordCodes(k))
      && (c == Some(Get(k)) <==> q.verb == "GET" && q.path == "/kvstore/" + k && WordCodes(k) && k != "allkeys")
      && (c == Some(Create(v)) <==> q.verb == "POST" && q.path == "/kvstore/create" && v == q.body)
  {
    Routing(q.verb, q.path, q.body, false, k, v, false);
    Routing(q.verb, q.path, q.body, false, k, v, true);
    hide Route, WordCodes;
  }

  /** The key of any path: what follows the last slash, unless that is nothing; and the
      first word of the body of a create. */
  lemma KeyOfPath(dir: string, last: string, body: string)
    requires '/' !in last
    ensures var path := dir + "/" + last;
      GetKey(path, body) ==
        if path == "/kvstore/create" && body != "" then FirstWord(body) else if last == "" then path else last
    ensures GetKey(last, body) == last
  {
    var path := dir + "/" + last;
    assert path[|dir|] == '/' && forall i :: |dir| < i < |path| ==> path[i] == last[i - |dir| - 1];
    assert path[|dir| + 1..] == last;
    assert last != "/kvstore/create" by { assert "/kvstore/create"[0] == '/'; }
  }

  lemma ClientKey(q: HttpRequest)
    requires ToClient(q).Some? && ProperKey(KeyOf(ToClient(q).value))
    ensures GetKey(q.path, q.body) == KeyOf(ToClient(q).value)
  {
    CreateSegment();
    assert FirstWord("") == "";
    RoutedByItsKey(q.verb, q.path, q.body, false);
  }

  /** For a proper key the proxy takes the read path exactly for a GET, looks up the
      replicas of its key, and what it sends reaches the handler that the
      step system assumes. */
  lemma AsInStepSystem(q: HttpRequest)
    requires ToClient(q).Some? && ProperKey(KeyOf(ToClient(q).value))
    ensures IsWrite(q.verb) <==> !ToClient(q).value.Get?
    ensures GetKey(q.path, q.body) == KeyOf(ToClient(q).value)
    ensures Route(q.verb, q.path, q.body, q.verb == "PUT") == Some(ToServer(ToClient(q).value))
  {
    ClientKey(q);
  }
}
