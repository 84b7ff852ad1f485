/** The key-value server (kvserver.cpp): its handlers over a database table with
    and without the cache in front of it. */
module KvServers {
  import opened Text
  import opened KvCaches

  datatype Request =
    | CreateRequest(body: string)
    | ReadRequest(key: string)
    | UpdateRequest(key: string, value: string, replicated: bool)
    | DeleteRequest(key: string)
    | SyncRequest(key: string, value: string)

  datatype Response = Response(status: nat, body: string)

  type Table = map<string, string>

  /** What the routes' `\w+` matches. */
  predicate IsWord(k: string) {
    k != "" && forall i :: 0 <= i < |k| ==>
      IsDigit(k[i]) || 'a' <= k[i] <= 'z' || 'A' <= k[i] <= 'Z' || k[i] == '_'
  }

  /** A key of the store: a word that is not the last part of another route. */
  predicate ProperKey(k: string) {
    IsWord(k) && k != "create" && k != "allkeys"
  }

  /** The second `getline` of a create: what follows the blank, up to a newline.  The
      first one reads the key, `FirstWord`. */
  function CreateValueOf(body: string): string {
    match Find(body, " ")
    case None => ""
    case Some(i) =>
      match Find(body[i + 1..], "\n")
      case None => body[i + 1..]
      case Some(j) => body[i + 1..][..j]
  }

  /** What the two `getline`s read: the key up to the first blank, the value after it up
      to a line end; no blank, no value. */
  lemma CreateBodyRead(key: string, value: string, more: string)
    requires ' ' !in key && '\n' !in value
    ensures FirstWord(key + " " + value) == key && CreateValueOf(key + " " + value) == value
    ensures FirstWord(key + " " + value + "\n" + more) == key
    ensures CreateValueOf(key + " " + value + "\n" + more) == value
    ensures FirstWord(key) == key && CreateValueOf(key) == ""
  {
    FindChar(key, ' ');
    BlankAt(key, value);
    BlankAt(key, value + "\n" + more);
    assert key + " " + value + "\n" + more == key + " " + (value + "\n" + more);
    FindChar(value, '\n');
    assert (value + "\n" + more)[..|value|] == value && (value + "\n" + more)[|value|] == '\n';
    FindCharIs(value + "\n" + more, '\n', |value|);
  }

  lemma BlankAt(key: string, rest: string)
    requires ' ' !in key
    ensures Find(key + " " + rest, " ") == Some(|key|)
    ensures (key + " " + rest)[..|key|] == key && (key + " " + rest)[|key| + 1..] == rest
  {
    var s := key + " " + rest;
    assert s[..|key|] == key && s[|key|] == ' ';
    FindCharIs(s, ' ', |key|);
  }

  /** The body of `/kvstore/allkeys`: one row per line. */
  function AllKeysBody(rows: seq<string>): string {
    if rows == [] then "" else rows[0] + "\n" + AllKeysBody(rows[1..])
  }

  lemma {:induction false} AllKeysSnoc(rows: seq<string>, key: string)
    ensures AllKeysBody(rows + [key]) == AllKeysBody(rows) + key + "\n"
  {
    if rows == [] {
      assert [key][1..] == [] && AllKeysBody([key]) == key + "\n" + "";
    } else {
      assert (rows + [key])[1..] == rows[1..] + [key];
      AllKeysSnoc(rows[1..], key);
    }
  }

  /** `rows` lists the keys of the table once each, in some order. */
  ghost predicate RowsOf(db: Table, rows: seq<string>) {
    (forall k :: k in rows <==> k in db) && forall i, j :: 0 <= i < j < |rows| ==> rows[i] != rows[j]
  }

  // ----- a server without a cache -----

  function Handle(db: Table, req: Request): (Table, Response) {
    match req
    case CreateRequest(body) =>
      var key, value := FirstWord(body), CreateValueOf(body);
      if key in db then (db, Response(409, "Error: Key already exists"))
      else (db[key := value], Response(201, "Created Successfully"))
    case ReadRequest(key) =>
      (db, if key in db then Response(200, db[key]) else Response(404, "Key not Found\n"))
    case UpdateRequest(key, value, replicated) =>
      if key !in db && !replicated then (db, Response(404, "Key not found in DB\n"))
      else (db[key := value], Response(200, "Updated Successfully\n"))
    case DeleteRequest(key) =>
      if key !in db then (db, Response(404, "Key Not Found\n"))
      else (db - {key}, Response(200, "Deleted Successfully\n"))
    case SyncRequest(key, value) =>
      (db[key := value], Response(201, "Synced Successfully\n"))
  }

  /** What the clients see when a request does nothing; a sync always does something. */
  lemma Refusals(db: Table, key: string, value: string)
    requires ' ' !in key && '\n' !in value
    ensures key in db ==> Handle(db, CreateRequest(key + " " + value)) == (db, Response(409, "Error: Key already exists"))
    ensures key !in db ==> Handle(db, ReadRequest(key)) == (db, Response(404, "Key not Found\n"))
    ensures key !in db ==> Handle(db, DeleteRequest(key)) == (db, Response(404, "Key Not Found\n"))
    ensures key !in db ==> Handle(db, UpdateRequest(key, value, false)) == (db, Response(404, "Key not found in DB\n"))
    ensures Handle(db, SyncRequest(key, value)) == (db[key := value], Response(201, "Synced Successfully\n"))
  {
    CreateBodyRead(key, value, "");
  }

  // ----- the server with its cache -----

  datatype Server = Server(db: Table, cache: Pairs)

  function Serve(capacity: nat, s: Server, req: Request): (Server, Response)
    requires capacity >= 1
  {
    match req
    case CreateRequest(body) =>
      var key, value := FirstWord(body), CreateValueOf(body);
      if key in s.db then (s, Response(409, "Error: Key already exists"))
      else
        (Server(s.db[key := value], AfterCreate(capacity, s.cache, key, value)),
         Response(201, "Created Successfully"))
    case ReadRequest(key) =>
      var hit, cache := ReadValue(s.cache, key), ToFront(s.cache, key);
      if hit != "" then (Server(s.db, cache), Response(200, hit))
      else if key !in s.db then (Server(s.db, cache), Response(404, "Key not Found\n"))
      else (Server(s.db, AfterCreate(capacity, cache, key, s.db[key])), Response(200, s.db[key]))
    case UpdateRequest(key, value, replicated) =>
      if key !in s.db && !replicated then (s, Response(404, "Key not found in DB\n"))
      else
        (Server(s.db[key := value], KvCaches.Without(s.cache, key)), Response(200, "Updated Successfully\n"))
    case DeleteRequest(key) =>
      if key !in s.db then (s, Response(404, "Key Not Found\n"))
      else (Server(s.db - {key}, KvCaches.Without(s.cache, key)), Response(200, "Deleted Successfully\n"))
    case SyncRequest(key, value) =>
      (Server(s.db[key := value], KvCaches.Without(s.cache, key)), Response(201, "Synced Successfully\n"))
  }

  method JoinKeys(db: Table) returns (rows: seq<string>, body: string)
    ensures RowsOf(db, rows) && body == AllKeysBody(rows)
  {
    rows, body := [], "";
    var todo := db.Keys;
    while todo != {}
      invariant todo <= db.Keys
      invariant forall k :: k in rows <==> k in db && k !in todo
      invariant forall i, j :: 0 <= i < j < |rows| ==> rows[i] != rows[j]
      invariant body == AllKeysBody(rows)
      decreases |todo|
    {
      var key: string :| key in todo;
      AllKeysSnoc(rows, key);
      rows, body, todo := rows + [key], body + (key + "\n"), todo - {key};
    }
  }

  class KvServer {
    var db: Table
    const cache: LRUCache

    ghost function State(): Server
      reads this, cache, cache.cacheList
    {
      Server(db, cache.Contents())
    }

    constructor (capacity: nat)
      requires capacity >= 1
      ensures fresh(cache) && cache.Valid() && cache.capacity == capacity
      ensures State() == Server(map[], [])
    {
      db := map[];
      cache := new LRUCache(capacity);
    }

    method HandleCreate(body: string) returns (res: Response)
      requires cache.Valid()
      modifies this, cache
      ensures cache.Valid() && (State(), res) == Serve(cache.capacity, old(State()), CreateRequest(body))
    {
      var key, value := FirstWord(body), CreateValueOf(body);
      if key in db {
        return Response(409, "Error: Key already exists");
      }
      db := db[key := value];
      var _ := cache.CreateKey(key, value);
      res := Response(201, "Created Successfully");
    }

    method HandleDelete(key: string) returns (res: Response)
      requires cache.Valid()
      modifies this, cache
      ensures cache.Valid() && (State(), res) == Serve(cache.capacity, old(State()), DeleteRequest(key))
    {
      if key !in db {
        return Response(404, "Key Not Found\n");
      }
      db := db - {key};
      var _ := cache.DeleteKey(key);
      res := Response(200, "Deleted Successfully\n");
    }

    method HandleRead(key: string) returns (res: Response)
      requires cache.Valid()
      modifies this, cache
      ensures cache.Valid() && (State(), res) == Serve(cache.capacity, old(State()), ReadRequest(key))
    {
      var value := cache.ReadKey(key);
      if value != "" {
        return Response(200, value);
      }
      if key !in db {
        return Response(404, "Key not Found\n");
      }
      var _ := cache.CreateKey(key, db[key]);
      res := Response(200, db[key]);
    }

    method HandleUpdate(key: string, value: string, replicated: bool) returns (res: Response)
      requires cache.Valid()
      modifies this, cache
      ensures cache.Valid() && (State(), res) == Serve(cache.capacity, old(State()), UpdateRequest(key, value, replicated))
    {
      if key !in db && !replicated {
        return Response(404, "Key not found in DB\n");
      }
      db := db[key := value];
      var _ := cache.DeleteKey(key);
      res := Response(200, "Updated Successfully\n");
    }

    /** The rows of a `SELECT`, in no particular order, and the loop that joins them. */
    method HandleAllKeys() returns (rows: seq<string>, res: Response)
      ensures RowsOf(db, rows) && res == Response(200, AllKeysBody(rows))
    {
      var body;
      rows, body := JoinKeys(db);
      res := Response(200, body);
    }

    method HandleSync(key: string, value: string) returns (res: Response)
      requires cache.Valid()
      modifies this, cache
      ensures cache.Valid() && (State(), res) == Serve(cache.capacity, old(State()), SyncRequest(key, value))
    {
      db := db[key := value];
      var _ := cache.DeleteKey(key);
      res := Response(201, "Synced Successfully\n");
    }
  }

  // ----- the cache is invisible -----

  /** Every cached pair is a current pair of the table. */
  ghost predicate Coherent(s: Server) {
    forall i :: 0 <= i < |s.cache| ==> s.cache[i].0 in s.db && s.db[s.cache[i].0] == s.cache[i].1
  }

  ghost predicate DistinctPairs(l: Pairs) {
    forall i, j :: 0 <= i < j < |l| ==> l[i].0 != l[j].0
  }

  ghost predicate Fits(capacity: nat, s: Server) {
    Coherent(s) && |s.cache| <= capacity && DistinctPairs(s.cache)
  }

  lemma WithoutFits(capacity: nat, s: Server, key: string, db: Table)
    requires Fits(capacity, s)
    requires forall k :: k != key && k in s.db ==> k in db && db[k] == s.db[k]
    ensures Fits(capacity, Server(db, KvCaches.Without(s.cache, key)))
  {
    var w, n := KvCaches.Without(s.cache, key), IndexOf(s.cache, key);
    assert forall i :: 0 <= i < |w| ==> w[i] == s.cache[if i < n then i else i + 1] && w[i].0 != key;
  }

  lemma FrontFits(capacity: nat, s: Server, key: string)
    requires Fits(capacity, s)
    ensures Fits(capacity, Server(s.db, ToFront(s.cache, key)))
    ensures Cached(s.cache, key) ==> key in s.db && ReadValue(s.cache, key) == s.db[key]
  {
    WithoutFits(capacity, s, key, s.db);
    var w, n := KvCaches.Without(s.cache, key), IndexOf(s.cache, key);
    assert forall i :: 0 <= i < |w| ==> w[i] == s.cache[if i < n then i else i + 1] && w[i].0 != key;
  }

  lemma CreateFits(capacity: nat, s: Server, key: string, value: string)
    requires capacity >= 1 && Fits(capacity, s)
    requires key in s.db ==> s.db[key] == value
    ensures Fits(capacity, Server(s.db[key := value], AfterCreate(capacity, s.cache, key, value)))
  {
    if !Cached(s.cache, key) {
      var l := s.cache;
      var kept := if |l| >= capacity then l[..|l| - 1] else l;
      assert forall i :: 0 <= i < |kept| ==> kept[i] == l[i] && l[i].0 != key;
    }
  }

  lemma OneRequest(capacity: nat, s: Server, req: Request)
    requires capacity >= 1 && Fits(capacity, s)
    ensures Fits(capacity, Serve(capacity, s, req).0)
    ensures (Serve(capacity, s, req).0.db, Serve(capacity, s, req).1) == Handle(s.db, req)
  {
    match req
    case CreateRequest(body) =>
      if FirstWord(body) !in s.db {
        CreateFits(capacity, s, FirstWord(body), CreateValueOf(body));
      }
    case ReadRequest(key) =>
      FrontFits(capacity, s, key);
      if key in s.db {
        CreateFits(capacity, Server(s.db, ToFront(s.cache, key)), key, s.db[key]);
        assert s.db[key := s.db[key]] == s.db;
      }
    case UpdateRequest(key, value, _) => WithoutFits(capacity, s, key, s.db[key := value]);
    case DeleteRequest(key) => WithoutFits(capacity, s, key, s.db - {key});
    case SyncRequest(key, value) => WithoutFits(capacity, s, key, s.db[key := value]);
  }

  /** A pair other than the ones of `key` is pushed out only from the end of a full cache
      without the key. */
  ghost predicate Evicts(capacity: nat, l: Pairs, key: string, pair: (string, string)) {
    |l| == capacity && l != [] && pair == l[|l| - 1] && forall j :: 0 <= j < |l| ==> l[j].0 != key
  }

  lemma WithoutPairs(l: Pairs, key: string, pair: (string, string))
    requires DistinctPairs(l)
    ensures pair in KvCaches.Without(l, key) <==> pair in l && pair.0 != key
  {
    var w, n := KvCaches.Without(l, key), IndexOf(l, key);
    assert forall i :: 0 <= i < |w| ==> w[i] == l[if i < n then i else i + 1];
    if pair in l && pair.0 != key {
      var i :| 0 <= i < |l| && l[i] == pair;
      assert w[if i < n then i else i - 1] == pair;
    }
  }

  lemma CreatePairs(capacity: nat, l: Pairs, key: string, value: string, pair: (string, string))
    requires 1 <= capacity && |l| <= capacity && !Cached(l, key) && pair in l
    ensures pair in AfterCreate(capacity, l, key, value) || Evicts(capacity, l, key, pair)
  {
    var i :| 0 <= i < |l| && l[i] == pair;
    var l' := AfterCreate(capacity, l, key, value);
    assert i + 1 < |l'| ==> l'[i + 1] == pair;
  }

  /** What a request leaves in the cache.  A read of a present key, and a create of an
      absent one, leave the pair at the front, and push out the last pair at most, in a
      full cache that did not have the key. */
  lemma CacheFilled(capacity: nat, s: Server, key: string, value: string, pair: (string, string))
    requires capacity >= 1 && Fits(capacity, s) && ' ' !in key && '\n' !in value
    ensures var req := if key in s.db then ReadRequest(key) else CreateRequest(key + " " + value);
      var l := Serve(capacity, s, req).0.cache;
      && l != [] && l[0] == (key, if key in s.db then s.db[key] else value)
      && (pair in s.cache && pair.0 != key ==> pair in l || Evicts(capacity, s.cache, key, pair))
    ensures key !in s.db ==> Serve(capacity, s, ReadRequest(key)).0 == s
    ensures key in s.db ==> Serve(capacity, s, CreateRequest(key + " " + value)).0 == s
  {
    CreateBodyRead(key, value, "");
    FrontFits(capacity, s, key);
    hide FirstWord, CreateValueOf;
    if Cached(s.cache, key) {
      AlreadyFront(s.cache, key);
      WithoutPairs(s.cache, key, pair);
    } else if pair in s.cache {
      CreatePairs(capacity, s.cache, key, if key in s.db then s.db[key] else value, pair);
    }
  }

  /** A write that is not a create leaves nothing of its key in the cache, and every other
      pair; refused, it changes nothing. */
  lemma CacheCleared(capacity: nat, s: Server, key: string, value: string, replicated: bool, pair: (string, string))
    requires capacity >= 1 && Fits(capacity, s)
    ensures forall req :: req in [UpdateRequest(key, value, replicated), SyncRequest(key, value), DeleteRequest(key)] ==>
      (pair in Serve(capacity, s, req).0.cache <==> pair in s.cache && pair.0 != key)
    ensures key !in s.db ==> Serve(capacity, s, UpdateRequest(key, value, false)).0 == s
    ensures key !in s.db ==> Serve(capacity, s, DeleteRequest(key)).0 == s
  {
    WithoutPairs(s.cache, key, pair);
    hide KvCaches.Without;
  }

  function ServeAll(capacity: nat, s: Server, reqs: seq<Request>): (Server, seq<Response>)
    requires capacity >= 1
  {
    if reqs == [] then (s, [])
    else
      var (s', out) := ServeAll(capacity, s, reqs[..|reqs| - 1]);
      var (s'', res) := Serve(capacity, s', reqs[|reqs| - 1]);
      (s'', out + [res])
  }

  function HandleAll(db: Table, reqs: seq<Request>): (Table, seq<Response>) {
    if reqs == [] then (db, [])
    else
      var (db', out) := HandleAll(db, reqs[..|reqs| - 1]);
      var (db'', res) := Handle(db', reqs[|reqs| - 1]);
      (db'', out + [res])
  }

  /** A server with a cache of any capacity answers every request sequence as a
      server without one, and leaves the same table. */
  lemma {:induction false} CacheInvisible(capacity: nat, db: Table, reqs: seq<Request>)
    requires capacity >= 1
    ensures var (s, out) := ServeAll(capacity, Server(db, []), reqs);
      (s.db, out) == HandleAll(db, reqs) && Fits(capacity, s)
  {
    if reqs == [] {
    } else {
      var init := reqs[..|reqs| - 1];
      CacheInvisible(capacity, db, init);
      OneRequest(capacity, ServeAll(capacity, Server(db, []), init).0, reqs[|reqs| - 1]);
    }
  }

  // ----- a larger cache holds what a smaller one holds -----

  lemma CreateKeepsPrefix(c1: nat, c2: nat, l1: Pairs, l2: Pairs, key: string, value: string)
    requires 1 <= c1 <= c2 && |l1| <= c1 && |l2| <= c2 && l1 <= l2
    requires !Cached(l2, key)
    ensures !Cached(l1, key)
    ensures AfterCreate(c1, l1, key, value) <= AfterCreate(c2, l2, key, value)
  {
    PrefixIndex(l1, l2, key);
  }

  lemma PrefixIndex(l1: Pairs, l2: Pairs, key: string)
    requires l1 <= l2
    ensures if IndexOf(l2, key) < |l1| then IndexOf(l1, key) == IndexOf(l2, key) else IndexOf(l1, key) == |l1|
  {
    var i, j := IndexOf(l1, key), IndexOf(l2, key);
    assert l1 == l2[..|l1|];
    assert j < |l1| ==> l1[j].0 == key;
    assert i < |l1| ==> l2[i].0 == key;
  }

  lemma WithoutKeepsPrefix(l1: Pairs, l2: Pairs, key: string)
    requires l1 <= l2
    ensures KvCaches.Without(l1, key) <= KvCaches.Without(l2, key)
  {
    PrefixIndex(l1, l2, key);
    var w1, w2, i := KvCaches.Without(l1, key), KvCaches.Without(l2, key), IndexOf(l2, key);
    assert forall k :: 0 <= k < |w1| ==> w1[k] == w2[k];
  }

  lemma InclusionStep(c1: nat, c2: nat, s1: Server, s2: Server, req: Request)
    requires 1 <= c1 <= c2 && Fits(c1, s1) && Fits(c2, s2)
    requires s1.db == s2.db && s1.cache <= s2.cache
    ensures Serve(c1, s1, req).0.cache <= Serve(c2, s2, req).0.cache
  {
    var key := match req case CreateRequest(body) => FirstWord(body) case _ => req.key;
    WithoutKeepsPrefix(s1.cache, s2.cache, key);
    PrefixIndex(s1.cache, s2.cache, key);
    var i := IndexOf(s2.cache, key);
    match req
    case CreateRequest(body) =>
      if key !in s2.db {
        CreateKeepsPrefix(c1, c2, s1.cache, s2.cache, key, CreateValueOf(body));
      }
    case ReadRequest(_) =>
      ReadInclusion(c1, c2, s1, s2, key);
    case _ =>
  }

  lemma ReadInclusion(c1: nat, c2: nat, s1: Server, s2: Server, key: string)
    requires 1 <= c1 <= c2 && Fits(c1, s1) && Fits(c2, s2)
    requires s1.db == s2.db && s1.cache <= s2.cache
    ensures Serve(c1, s1, ReadRequest(key)).0.cache <= Serve(c2, s2, ReadRequest(key)).0.cache
  {
    var l1, l2, i := s1.cache, s2.cache, IndexOf(s2.cache, key);
    PrefixIndex(l1, l2, key);
    WithoutKeepsPrefix(l1, l2, key);
    if i == |l2| {
      if key in s2.db {
        CreateKeepsPrefix(c1, c2, l1, l2, key, s2.db[key]);
      }
    } else {
      assert l2[i] == (key, s2.db[key]);
      AlreadyFront(l2, key);
      if i < |l1| {
        AlreadyFront(l1, key);
        assert l1[i] == l2[i];
      }
    }
  }

  lemma AlreadyFront(l: Pairs, key: string)
    requires Cached(l, key)
    ensures Cached(ToFront(l, key), key)
  {
  }

  /** On one request sequence the list of the smaller cache is always a prefix of
      the larger one's. */
  lemma {:induction false} Inclusion(c1: nat, c2: nat, db: Table, reqs: seq<Request>)
    requires 1 <= c1 <= c2
    ensures ServeAll(c1, Server(db, []), reqs).0.cache <= ServeAll(c2, Server(db, []), reqs).0.cache
  {
    if reqs == [] {
    } else {
      var init := reqs[..|reqs| - 1];
      Inclusion(c1, c2, db, init);
      CacheInvisible(c1, db, init);
      CacheInvisible(c2, db, init);
      InclusionStep(c1, c2, ServeAll(c1, Server(db, []), init).0, ServeAll(c2, Server(db, []), init).0, reqs[|reqs| - 1]);
    }
  }

  /** The reads answered from the cache. */
  function Hits(capacity: nat, db: Table, reqs: seq<Request>): nat
    requires capacity >= 1
  {
    if reqs == [] then 0
    else
      var init, req := reqs[..|reqs| - 1], reqs[|reqs| - 1];
      var l := ServeAll(capacity, Server(db, []), init).0.cache;
      Hits(capacity, db, init) + if req.ReadRequest? && ReadValue(l, req.key) != "" then 1 else 0
  }

  lemma {:induction false} MoreCapacityMoreHits(c1: nat, c2: nat, db: Table, reqs: seq<Request>)
    requires 1 <= c1 <= c2
    ensures Hits(c1, db, reqs) <= Hits(c2, db, reqs)
  {
    if reqs == [] {
    } else {
      var init, req := reqs[..|reqs| - 1], reqs[|reqs| - 1];
      MoreCapacityMoreHits(c1, c2, db, init);
      Inclusion(c1, c2, db, init);
      if req.ReadRequest? {
        PrefixIndex(ServeAll(c1, Server(db, []), init).0.cache, ServeAll(c2, Server(db, []), init).0.cache, req.key);
      }
    }
  }
}
