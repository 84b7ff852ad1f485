/** The LRU cache (kvcache.h): a list ordered by recency and an index into it. */
module KvCaches {

  /** Cached pairs, most recently used first. */
  type Pairs = seq<(string, string)>

  // ----- the operations, on values -----

  /** The position of `key` in the list, or its length. */
  function IndexOf(l: Pairs, key: string): (i: nat)
    ensures i <= |l|
    ensures forall j :: 0 <= j < i ==> l[j].0 != key
    ensures i < |l| ==> l[i].0 == key
  {
    if l == [] || l[0].0 == key then 0 else 1 + IndexOf(l[1..], key)
  }

  predicate Cached(l: Pairs, key: string) {
    IndexOf(l, key) < |l|
  }

  function Without(l: Pairs, key: string): Pairs {
    var i := IndexOf(l, key);
    if i < |l| then l[..i] + l[i + 1..] else l
  }

  function ToFront(l: Pairs, key: string): Pairs {
    var i := IndexOf(l, key);
    if i < |l| then [l[i]] + Without(l, key) else l
  }

  function ReadValue(l: Pairs, key: string): string {
    var i := IndexOf(l, key);
    if i < |l| then l[i].1 else ""
  }

  function AfterCreate(capacity: nat, l: Pairs, key: string, value: string): Pairs
    requires capacity >= 1
  {
    if Cached(l, key) then l
    else [(key, value)] + if |l| >= capacity then l[..|l| - 1] else l
  }

  function AfterUpdate(l: Pairs, key: string, value: string): Pairs {
    if Cached(l, key) then [(key, value)] + Without(l, key) else l
  }

  // ----- the class -----

  /** A node of `std::list`; the index stores references to nodes, as iterators. */
  class Node {
    const key: string
    var value: string

    constructor (key: string, value: string)
      ensures this.key == key && this.value == value
    {
      this.key := key;
      this.value := value;
    }
  }

  /** `splice` of one node to the front: the same node, at a new place. */
  function Spliced(s: seq<Node>, i: nat): seq<Node>
    requires i < |s|
  {
    [s[i]] + s[..i] + s[i + 1..]
  }

  function NodeIndex(s: seq<Node>, n: Node): (i: nat)
    requires n in s
    ensures i < |s| && s[i] == n
  {
    if s[0] == n then 0 else 1 + NodeIndex(s[1..], n)
  }

  ghost predicate DistinctKeys(s: seq<Node>) {
    forall i, j :: 0 <= i < j < |s| ==> s[i].key != s[j].key
  }

  /** The index maps every key of the list, and no other, to the node holding it. */
  ghost predicate Indexed(s: seq<Node>, m: map<string, Node>) {
    && (forall n :: n in s ==> n.key in m && m[n.key] == n)
    && (forall k :: k in m ==> m[k] in s && m[k].key == k)
  }

  ghost function PairsOf(s: seq<Node>): (l: Pairs)
    reads s
    ensures |l| == |s| && forall i :: 0 <= i < |s| ==> l[i] == (s[i].key, s[i].value)
  {
    seq(|s|, i requires 0 <= i < |s| reads s => (s[i].key, s[i].value))
  }

  lemma FoundAt(s: seq<Node>, i: nat)
    requires DistinctKeys(s) && i < |s|
    ensures IndexOf(PairsOf(s), s[i].key) == i
  {
    var j := IndexOf(PairsOf(s), s[i].key);
    assert PairsOf(s)[i].0 == s[i].key;
    assert j < |s| ==> PairsOf(s)[j].0 == s[j].key;
  }

  lemma NotFound(s: seq<Node>, m: map<string, Node>, key: string)
    requires Indexed(s, m) && key !in m
    ensures IndexOf(PairsOf(s), key) == |PairsOf(s)|
  {
    assert forall j :: 0 <= j < |s| ==> s[j] in s && PairsOf(s)[j].0 == s[j].key;
  }

  lemma SpliceIndexed(s: seq<Node>, m: map<string, Node>, i: nat)
    requires i < |s| && Indexed(s, m)
    ensures Indexed(Spliced(s, i), m)
  {
    assert s == s[..i] + [s[i]] + s[i + 1..];
  }

  lemma SpliceDistinct(s: seq<Node>, i: nat)
    requires i < |s| && DistinctKeys(s)
    ensures DistinctKeys(Spliced(s, i))
  {
    var t := Spliced(s, i);
    assert forall j :: 0 <= j < |t| ==> t[j] == if j == 0 then s[i] else if j <= i then s[j - 1] else s[j];
  }

  lemma SplicePairs(s: seq<Node>, i: nat)
    requires i < |s| && DistinctKeys(s)
    ensures PairsOf(Spliced(s, i)) == ToFront(PairsOf(s), s[i].key)
  {
    FoundAt(s, i);
    var t, l := Spliced(s, i), PairsOf(s);
    assert t == [s[i]] + (s[..i] + s[i + 1..]);
    assert PairsOf(t) == [l[i]] + (l[..i] + l[i + 1..]);
  }

  lemma DropDistinct(s: seq<Node>, i: nat)
    requires i < |s| && DistinctKeys(s)
    ensures DistinctKeys(s[..i] + s[i + 1..])
  {
    var t := s[..i] + s[i + 1..];
    assert forall j :: 0 <= j < |t| ==> t[j] == s[if j < i then j else j + 1];
  }

  lemma DropIndexed(s: seq<Node>, m: map<string, Node>, i: nat)
    requires i < |s| && DistinctKeys(s) && Indexed(s, m)
    ensures Indexed(s[..i] + s[i + 1..], m - {s[i].key})
  {
    var t := s[..i] + s[i + 1..];
    assert forall j :: 0 <= j < |t| ==> t[j] == s[if j < i then j else j + 1];
    forall n ensures n in t <==> n in s && n.key != s[i].key {
      if n in s && n.key != s[i].key {
        var j :| 0 <= j < |s| && s[j] == n;
        assert t[if j < i then j else j - 1] == n;
      }
    }
  }

  lemma DropPairs(s: seq<Node>, i: nat)
    requires i < |s| && DistinctKeys(s)
    ensures PairsOf(s[..i] + s[i + 1..]) == Without(PairsOf(s), s[i].key)
  {
    FoundAt(s, i);
    var l := PairsOf(s);
    assert PairsOf(s[..i] + s[i + 1..]) == l[..i] + l[i + 1..];
  }

  lemma DropLast(s: seq<Node>)
    requires s != []
    ensures PairsOf(s[..|s| - 1]) == PairsOf(s)[..|s| - 1]
  {
  }

  lemma UpdatedFront(l: Pairs, l': Pairs, key: string, value: string)
    requires Cached(l, key) && l' == l[IndexOf(l, key) := (key, value)]
    requires IndexOf(l', key) == IndexOf(l, key)
    ensures ToFront(l', key) == AfterUpdate(l, key, value)
  {
  }

  lemma PushPairs(s: seq<Node>, n: Node)
    ensures PairsOf([n] + s) == [(n.key, n.value)] + PairsOf(s)
  {
  }

  lemma PushKeeps(s: seq<Node>, m: map<string, Node>, n: Node)
    requires DistinctKeys(s) && Indexed(s, m) && n.key !in m
    ensures DistinctKeys([n] + s) && Indexed([n] + s, m[n.key := n])
  {
    assert forall j :: 0 <= j < |s| ==> s[j] in s;
  }

  class LRUCache {
    const capacity: nat
    var cacheList: seq<Node>
    var cacheMap: map<string, Node>

    /** Index and list agree, keys are distinct, and the capacity is respected. */
    ghost predicate Valid()
      reads this
    {
      1 <= capacity && |cacheList| <= capacity && DistinctKeys(cacheList) && Indexed(cacheList, cacheMap)
    }

    ghost function Contents(): (l: Pairs)
      reads this, cacheList
    {
      PairsOf(cacheList)
    }

    constructor (capacity: nat)
      requires capacity >= 1
      ensures Valid() && Contents() == [] && this.capacity == capacity
    {
      this.capacity := capacity;
      cacheList := [];
      cacheMap := map[];
    }

    method ReadKey(key: string) returns (value: string)
      requires Valid()
      modifies this`cacheList
      ensures Valid()
      ensures Contents() == ToFront(old(Contents()), key)
      ensures value == ReadValue(old(Contents()), key)
    {
      if key !in cacheMap {
        NotFound(cacheList, cacheMap, key);
        return "";
      }
      var i := NodeIndex(cacheList, cacheMap[key]);
      FoundAt(cacheList, i);
      SpliceDistinct(cacheList, i);
      SpliceIndexed(cacheList, cacheMap, i);
      SplicePairs(cacheList, i);
      cacheList := Spliced(cacheList, i);
      value := cacheMap[key].value;
    }

    method CreateKey(key: string, value: string) returns (r: int)
      requires Valid()
      modifies this
      ensures Valid()
      ensures Contents() == AfterCreate(capacity, old(Contents()), key, value)
      ensures r == if Cached(old(Contents()), key) then -1 else 0
    {
      if key in cacheMap {
        FoundAt(cacheList, NodeIndex(cacheList, cacheMap[key]));
        return -1;
      }
      NotFound(cacheList, cacheMap, key);
      if |cacheList| >= capacity {
        EvictLast();
      }
      PushFront(key, value);
      r := 0;
    }

    /** The insertion step of `create_key`: `emplace_front` and the index entry. */
    method PushFront(key: string, value: string)
      requires Valid() && key !in cacheMap && |cacheList| < capacity
      modifies this
      ensures Valid() && Contents() == [(key, value)] + old(Contents())
    {
      var node := new Node(key, value);
      PushKeeps(cacheList, cacheMap, node);
      PushPairs(cacheList, node);
      cacheList := [node] + cacheList;
      cacheMap := cacheMap[key := node];
    }

    /** The eviction step of `create_key`: `back()`, `erase` and `pop_back`. */
    method EvictLast()
      requires Valid() && cacheList != []
      modifies this
      ensures Valid() && cacheList == old(cacheList)[..|old(cacheList)| - 1]
      ensures cacheMap.Keys <= old(cacheMap).Keys
      ensures Contents() == old(Contents())[..|old(Contents())| - 1]
    {
      var last := |cacheList| - 1;
      DropDistinct(cacheList, last);
      DropIndexed(cacheList, cacheMap, last);
      DropLast(cacheList);
      assert cacheList[..last] + cacheList[last + 1..] == cacheList[..last];
      cacheMap := cacheMap - {cacheList[last].key};
      cacheList := cacheList[..last];
    }

    method UpdateKey(key: string, value: string) returns (r: int)
      requires Valid()
      modifies this`cacheList, cacheList
      ensures Valid()
      ensures Contents() == AfterUpdate(old(Contents()), key, value)
      ensures r == if Cached(old(Contents()), key) then 0 else -1
    {
      if key !in cacheMap {
        NotFound(cacheList, cacheMap, key);
        return -1;
      }
      var i := NodeIndex(cacheList, cacheMap[key]);
      FoundAt(cacheList, i);
      ghost var l := Contents();
      cacheMap[key].value := value;
      assert PairsOf(cacheList) == l[i := (key, value)] by {
        assert forall j :: 0 <= j < |cacheList| && j != i ==> cacheList[j] != cacheList[i];
      }
      UpdatedFront(l, PairsOf(cacheList), key, value);
      SpliceDistinct(cacheList, i);
      SpliceIndexed(cacheList, cacheMap, i);
      SplicePairs(cacheList, i);
      cacheList := Spliced(cacheList, i);
      r := 0;
    }

    method DeleteKey(key: string) returns (r: int)
      requires Valid()
      modifies this
      ensures Valid()
      ensures Contents() == Without(old(Contents()), key)
      ensures r == if Cached(old(Contents()), key) then 0 else -1
    {
      if key !in cacheMap {
        NotFound(cacheList, cacheMap, key);
        return -1;
      }
      var i := NodeIndex(cacheList, cacheMap[key]);
      FoundAt(cacheList, i);
      DropDistinct(cacheList, i);
      DropIndexed(cacheList, cacheMap, i);
      DropPairs(cacheList, i);
      cacheList := cacheList[..i] + cacheList[i + 1..];
      cacheMap := cacheMap - {key};
      r := 0;
    }
  }

  // ----- recency -----

  datatype CacheOp =
    | Read(key: string)
    | Create(key: string, value: string)
    | Update(key: string, value: string)
    | Delete(key: string)

  function Apply(capacity: nat, l: Pairs, op: CacheOp): Pairs
    requires capacity >= 1
  {
    match op
    case Read(key) => ToFront(l, key)
    case Create(key, value) => AfterCreate(capacity, l, key, value)
    case Update(key, value) => AfterUpdate(l, key, value)
    case Delete(key) => Without(l, key)
  }

  /** The list of an initially empty cache after the given calls. */
  function Run(capacity: nat, ops: seq<CacheOp>): Pairs
    requires capacity >= 1
  {
    if ops == [] then [] else Apply(capacity, Run(capacity, ops[..|ops| - 1]), ops[|ops| - 1])
  }

  /** A call uses a key when it reads or updates a cached key or inserts a new one. */
  predicate Uses(l: Pairs, op: CacheOp, key: string) {
    !op.Delete? && op.key == key && (op.Create? <==> !Cached(l, key))
  }

  /** The index of the last call that used `key`, or -1. */
  function LastUse(capacity: nat, ops: seq<CacheOp>, key: string): int
    requires capacity >= 1
  {
    if ops == [] then -1
    else
      var n := |ops| - 1;
      if Uses(Run(capacity, ops[..n]), ops[n], key) then n else LastUse(capacity, ops[..n], key)
  }

  /** Most recent first, according to `use`; hence no key twice. */
  ghost predicate Ordered(l: Pairs, use: string -> int) {
    forall i, j :: 0 <= i < j < |l| ==> use(l[i].0) > use(l[j].0)
  }

  lemma WithoutOrdered(l: Pairs, key: string, use: string -> int)
    requires Ordered(l, use)
    ensures Ordered(Without(l, key), use)
    ensures forall i :: 0 <= i < |Without(l, key)| ==> Without(l, key)[i] in l && Without(l, key)[i].0 != key
  {
    var w, n := Without(l, key), IndexOf(l, key);
    assert forall i :: 0 <= i < |w| ==> w[i] == l[if i < n then i else i + 1];
  }

  lemma FrontOrdered(l: Pairs, pair: (string, string), use: string -> int, use': string -> int)
    requires Ordered(l, use)
    requires forall i :: 0 <= i < |l| ==> use'(l[i].0) == use(l[i].0) < use'(pair.0)
    ensures Ordered([pair] + l, use')
  {
  }

  /** Whatever the calls, the list is ordered by last use and fits the capacity. */
  lemma {:induction false} ListByLastUse(capacity: nat, ops: seq<CacheOp>)
    requires capacity >= 1
    ensures |Run(capacity, ops)| <= capacity
    ensures Ordered(Run(capacity, ops), k => LastUse(capacity, ops, k))
    ensures forall k :: LastUse(capacity, ops, k) < |ops|
  {
    if ops == [] {
    } else {
      var n := |ops| - 1;
      var l, op := Run(capacity, ops[..n]), ops[n];
      var use, use' := k => LastUse(capacity, ops[..n], k), k => LastUse(capacity, ops, k);
      ListByLastUse(capacity, ops[..n]);
      assert forall k :: use'(k) == if Uses(l, op, k) then n else use(k);
      OneStep(capacity, l, op, use, use', n);
    }
  }

  lemma OneStep(capacity: nat, l: Pairs, op: CacheOp, use: string -> int, use': string -> int, n: nat)
    requires 1 <= capacity && |l| <= capacity && Ordered(l, use)
    requires forall k :: use(k) < n && use'(k) == if Uses(l, op, k) then n else use(k)
    ensures |Apply(capacity, l, op)| <= capacity
    ensures Ordered(Apply(capacity, l, op), use')
  {
    if op.Create? {
      CreateStep(capacity, l, op, use, use');
    } else {
      var w := Without(l, op.key);
      WithoutOrdered(l, op.key, use);
      if Cached(l, op.key) && !op.Delete? {
        var pair := Apply(capacity, l, op)[0];
        FrontOrdered(w, pair, use, use');
      }
    }
  }

  lemma CreateStep(capacity: nat, l: Pairs, op: CacheOp, use: string -> int, use': string -> int)
    requires 1 <= capacity && |l| <= capacity && Ordered(l, use) && op.Create?
    requires forall k :: if Uses(l, op, k) then use(k) < use'(k) else use'(k) == use(k)
    requires forall k :: use(k) < use'(op.key) || !Uses(l, op, op.key)
    ensures |Apply(capacity, l, op)| <= capacity
    ensures Ordered(Apply(capacity, l, op), use')
  {
    if !Cached(l, op.key) {
      var kept := if |l| >= capacity then l[..|l| - 1] else l;
      assert forall i :: 0 <= i < |kept| ==> kept[i] == l[i] && l[i].0 != op.key;
      FrontOrdered(kept, (op.key, op.value), use, use');
    }
  }

  /** When a full cache takes a new key, exactly the least recently used key goes. */
  lemma EvictsLeastRecent(capacity: nat, ops: seq<CacheOp>, key: string, value: string)
    requires capacity >= 1
    requires var l := Run(capacity, ops); |l| == capacity && !Cached(l, key)
    ensures var l, l' := Run(capacity, ops), Run(capacity, ops + [Create(key, value)]);
      && l' == [(key, value)] + l[..|l| - 1]
      && (forall i :: 0 <= i < |l| - 1 ==> LastUse(capacity, ops, l[|l| - 1].0) < LastUse(capacity, ops, l[i].0))
  {
    var all := ops + [Create(key, value)];
    assert all[..|all| - 1] == ops;
    ListByLastUse(capacity, ops);
  }

  // ----- values -----

  lemma ValueCons(p: (string, string), l: Pairs, key: string)
    ensures Cached([p] + l, key) <==> p.0 == key || Cached(l, key)
    ensures ReadValue([p] + l, key) == if p.0 == key then p.1 else ReadValue(l, key)
  {
    assert ([p] + l)[1..] == l;
  }

  lemma WithoutCons(l: Pairs, gone: string)
    requires l != [] && l[0].0 != gone
    ensures Without(l, gone) == [l[0]] + Without(l[1..], gone)
  {
  }

  lemma {:induction false} ValueWithout(l: Pairs, gone: string, key: string)
    requires gone != key
    ensures Cached(Without(l, gone), key) <==> Cached(l, key)
    ensures ReadValue(Without(l, gone), key) == ReadValue(l, key)
  {
    if l == [] {
    } else if l[0].0 == gone {
      assert Without(l, gone) == l[1..];
    } else {
      hide Without, IndexOf;
      WithoutCons(l, gone);
      ValueWithout(l[1..], gone, key);
      ValueCons(l[0], l[1..], key);
      ValueCons(l[0], Without(l[1..], gone), key);
      assert l == [l[0]] + l[1..];
    }
  }

  lemma {:induction false} ValueTake(l: Pairs, n: nat, key: string)
    requires n <= |l|
    ensures Cached(l[..n], key) ==> Cached(l, key) && ReadValue(l[..n], key) == ReadValue(l, key)
  {
    if n == 0 {
    } else {
      ValueTake(l[1..], n - 1, key);
      assert l[..n] == [l[0]] + l[1..][..n - 1];
      ValueCons(l[0], l[1..][..n - 1], key);
    }
  }

  /** A call on another key, or a read, changes no cached value and caches no other key. */
  lemma ValueKept(capacity: nat, l: Pairs, op: CacheOp, key: string)
    requires capacity >= 1 && (op.key == key ==> op.Read?)
    ensures var l' := Apply(capacity, l, op);
      Cached(l', key) ==> Cached(l, key) && ReadValue(l', key) == ReadValue(l, key)
  {
    hide IndexOf;
    var w, n := Without(l, op.key), if |l| >= capacity then |l| - 1 else |l|;
    if op.key == key {
      if Cached(l, key) {
        ValueCons(l[IndexOf(l, key)], w, key);
      }
    } else {
      ValueWithout(l, op.key, key);
      if op.Create? {
        assert l[..|l|] == l;
        ValueTake(l, n, key);
        ValueCons((op.key, op.value), l[..n], key);
      } else if Cached(l, op.key) && !op.Delete? {
        ValueCons(Apply(capacity, l, op)[0], w, key);
      }
    }
  }

  lemma RunSnoc(capacity: nat, ops: seq<CacheOp>, op: CacheOp)
    requires capacity >= 1
    ensures Run(capacity, ops + [op]) == Apply(capacity, Run(capacity, ops), op)
  {
    assert (ops + [op])[..|ops + [op]| - 1] == ops;
  }

  /** A call that inserts, updates or deletes. */
  predicate Sets(l: Pairs, op: CacheOp) {
    match op
    case Create(key, _) => !Cached(l, key)
    case Update(key, _) => Cached(l, key)
    case Delete(_) => true
    case Read(_) => false
  }

  lemma SetNow(capacity: nat, l: Pairs, op: CacheOp, use: string -> int)
    requires capacity >= 1 && Ordered(l, use) && Sets(l, op)
    ensures var l' := Apply(capacity, l, op);
      if op.Delete? then !Cached(l', op.key) else Cached(l', op.key) && ReadValue(l', op.key) == op.value
  {
    WithoutOrdered(l, op.key, use);
  }

  /** A cached key has the value of the call that inserted it or updated it last, and a
      deleted key is not cached. */
  lemma {:induction false} ValueAsSet(capacity: nat, before: seq<CacheOp>, op: CacheOp, later: seq<CacheOp>)
    requires capacity >= 1 && Sets(Run(capacity, before), op)
    requires forall x :: x in later && x.key == op.key ==> x.Read?
    ensures var l := Run(capacity, before + [op] + later);
      Cached(l, op.key) ==> !op.Delete? && ReadValue(l, op.key) == op.value
    ensures later == [] && !op.Delete? ==> Cached(Run(capacity, before + [op] + later), op.key)
  {
    hide Run, Apply, Cached, ReadValue;
    var all, key := before + [op], op.key;
    if later == [] {
      assert all + later == all;
      RunSnoc(capacity, before, op);
      ListByLastUse(capacity, before);
      SetNow(capacity, Run(capacity, before), op, k => LastUse(capacity, before, k));
    } else {
      var n := |later| - 1;
      ValueAsSet(capacity, before, op, later[..n]);
      assert later[n] in later && all + later == all + later[..n] + [later[n]];
      RunSnoc(capacity, all + later[..n], later[n]);
      ValueKept(capacity, Run(capacity, all + later[..n]), later[n], key);
    }
  }
}
