/** Writes as the session threads do them, one replica at a time: without any fault the
    homes of a key agree exactly if its writes do not overlap, or do not depend on
    their order (load_balancer/src/ProxySession.cpp). */
module Overlaps {
  import opened Text
  import opened HashRings
  import opened Routers
  import opened KvServers
  import opened Backends
  import opened Clusters
  import opened ClusterSafety
  import opened Guarantees

  /** A write under way, and the replicas it has not been sent to. */
  datatype Flight = Flight(c: ClientRequest, left: seq<int>)

  datatype Race = Race(machines: Machines, flying: map<nat, Flight>)

  datatype Part = Begin(id: nat, c: ClientRequest) | Send(id: nat)

  predicate CanAdvance(x: Race, part: Part) {
    match part
    case Begin(id, c) => id !in x.flying && !c.Get?
    case Send(id) => id in x.flying && x.flying[id].left != []
  }

  function Landed(m: Machines, p: int, c: ClientRequest): Machines {
    if p in m then Deliver(m, p, Acts(c)).0 else m
  }

  function Advance(u: Setup, x: Race, part: Part): Race
    requires CanAdvance(x, part)
  {
    match part
    case Begin(id, c) => x.(flying := x.flying[id := Flight(c, Take(u.order(KeyOf(c)), 2))])
    case Send(id) =>
      var f := x.flying[id];
      Race(Landed(x.machines, f.left[0], f.c),
        if |f.left| == 1 then x.flying - {id} else x.flying[id := Flight(f.c, f.left[1..])])
  }

  predicate CanAdvanceAll(u: Setup, x: Race, parts: seq<Part>)
    decreases |parts|
  {
    parts != [] ==> CanAdvance(x, parts[0]) && CanAdvanceAll(u, Advance(u, x, parts[0]), parts[1..])
  }

  function AdvanceAll(u: Setup, x: Race, parts: seq<Part>): Race
    requires CanAdvanceAll(u, x, parts)
    decreases |parts|
  {
    if parts == [] then x else AdvanceAll(u, Advance(u, x, parts[0]), parts[1..])
  }

  /** No write begins while another of its key is under way. */
  predicate Orderly(u: Setup, x: Race, parts: seq<Part>)
    requires CanAdvanceAll(u, x, parts)
    decreases |parts|
  {
    parts != [] ==> Apart(x, parts[0]) && Orderly(u, Advance(u, x, parts[0]), parts[1..])
  }

  predicate Apart(x: Race, part: Part) {
    part.Begin? ==> forall i :: i in x.flying ==> KeyOf(x.flying[i].c) != KeyOf(part.c)
  }

  /** The store built by the writes in the order in which they began. */
  function Started(abs: Table, parts: seq<Part>): Table
    decreases |parts|
  {
    if parts == [] then abs
    else Started(if parts[0].Begin? then Effect(abs, parts[0].c) else abs, parts[1..])
  }

  /** What a write makes of the entry of its key. */
  function OnEntry(e: Option<string>, c: ClientRequest): Option<string> {
    match c
    case Get(_) => e
    case Put(_, value) => Some(value)
    case Create(body) => if e.Some? then e else Some(CreateValueOf(body))
    case Delete(_) => None
  }

  lemma EffectIsOnEntry(db: Table, c: ClientRequest)
    ensures EntryOf(Effect(db, c), KeyOf(c)) == OnEntry(EntryOf(db, KeyOf(c)), c)
  {
  }

  lemma LandedIs(m: Machines, p: int, c: ClientRequest)
    requires p in m
    ensures var m' := Landed(m, p, c);
      && m'.Keys == m.Keys && (forall q :: q in m && q != p ==> m'[q] == m[q])
      && m'[p].alive == m[p].alive
      && EntryOf(m'[p].db, KeyOf(c)) == OnEntry(EntryOf(m[p].db, KeyOf(c)), c)
      && forall k :: k != KeyOf(c) ==> EntryOf(m'[p].db, k) == EntryOf(m[p].db, k)
  {
    HandleIsEffect(m[p].db, c);
    EffectIsOnEntry(m[p].db, c);
    forall k | k != KeyOf(c) ensures EntryOf(Effect(m[p].db, c), k) == EntryOf(m[p].db, k) {
      EffectOnEntry(m[p].db, m[p].db, c, k);
    }
  }

  // ----- no overlap -----

  ghost predicate TwoHomes(u: Setup, m: Machines) {
    forall k :: |u.order(k)| >= 2 && u.order(k)[0] != u.order(k)[1] && u.order(k)[0] in m && u.order(k)[1] in m
  }

  /** A write under way still has the second home before it, or both. */
  ghost predicate FlightFits(u: Setup, f: Flight) {
    var o := u.order(KeyOf(f.c));
    !f.c.Get? && |o| >= 2 && (f.left == [o[0], o[1]] || f.left == [o[1]])
  }

  /** The entry of `k` at `p` is as it should be once the writes under way have landed. */
  ghost predicate WillBe(x: Race, abs: Table, p: int, k: string)
    requires p in x.machines
  {
    && (forall i :: i in x.flying && KeyOf(x.flying[i].c) == k && p in x.flying[i].left ==>
      OnEntry(EntryOf(x.machines[p].db, k), x.flying[i].c) == EntryOf(abs, k))
    && ((forall i :: i in x.flying && KeyOf(x.flying[i].c) == k ==> p !in x.flying[i].left) ==>
      EntryOf(x.machines[p].db, k) == EntryOf(abs, k))
  }

  ghost predicate RaceInv(u: Setup, x: Race, abs: Table) {
    && TwoHomes(u, x.machines)
    && (forall i :: i in x.flying ==> FlightFits(u, x.flying[i]))
    && (forall i, j :: i in x.flying && j in x.flying && KeyOf(x.flying[i].c) == KeyOf(x.flying[j].c) ==> i == j)
    && (forall p, k :: Home(u, k, p) && p in x.machines ==> WillBe(x, abs, p, k))
  }

  lemma BeginKeeps(u: Setup, x: Race, abs: Table, id: nat, c: ClientRequest)
    requires RaceInv(u, x, abs) && CanAdvance(x, Begin(id, c)) && Apart(x, Begin(id, c))
    ensures RaceInv(u, Advance(u, x, Begin(id, c)), Effect(abs, c))
  {
    var x', k0 := Advance(u, x, Begin(id, c)), KeyOf(c);
    forall p, k | Home(u, k, p) && p in x.machines ensures WillBe(x', Effect(abs, c), p, k) {
      assert WillBe(x, abs, p, k);
      if k == k0 {
        assert p in x'.flying[id].left;
        EffectIsOnEntry(abs, c);
      } else {
        EffectOnEntry(abs, abs, c, k);
        assert forall i :: i in x'.flying && KeyOf(x'.flying[i].c) == k ==> i in x.flying && x'.flying[i] == x.flying[i];
        assert forall i :: i in x.flying ==> i in x'.flying && x'.flying[i] == x.flying[i];
      }
    }
  }

  lemma SendKeeps(u: Setup, x: Race, abs: Table, id: nat)
    requires RaceInv(u, x, abs) && CanAdvance(x, Send(id))
    ensures RaceInv(u, Advance(u, x, Send(id)), abs)
  {
    hide WillBe, Landed, OnEntry;
    var x', f := Advance(u, x, Send(id)), x.flying[id];
    var p0 := f.left[0];
    assert FlightFits(u, f);
    LandedIs(x.machines, p0, f.c);
    forall p, k | Home(u, k, p) && p in x.machines ensures WillBe(x', abs, p, k) {
      assert WillBe(x, abs, p, k);
      if k == KeyOf(f.c) {
        SendSame(x, abs, id, p, x');
      } else {
        SendOther(x, abs, id, p, k, x');
      }
    }
  }

  /** One part of a flight leaves the others as they are. */
  ghost predicate OthersFly(x: Race, id: nat, x': Race) {
    && (forall i :: i in x'.flying && i != id ==> i in x.flying && x'.flying[i] == x.flying[i])
    && (forall i :: i in x.flying && i != id ==> i in x'.flying && x'.flying[i] == x.flying[i])
  }

  lemma SendOther(x: Race, abs: Table, id: nat, p: int, k: string, x': Race)
    requires OthersFly(x, id, x') && p in x.machines && p in x'.machines && WillBe(x, abs, p, k)
    requires id in x.flying && KeyOf(x.flying[id].c) != k
    requires id in x'.flying ==> x'.flying[id].c == x.flying[id].c
    requires EntryOf(x'.machines[p].db, k) == EntryOf(x.machines[p].db, k)
    ensures WillBe(x', abs, p, k)
  {
  }

  lemma SendSame(x: Race, abs: Table, id: nat, p: int, x': Race)
    requires OthersFly(x, id, x') && p in x.machines && p in x'.machines && id in x.flying
    requires WillBe(x, abs, p, KeyOf(x.flying[id].c))
    requires forall j :: j in x.flying && KeyOf(x.flying[j].c) == KeyOf(x.flying[id].c) ==> j == id
    requires var f := x.flying[id];
      && f.left != [] && f.left[0] !in f.left[1..]
      && (if |f.left| == 1 then id !in x'.flying else id in x'.flying && x'.flying[id] == Flight(f.c, f.left[1..]))
      && EntryOf(x'.machines[p].db, KeyOf(f.c)) == if p == f.left[0]
        then OnEntry(EntryOf(x.machines[p].db, KeyOf(f.c)), f.c) else EntryOf(x.machines[p].db, KeyOf(f.c))
    ensures WillBe(x', abs, p, KeyOf(x.flying[id].c))
  {
    var f := x.flying[id];
    assert f.left == [f.left[0]] + f.left[1..];
  }

  lemma {:induction false} OrderlyKeeps(u: Setup, x: Race, abs: Table, parts: seq<Part>)
    requires RaceInv(u, x, abs) && CanAdvanceAll(u, x, parts) && Orderly(u, x, parts)
    ensures RaceInv(u, AdvanceAll(u, x, parts), Started(abs, parts))
    decreases |parts|
  {
    if parts == [] {
    } else {
      hide RaceInv, Advance;
      match parts[0]
      case Begin(id, c) =>
        BeginKeeps(u, x, abs, id, c);
        OrderlyKeeps(u, Advance(u, x, parts[0]), Effect(abs, c), parts[1..]);
      case Send(id) =>
        SendKeeps(u, x, abs, id);
        OrderlyKeeps(u, Advance(u, x, parts[0]), abs, parts[1..]);
    }
  }

  lemma RaceStarts(u: Setup, s: Cluster, abs: Table)
    requires GoodSetup(u) && Initial(u, s, abs)
    ensures RaceInv(u, Race(s.machines, map[]), abs)
  {
    forall k ensures |u.order(k)| >= 2 && u.order(k)[0] != u.order(k)[1]
      && u.order(k)[0] in s.machines && u.order(k)[1] in s.machines
    {
      TwoOwners(u, k);
    }
  }

  /** However the parts of writes by any number of sessions mix: if no two writes of one
      key overlap, then every key without a write under way has at both its homes what
      the writes left under it in the order in which they began. */
  lemma ApartAgree(u: Setup, s: Cluster, abs: Table, parts: seq<Part>, x: Race, k: string, p: int)
    requires GoodSetup(u) && Initial(u, s, abs)
    requires CanAdvanceAll(u, Race(s.machines, map[]), parts) && Orderly(u, Race(s.machines, map[]), parts)
    requires x == AdvanceAll(u, Race(s.machines, map[]), parts) && Home(u, k, p)
    requires forall i :: i in x.flying ==> KeyOf(x.flying[i].c) != k
    ensures p in x.machines && EntryOf(x.machines[p].db, k) == EntryOf(Started(abs, parts), k)
  {
    RaceStarts(u, s, abs);
    OrderlyKeeps(u, Race(s.machines, map[]), abs, parts);
    assert p in x.machines && WillBe(x, Started(abs, parts), p, k);
  }

  // ----- overlap -----

  /** Both homes of `k` hold `e`. */
  ghost predicate BothHold(u: Setup, m: Machines, k: string, e: Option<string>) {
    forall p :: Home(u, k, p) ==> p in m && EntryOf(m[p].db, k) == e
  }

  /** The two writes give the same entry in either order. */
  predicate OrderFree(e: Option<string>, d: ClientRequest, c: ClientRequest) {
    OnEntry(OnEntry(e, d), c) == OnEntry(OnEntry(e, c), d)
  }

  function PartsOf(id: nat, c: ClientRequest): multiset<Part> {
    multiset{Begin(id, c), Send(id), Send(id)}
  }

  /** What is left to do of write `c`, known as `id`. */
  ghost predicate Ahead(u: Setup, x: Race, todo: multiset<Part>, id: nat, c: ClientRequest) {
    if Begin(id, c) in todo then todo[Begin(id, c)] == 1 && todo[Send(id)] == 2 && id !in x.flying
    else if id in x.flying then FlightFits(u, x.flying[id]) && x.flying[id].c == c && todo[Send(id)] == |x.flying[id].left|
    else todo[Send(id)] == 0
  }

  /** Write `c` has still to land at `p`. */
  ghost predicate Pending(x: Race, todo: multiset<Part>, id: nat, c: ClientRequest, p: int) {
    Begin(id, c) in todo || (id in x.flying && p in x.flying[id].left)
  }

  /** From the entry at `p` what is due leads to `end`, and both writes do from `e`. */
  predicate Leads(here: Option<string>, e: Option<string>, end: Option<string>, d: ClientRequest, dueD: bool,
      c: ClientRequest, dueC: bool)
  {
    if dueD && dueC then here == e
    else if dueD then OnEntry(here, d) == end
    else if dueC then OnEntry(here, c) == end
    else here == end
  }

  /** Two writes of `k` and nothing else are under way. */
  ghost predicate Between(u: Setup, x: Race, k: string, e: Option<string>, todo: multiset<Part>, a: nat, d: ClientRequest,
      b: nat, c: ClientRequest)
  {
    && TwoHomes(u, x.machines) && Ahead(u, x, todo, a, d) && Ahead(u, x, todo, b, c)
    && forall p :: Home(u, k, p) ==> p in x.machines && Leads(EntryOf(x.machines[p].db, k), e, OnEntry(OnEntry(e, d), c),
      d, Pending(x, todo, a, d, p), c, Pending(x, todo, b, c, p))
  }

  /** The two writes, each once, in some possible mix of their parts. */
  ghost predicate Mix(u: Setup, x: Race, parts: seq<Part>, a: nat, d: ClientRequest, b: nat, c: ClientRequest) {
    CanAdvanceAll(u, x, parts) && multiset(parts) == PartsOf(a, d) + PartsOf(b, c)
  }

  ghost predicate Settled(u: Setup, m: Machines, k: string) {
    exists e :: BothHold(u, m, k, e)
  }

  lemma OneBegins(u: Setup, x: Race, k: string, e: Option<string>, todo: multiset<Part>, a: nat, d: ClientRequest,
      b: nat, c: ClientRequest)
    requires Between(u, x, k, e, todo, a, d, b, c) && OrderFree(e, d, c) && a != b
    requires !d.Get? && !c.Get? && KeyOf(d) == k && KeyOf(c) == k
    requires Begin(a, d) in todo && CanAdvance(x, Begin(a, d))
    ensures Between(u, Advance(u, x, Begin(a, d)), k, e, todo - multiset{Begin(a, d)}, a, d, b, c)
  {
    hide OnEntry;
    var x', rest := Advance(u, x, Begin(a, d)), todo - multiset{Begin(a, d)};
    forall p | Home(u, k, p)
      ensures Pending(x', rest, a, d, p) && (Pending(x', rest, b, c, p) <==> Pending(x, todo, b, c, p))
    {
    }
  }

  lemma OneSends(u: Setup, x: Race, k: string, e: Option<string>, todo: multiset<Part>, a: nat, d: ClientRequest, b: nat,
      c: ClientRequest)
    requires Between(u, x, k, e, todo, a, d, b, c) && OrderFree(e, d, c) && a != b
    requires !d.Get? && !c.Get? && KeyOf(d) == k && KeyOf(c) == k
    requires Send(a) in todo && CanAdvance(x, Send(a))
    ensures Between(u, Advance(u, x, Send(a)), k, e, todo - multiset{Send(a)}, a, d, b, c)
  {
    hide OnEntry, Landed;
    var x', rest, f := Advance(u, x, Send(a)), todo - multiset{Send(a)}, x.flying[a];
    LandedIs(x.machines, f.left[0], d);
    forall p | Home(u, k, p)
      ensures Pending(x', rest, b, c, p) <==> Pending(x, todo, b, c, p)
      ensures Pending(x, todo, a, d, p) <==> Pending(x', rest, a, d, p) || p == f.left[0]
      ensures Pending(x', rest, a, d, p) ==> p != f.left[0]
    {
    }
  }

  lemma Swapped(u: Setup, x: Race, k: string, e: Option<string>, todo: multiset<Part>, a: nat, d: ClientRequest, b: nat,
      c: ClientRequest)
    requires Between(u, x, k, e, todo, a, d, b, c) && OrderFree(e, d, c)
    ensures Between(u, x, k, e, todo, b, c, a, d) && OrderFree(e, c, d)
  {
  }

  lemma OnePart(u: Setup, x: Race, k: string, e: Option<string>, todo: multiset<Part>, a: nat, d: ClientRequest, b: nat,
      c: ClientRequest, part: Part)
    requires Between(u, x, k, e, todo, a, d, b, c) && OrderFree(e, d, c) && a != b
    requires !d.Get? && !c.Get? && KeyOf(d) == k && KeyOf(c) == k
    requires part in todo && CanAdvance(x, part) && part in PartsOf(a, d) + PartsOf(b, c)
    ensures Between(u, Advance(u, x, part), k, e, todo - multiset{part}, a, d, b, c)
  {
    hide Between, OrderFree, Advance;
    Swapped(u, x, k, e, todo, a, d, b, c);
    if part == Begin(a, d) {
      OneBegins(u, x, k, e, todo, a, d, b, c);
    } else if part == Send(a) {
      OneSends(u, x, k, e, todo, a, d, b, c);
    } else if part == Begin(b, c) {
      OneBegins(u, x, k, e, todo, b, c, a, d);
      Swapped(u, Advance(u, x, part), k, e, todo - multiset{part}, b, c, a, d);
    } else {
      OneSends(u, x, k, e, todo, b, c, a, d);
      Swapped(u, Advance(u, x, part), k, e, todo - multiset{part}, b, c, a, d);
    }
  }

  lemma {:induction false} MixKeeps(u: Setup, x: Race, k: string, e: Option<string>, a: nat, d: ClientRequest, b: nat,
      c: ClientRequest, parts: seq<Part>)
    requires Between(u, x, k, e, multiset(parts), a, d, b, c) && OrderFree(e, d, c) && a != b
    requires !d.Get? && !c.Get? && KeyOf(d) == k && KeyOf(c) == k
    requires CanAdvanceAll(u, x, parts) && multiset(parts) <= PartsOf(a, d) + PartsOf(b, c)
    ensures Between(u, AdvanceAll(u, x, parts), k, e, multiset{}, a, d, b, c)
    decreases |parts|
  {
    if parts == [] {
    } else {
      hide Between, OrderFree, Advance, PartsOf;
      assert parts == [parts[0]] + parts[1..];
      assert multiset(parts[1..]) == multiset(parts) - multiset{parts[0]};
      OnePart(u, x, k, e, multiset(parts), a, d, b, c, parts[0]);
      MixKeeps(u, Advance(u, x, parts[0]), k, e, a, d, b, c, parts[1..]);
    }
  }

  lemma MixStarts(u: Setup, x: Race, k: string, e: Option<string>, a: nat, d: ClientRequest, b: nat, c: ClientRequest)
    requires TwoHomes(u, x.machines) && BothHold(u, x.machines, k, e)
    requires a != b && a !in x.flying && b !in x.flying
    ensures Between(u, x, k, e, PartsOf(a, d) + PartsOf(b, c), a, d, b, c)
  {
  }

  lemma MixEnds(u: Setup, x: Race, k: string, e: Option<string>, a: nat, d: ClientRequest, b: nat, c: ClientRequest)
    requires Between(u, x, k, e, multiset{}, a, d, b, c)
    ensures Settled(u, x.machines, k) && a !in x.flying && b !in x.flying
  {
    assert BothHold(u, x.machines, k, OnEntry(OnEntry(e, d), c));
  }

  /** The mix in which the second write overtakes the first between the homes. */
  function Crossed(a: nat, d: ClientRequest, b: nat, c: ClientRequest): seq<Part> {
    [Begin(a, d), Begin(b, c), Send(a), Send(b), Send(b), Send(a)]
  }

  lemma CrossedEnds(u: Setup, x: Race, k: string, e: Option<string>, a: nat, d: ClientRequest, b: nat, c: ClientRequest)
    requires TwoHomes(u, x.machines) && BothHold(u, x.machines, k, e)
    requires a != b && a !in x.flying && b !in x.flying && !d.Get? && !c.Get? && KeyOf(d) == k && KeyOf(c) == k
    ensures Mix(u, x, Crossed(a, d, b, c), a, d, b, c)
    ensures var m := AdvanceAll(u, x, Crossed(a, d, b, c)).machines;
      && u.order(k)[0] in m && EntryOf(m[u.order(k)[0]].db, k) == OnEntry(OnEntry(e, d), c)
      && u.order(k)[1] in m && EntryOf(m[u.order(k)[1]].db, k) == OnEntry(OnEntry(e, c), d)
  {
    hide OnEntry, CanAdvanceAll, AdvanceAll;
    var h0, h1 := u.order(k)[0], u.order(k)[1];
    assert Home(u, k, h0) && Home(u, k, h1) && Take(u.order(k), 2) == [h0, h1];
    var x1 := Advance(u, x, Begin(a, d));
    var x2 := Advance(u, x1, Begin(b, c));
    var x6 := FourSends(u, x, x1, x2, k, e, a, d, b, c, h0, h1);
    hide Crossed, PartsOf, Advance;
    CrossedParts(a, d, b, c);
  }

  lemma CrossedParts(a: nat, d: ClientRequest, b: nat, c: ClientRequest)
    ensures multiset(Crossed(a, d, b, c)) == PartsOf(a, d) + PartsOf(b, c)
  {
    SixTogether(Begin(a, d), Begin(b, c), Send(a), Send(b));
  }

  lemma SixTogether<T>(p: T, q: T, r: T, s: T)
    ensures multiset([p, q, r, s, s, r]) == multiset{p, r, r} + multiset{q, s, s}
  {
  }

  lemma FourSends(u: Setup, x: Race, x1: Race, x2: Race, k: string, e: Option<string>, a: nat, d: ClientRequest, b: nat,
      c: ClientRequest, h0: int, h1: int)
    returns (x6: Race)
    requires CanAdvance(x, Begin(a, d)) && x1 == Advance(u, x, Begin(a, d))
    requires CanAdvance(x1, Begin(b, c)) && x2 == Advance(u, x1, Begin(b, c))
    requires a != b && KeyOf(d) == k && KeyOf(c) == k && h0 != h1 && h0 in x2.machines && h1 in x2.machines
    requires a in x2.flying && x2.flying[a] == Flight(d, [h0, h1]) && b in x2.flying && x2.flying[b] == Flight(c, [h0, h1])
    requires EntryOf(x2.machines[h0].db, k) == e && EntryOf(x2.machines[h1].db, k) == e
    ensures CanAdvanceAll(u, x, Crossed(a, d, b, c)) && AdvanceAll(u, x, Crossed(a, d, b, c)) == x6
    ensures h0 in x6.machines && EntryOf(x6.machines[h0].db, k) == OnEntry(OnEntry(e, d), c)
    ensures h1 in x6.machines && EntryOf(x6.machines[h1].db, k) == OnEntry(OnEntry(e, c), d)
  {
    hide OnEntry, CanAdvanceAll, AdvanceAll, Advance, CanAdvance, EntryOf;
    SendAt(u, x2, k, a, d, [h0, h1], h0, h1, e, e);
    var x3 := Advance(u, x2, Send(a));
    SendAt(u, x3, k, b, c, [h0, h1], h0, h1, OnEntry(e, d), e);
    var x4 := Advance(u, x3, Send(b));
    SendAt(u, x4, k, b, c, [h1], h0, h1, OnEntry(OnEntry(e, d), c), e);
    var x5 := Advance(u, x4, Send(b));
    SendAt(u, x5, k, a, d, [h1], h0, h1, OnEntry(OnEntry(e, d), c), OnEntry(e, c));
    x6 := Advance(u, x5, Send(a));
    SixParts(u, x, x1, x2, x3, x4, x5, x6, Crossed(a, d, b, c));
  }

  lemma SendAt(u: Setup, x: Race, k: string, id: nat, c: ClientRequest, left: seq<int>, h0: int, h1: int,
      e0: Option<string>, e1: Option<string>)
    requires id in x.flying && x.flying[id] == Flight(c, left) && KeyOf(c) == k && (left == [h0, h1] || left == [h1])
    requires h0 != h1 && h0 in x.machines && h1 in x.machines
    requires EntryOf(x.machines[h0].db, k) == e0 && EntryOf(x.machines[h1].db, k) == e1
    ensures CanAdvance(x, Send(id))
    ensures var m := Advance(u, x, Send(id)).machines;
      && h0 in m && EntryOf(m[h0].db, k) == (if left == [h1] then e0 else OnEntry(e0, c))
      && h1 in m && EntryOf(m[h1].db, k) == if left == [h1] then OnEntry(e1, c) else e1
    ensures OthersFly(x, id, Advance(u, x, Send(id)))
    ensures left == [h0, h1] ==> id in Advance(u, x, Send(id)).flying
    ensures left == [h0, h1] ==> Advance(u, x, Send(id)).flying[id] == Flight(c, [h1])
  {
    hide OnEntry, Landed;
    LandedIs(x.machines, left[0], c);
  }

  lemma SixParts(u: Setup, x: Race, x1: Race, x2: Race, x3: Race, x4: Race, x5: Race, x6: Race, parts: seq<Part>)
    requires |parts| == 6
    requires CanAdvance(x, parts[0]) && x1 == Advance(u, x, parts[0])
    requires CanAdvance(x1, parts[1]) && x2 == Advance(u, x1, parts[1])
    requires CanAdvance(x2, parts[2]) && x3 == Advance(u, x2, parts[2])
    requires CanAdvance(x3, parts[3]) && x4 == Advance(u, x3, parts[3])
    requires CanAdvance(x4, parts[4]) && x5 == Advance(u, x4, parts[4])
    requires CanAdvance(x5, parts[5]) && x6 == Advance(u, x5, parts[5])
    ensures CanAdvanceAll(u, x, parts) && AdvanceAll(u, x, parts) == x6
  {
    hide CanAdvance, Advance;
    assert CanAdvanceAll(u, x6, parts[6..]) && AdvanceAll(u, x6, parts[6..]) == x6;
    assert parts[5..][1..] == parts[6..];
    assert CanAdvanceAll(u, x5, parts[5..]) && AdvanceAll(u, x5, parts[5..]) == x6;
    assert parts[4..][1..] == parts[5..];
    assert CanAdvanceAll(u, x4, parts[4..]) && AdvanceAll(u, x4, parts[4..]) == x6;
    assert parts[3..][1..] == parts[4..];
    assert CanAdvanceAll(u, x3, parts[3..]) && AdvanceAll(u, x3, parts[3..]) == x6;
    assert parts[2..][1..] == parts[3..];
    assert CanAdvanceAll(u, x2, parts[2..]) && AdvanceAll(u, x2, parts[2..]) == x6;
    assert parts[1..][1..] == parts[2..];
    assert CanAdvanceAll(u, x1, parts[1..]) && AdvanceAll(u, x1, parts[1..]) == x6;
  }

  /** Two writes of one key that overlap leave its homes in agreement, however their
      parts mix, exactly when their order does not matter. */
  lemma OverlapExactly(u: Setup, x: Race, k: string, e: Option<string>, a: nat, d: ClientRequest, b: nat,
      c: ClientRequest)
    requires TwoHomes(u, x.machines) && BothHold(u, x.machines, k, e)
    requires a != b && a !in x.flying && b !in x.flying && !d.Get? && !c.Get? && KeyOf(d) == k && KeyOf(c) == k
    ensures OrderFree(e, d, c) <==>
      forall parts | Mix(u, x, parts, a, d, b, c) :: Settled(u, AdvanceAll(u, x, parts).machines, k)
  {
    hide OnEntry, TwoHomes;
    if OrderFree(e, d, c) {
      forall parts | Mix(u, x, parts, a, d, b, c) ensures Settled(u, AdvanceAll(u, x, parts).machines, k) {
        MixStarts(u, x, k, e, a, d, b, c);
        MixKeeps(u, x, k, e, a, d, b, c, parts);
        MixEnds(u, AdvanceAll(u, x, parts), k, e, a, d, b, c);
      }
    } else {
      var parts := Crossed(a, d, b, c);
      CrossedEnds(u, x, k, e, a, d, b, c);
      NotSettled(u, x, AdvanceAll(u, x, parts).machines, k, OnEntry(OnEntry(e, d), c), OnEntry(OnEntry(e, c), d));
    }
  }

  lemma NotSettled(u: Setup, x: Race, m: Machines, k: string, e0: Option<string>, e1: Option<string>)
    requires TwoHomes(u, x.machines) && e0 != e1
    requires u.order(k)[0] in m && EntryOf(m[u.order(k)[0]].db, k) == e0
    requires u.order(k)[1] in m && EntryOf(m[u.order(k)[1]].db, k) == e1
    ensures !Settled(u, m, k)
  {
    assert Home(u, k, u.order(k)[0]) && Home(u, k, u.order(k)[1]);
  }

  // ----- a write whose parts nothing separates -----

  /** Without any fault the write path sends to the two homes, in their order. */
  lemma HomesAreTargets(u: Setup, s: Cluster, abs: Table, k: string) returns (reps: seq<Backend>)
    requires GoodSetup(u) && Inv(u, s, abs, {}) && forall p :: p in s.machines ==> Healthy(s, p)
    ensures WriteTargets(u.cfg, s.router, k, 2) == Some(reps) && RecordsOf(s.router.backends, reps) && reps != []
    ensures |u.order(k)| >= 2 && Ports(reps) == Take(u.order(k), 2)
  {
    SomeHealthy(u, s, k);
    reps := TargetsUnderFault(u, s, k, HealthySet(s));
    PortsAreHomes(u, s, k, reps, HealthySet(s));
  }

  lemma PortsAreHomes(u: Setup, s: Cluster, k: string, reps: seq<Backend>, ready: set<int>)
    requires GoodReplicas(u, s, k, reps, ready) && HomesKnown(u, s) && forall p :: p in s.machines ==> Healthy(s, p)
    ensures |u.order(k)| >= 2 && Ports(reps) == Take(u.order(k), 2) && RecordsOf(s.router.backends, reps)
  {
    assert u.order(k)[0] in Online(s.router) && u.order(k)[1] in Online(s.router);
    assert Take(u.order(k), 2) == [u.order(k)[0], u.order(k)[1]];
  }

  /** And the three parts of a write, taken together, are the client step. */
  lemma PartsAreClientStep(u: Setup, s: Cluster, abs: Table, x: Race, id: nat, c: ClientRequest)
    requires GoodSetup(u) && Inv(u, s, abs, {}) && (forall p :: p in s.machines ==> Healthy(s, p))
    requires x.machines == s.machines && id !in x.flying && !c.Get?
    ensures CanAdvanceAll(u, x, [Begin(id, c), Send(id), Send(id)])
    ensures AdvanceAll(u, x, [Begin(id, c), Send(id), Send(id)]) ==
      x.(machines := Next(u.cfg, s, Client(c, Acts(c))).machines)
  {
    var o := u.order(KeyOf(c));
    HomesWritten(u, s, abs, c);
    hide GoodSetup, Inv, Next, Healthy;
    assert Take(o, 2) == [o[0], o[1]];
    BothLanded(s.machines, o[0], o[1], c);
    ThreeParts(u, x, id, c, o[0], o[1]);
  }

  lemma HomesWritten(u: Setup, s: Cluster, abs: Table, c: ClientRequest)
    requires GoodSetup(u) && Inv(u, s, abs, {}) && (forall p :: p in s.machines ==> Healthy(s, p)) && !c.Get?
    ensures |u.order(KeyOf(c))| >= 2
    ensures var o := u.order(KeyOf(c));
      && o[0] != o[1] && o[0] in s.machines && o[1] in s.machines
      && s.machines[o[0]].alive && s.machines[o[1]].alive
      && Next(u.cfg, s, Client(c, Acts(c))).machines == AppliedBy(s.machines, Take(o, 2), Acts(c))
  {
    var reps := HomesAreTargets(u, s, abs, KeyOf(c));
    WriteNext(u, s, c, Acts(c), reps);
    hide GoodSetup, RouterOk, WriteTargets, WriteLoop, AppliedBy, Next;
    WriteLoopEffect(u.cfg, s.machines, s.router, reps, Acts(c));
  }

  lemma BothLanded(m: Machines, p: int, q: int, c: ClientRequest)
    requires p in m && q in m && p != q && m[p].alive && m[q].alive
    ensures Landed(Landed(m, p, c), q, c) == AppliedBy(m, [p, q], Acts(c))
  {
  }

  lemma ThreeParts(u: Setup, x: Race, id: nat, c: ClientRequest, p: int, q: int)
    requires id !in x.flying && !c.Get? && Take(u.order(KeyOf(c)), 2) == [p, q]
    ensures CanAdvanceAll(u, x, [Begin(id, c), Send(id), Send(id)])
    ensures AdvanceAll(u, x, [Begin(id, c), Send(id), Send(id)]) == x.(machines := Landed(Landed(x.machines, p, c), q, c))
  {
    hide Landed;
    var parts := [Begin(id, c), Send(id), Send(id)];
    assert parts[1..] == [Send(id), Send(id)] && parts[1..][1..] == [Send(id)] && parts[1..][1..][1..] == [];
    var x1 := Advance(u, x, Begin(id, c));
    assert [p, q][1..] == [q];
    var x2 := Advance(u, x1, Send(id));
    var x3 := Advance(u, x2, Send(id));
    assert x3.flying == x.flying;
    assert CanAdvanceAll(u, x3, []) && AdvanceAll(u, x3, []) == x3;
    assert CanAdvanceAll(u, x2, [Send(id)]) && AdvanceAll(u, x2, [Send(id)]) == x3;
    assert CanAdvanceAll(u, x1, [Send(id), Send(id)]) && AdvanceAll(u, x1, [Send(id), Send(id)]) == x3;
  }
}
