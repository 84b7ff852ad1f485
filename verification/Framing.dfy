/** How a session cuts the bytes it receives into requests: the two nested loops of
    `forwardTraffic` (load_balancer/src/ProxySession.cpp), for any handler. */
module Framings {
  import opened Text
  import opened HttpHelpers
  import opened HttpLaws

  /** What a request does to the state, and whether the session ends with it. */
  type Handler<!S> = (S, HttpRequest) -> (S, bool)

  /** Why no more requests are taken out of the buffer. */
  datatype End = Waiting | Malformed(message: string) | Closed(last: HttpRequest)

  /** `served` were handled and erased from the buffer; `rest` is what it then holds. */
  datatype Outcome<S> = Outcome(state: S, served: seq<HttpRequest>, rest: string, end: End)

  /** The inner loop. */
  function Drain<S>(h: Handler<S>, s: S, buffer: string): Outcome<S>
    decreases |buffer|
  {
    if buffer == "" then Outcome(s, [], buffer, Waiting)
    else
      match ParseRequest(buffer)
      case Incomplete => Outcome(s, [], buffer, Waiting)
      case Error(message) => Outcome(s, [], buffer, Malformed(message))
      case Complete(q, n) =>
        var (s', stop) := h(s, q);
        if stop then Outcome(s', [], buffer, Closed(q))
        else Prepend([q], Drain(h, s', buffer[n..]))
  }

  function Prepend<S>(served: seq<HttpRequest>, o: Outcome<S>): Outcome<S> {
    o.(served := served + o.served)
  }

  /** The outer loop, over the byte strings received. */
  function Receive<S>(h: Handler<S>, s: S, chunks: seq<string>): Outcome<S> {
    if chunks == [] then Outcome(s, [], "", Waiting)
    else
      var o := Receive(h, s, chunks[..|chunks| - 1]);
      if o.end.Waiting? then Prepend(o.served, Drain(h, o.state, o.rest + chunks[|chunks| - 1])) else o
  }

  /** The bytes sent by the client that the session never receives because it ended. */
  function Unread<S>(h: Handler<S>, s: S, chunks: seq<string>): string {
    if chunks == [] || Receive(h, s, chunks[..|chunks| - 1]).end.Waiting? then ""
    else Unread(h, s, chunks[..|chunks| - 1]) + chunks[|chunks| - 1]
  }

  lemma PrependTwice<S>(a: seq<HttpRequest>, b: seq<HttpRequest>, o: Outcome<S>)
    ensures Prepend(a, Prepend(b, o)) == Prepend(a + b, o)
  {
    assert a + (b + o.served) == (a + b) + o.served;
  }

  lemma CutBoth(b: string, x: string, n: nat)
    requires n <= |b|
    ensures (b + x)[n..] == b[n..] + x
  {
  }

  lemma NothingToDrain<S>(h: Handler<S>, s: S, buffer: string)
    requires ParseRequest(buffer).Incomplete?
    ensures Drain(h, s, buffer) == Outcome(s, [], buffer, Waiting)
  {
  }

  lemma EmptyIncomplete()
    ensures ParseRequest("").Incomplete?
  {
  }

  /** Bytes that come later are handled later. */
  lemma {:induction false} DrainMore<S>(h: Handler<S>, s: S, b: string, x: string)
    ensures var o := Drain(h, s, b);
      Drain(h, s, b + x) ==
        if o.end.Waiting? then Prepend(o.served, Drain(h, o.state, o.rest + x)) else o.(rest := o.rest + x)
    decreases |b|
  {
    match ParseRequest(b)
    case Incomplete =>
      NothingToDrain(h, s, b);
      PrependNone(Drain(h, s, b + x));
    case Error(_) =>
      EmptyIncomplete();
      ParseStable(b, x);
    case Complete(q, n) =>
      EmptyIncomplete();
      ParseStable(b, x);
      ParseMinimal(b, n);
      CutBoth(b, x, n);
      if !h(s, q).1 {
        DrainMore(h, h(s, q).0, b[n..], x);
        MoreAfter(q, Drain(h, h(s, q).0, b[n..]), Drain(h, h(s, q).0, b[n..] + x), x, h);
      }
  }

  lemma PrependNone<S>(o: Outcome<S>)
    ensures Prepend([], o) == o
  {
  }

  lemma MoreAfter<S>(q: HttpRequest, o: Outcome<S>, all: Outcome<S>, x: string, h: Handler<S>)
    requires all == if o.end.Waiting? then Prepend(o.served, Drain(h, o.state, o.rest + x)) else o.(rest := o.rest + x)
    ensures Prepend([q], all) ==
      if o.end.Waiting? then Prepend([q] + o.served, Drain(h, o.state, o.rest + x))
      else Prepend([q], o).(rest := o.rest + x)
  {
    if o.end.Waiting? {
      PrependTwice([q], o.served, Drain(h, o.state, o.rest + x));
    }
  }

  lemma JoinSplit<S>(h: Handler<S>, o: Outcome<S>, u: string, last: string, all: Outcome<S>)
    requires all == if o.end.Waiting? then Prepend(o.served, Drain(h, o.state, o.rest + u + last)) else o.(rest := o.rest + u + last)
    requires o.end.Waiting? ==> u == ""
    ensures o.end.Waiting? ==> all == Prepend(o.served, Drain(h, o.state, o.rest + last))
    ensures !o.end.Waiting? ==> all == o.(rest := o.rest + (u + last))
    ensures all == all.(rest := all.rest + "")
  {
    if o.end.Waiting? {
      assert o.rest + u == o.rest;
    } else {
      assert o.rest + u + last == o.rest + (u + last);
    }
  }

  /** However the bytes are cut into receives, the same requests are handled with the
      same effect, the session ends for the same reason, and the bytes left are
      those of one parse of the whole stream, received or not. */
  lemma {:induction false} SplittingIsInvisible<S>(h: Handler<S>, s: S, chunks: seq<string>)
    ensures var o := Receive(h, s, chunks);
      Drain(h, s, Concat(chunks)) == o.(rest := o.rest + Unread(h, s, chunks))
    ensures Receive(h, s, chunks).end.Waiting? ==> Unread(h, s, chunks) == ""
  {
    if chunks == [] {
      EmptyIncomplete();
    } else {
      var init, last := chunks[..|chunks| - 1], chunks[|chunks| - 1];
      SplittingIsInvisible(h, s, init);
      DrainMore(h, s, Concat(init), last);
      JoinSplit(h, Receive(h, s, init), Unread(h, s, init), last, Drain(h, s, Concat(init) + last));
    }
  }

  // ----- no byte is lost or handled twice -----

  function Raws(served: seq<HttpRequest>): string {
    if served == [] then "" else served[0].rawRequest + Raws(served[1..])
  }

  lemma ConserveStep<S>(q: HttpRequest, o: Outcome<S>, buffer: string, n: nat)
    requires n <= |buffer| && q.rawRequest == buffer[..n] && Raws(o.served) + o.rest == buffer[n..]
    ensures Raws(Prepend([q], o).served) + Prepend([q], o).rest == buffer
  {
    assert ([q] + o.served)[1..] == o.served;
    assert q.rawRequest + Raws(o.served) + o.rest == q.rawRequest + (Raws(o.served) + o.rest);
  }

  lemma TakenIsPrefix(buffer: string)
    requires ParseRequest(buffer).Complete?
    ensures 4 <= ParseRequest(buffer).consumed <= |buffer|
    ensures ParseRequest(buffer).request.rawRequest == buffer[..ParseRequest(buffer).consumed]
  {
    ParseMinimal(buffer, |buffer|);
  }

  lemma {:induction false} DrainConserves<S>(h: Handler<S>, s: S, buffer: string)
    ensures Raws(Drain(h, s, buffer).served) + Drain(h, s, buffer).rest == buffer
    decreases |buffer|
  {
    if buffer != "" && ParseRequest(buffer).Complete? {
      var q, n := ParseRequest(buffer).request, ParseRequest(buffer).consumed;
      TakenIsPrefix(buffer);
      if !h(s, q).1 {
        DrainConserves(h, h(s, q).0, buffer[n..]);
        ConserveStep(q, Drain(h, h(s, q).0, buffer[n..]), buffer, n);
      }
    }
  }

  lemma {:induction false} ClosedKeepsLast<S>(h: Handler<S>, s: S, buffer: string)
    ensures Drain(h, s, buffer).end.Closed? ==> Drain(h, s, buffer).end.last.rawRequest <= Drain(h, s, buffer).rest
    decreases |buffer|
  {
    if buffer != "" && ParseRequest(buffer).Complete? {
      var q, n := ParseRequest(buffer).request, ParseRequest(buffer).consumed;
      TakenIsPrefix(buffer);
      if !h(s, q).1 {
        ClosedKeepsLast(h, h(s, q).0, buffer[n..]);
      }
    }
  }

  /** The handled requests and the rest are the bytes received, in order; a request
      that ended the session is still at the head of the rest. */
  lemma BytesConserved<S>(h: Handler<S>, s: S, chunks: seq<string>)
    ensures var o := Receive(h, s, chunks);
      && Raws(o.served) + o.rest + Unread(h, s, chunks) == Concat(chunks)
      && (o.end.Closed? ==> o.end.last.rawRequest <= o.rest + Unread(h, s, chunks))
  {
    SplittingIsInvisible(h, s, chunks);
    DrainConserves(h, s, Concat(chunks));
    ClosedKeepsLast(h, s, Concat(chunks));
    var o := Receive(h, s, chunks);
    assert Raws(o.served) + o.rest + Unread(h, s, chunks) == Raws(o.served) + (o.rest + Unread(h, s, chunks));
  }

  /** The session waits for more bytes only when no request is complete. */
  lemma {:induction false} WaitsForMore<S>(h: Handler<S>, s: S, buffer: string)
    ensures Drain(h, s, buffer).end.Waiting? ==> ParseRequest(Drain(h, s, buffer).rest).Incomplete?
    decreases |buffer|
  {
    if buffer == "" {
      EmptyIncomplete();
    } else if ParseRequest(buffer).Complete? {
      var q, n := ParseRequest(buffer).request, ParseRequest(buffer).consumed;
      TakenIsPrefix(buffer);
      if !h(s, q).1 {
        WaitsForMore(h, h(s, q).0, buffer[n..]);
      }
    }
  }
}
