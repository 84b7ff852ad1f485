/** The bytes of the replies on one client connection (load_balancer/src/ProxySession.cpp),
    as a client reads them: the proxy's own 503 announces two bytes less than it has, so
    no reply after it is read. */
module Replies {
  import opened Text
  import opened HttpHelpers
  import opened HttpLaws
  import opened Responses
  import opened ResponseLaws
  import opened HashRings
  import opened Routers
  import opened KvServers
  import opened Backends
  import opened ClusterSafety
  import opened Guarantees
  import opened Routes
  import opened Sessions

  const REASON := "Service Unavailable"
  const REFUSAL_LINE := "HTTP/1.1 " + "503" + " " + REASON
  const REFUSAL_BODY := "503 " + REASON
  const REFUSAL := REFUSAL_LINE + CRLF + (LENGTH_NAME + " " + "21") + BLANK_LINE + REFUSAL_BODY

  // ----- sending -----

  /** How a backend prints a response: its reason phrase, and the header lines before
      and after the one with the length. */
  datatype Style = Style(reason: string, pre: seq<string>, post: seq<string>)

  datatype Message = Message(reply: Reply, style: Style)

  function AnswerLine(status: nat, reason: string): string {
    "HTTP/1.1 " + Digits(status) + " " + reason
  }

  function Printed(line: string, pre: seq<string>, n: nat, post: seq<string>, body: string): string {
    Section(line, pre + [LengthLine(n)] + post) + BLANK_LINE + body
  }

  function Bytes(m: Message): string {
    match m.reply
    case Answer(res) =>
      Printed(AnswerLine(res.status, m.style.reason), m.style.pre, |res.body|, m.style.post, res.body)
    case Unavailable => REFUSAL
    case Terminated => ""
  }

  function Stream(sent: seq<Message>): string {
    if sent == [] then "" else Bytes(sent[0]) + Stream(sent[1..])
  }

  function RepliesOf(sent: seq<Message>): seq<Reply> {
    if sent == [] then [] else [sent[0].reply] + RepliesOf(sent[1..])
  }

  /** Answers have a final status other than 503 and one length header. */
  predicate Proper(m: Message) {
    match m.reply
    case Answer(res) =>
      && 200 <= res.status <= 999 && res.status != 503 && LineText(m.style.reason)
      && Framed(m.style.pre, m.style.post)
    case Unavailable => true
    case Terminated => false
  }

  predicate Framed(pre: seq<string>, post: seq<string>) {
    && ProperLines(pre) && ProperLines(post)
    && (forall i :: 0 <= i < |pre| ==> OtherHeader(pre[i])) && (forall i :: 0 <= i < |post| ==> OtherHeader(post[i]))
  }

  predicate AllProper(sent: seq<Message>) {
    forall i :: 0 <= i < |sent| ==> Proper(sent[i])
  }

  // ----- reading -----

  /** The status on a line that the clients' HTTP library takes for a status line. */
  function StatusOf(line: string): Option<nat> {
    if |line| >= 12 && line[..7] == "HTTP/1." && (line[7] == '0' || line[7] == '1') && line[8] == ' '
      && IsDigit(line[9]) && IsDigit(line[10]) && IsDigit(line[11]) && (|line| == 12 || line[12] == ' ')
    then Some(Value(line[9..12])) else None
  }

  function TopLine(stream: string): string {
    match Find(stream, CRLF)
    case None => stream
    case Some(i) => stream[..i]
  }

  /** The next reply, and the bytes after it. */
  function ReadReply(stream: string): Option<(Reply, string)> {
    match ParseResponse(stream)
    case Pending => None
    case Whole(response, consumed) =>
      match StatusOf(TopLine(stream))
      case None => None
      case Some(status) =>
        var reply := if status == 503 then Unavailable else Answer(Response(status, response.body));
        Some((reply, if consumed <= |stream| then stream[consumed..] else ""))
  }

  /** The replies up to the first bytes that are none. */
  function ReadAll(stream: string): seq<Reply>
    decreases |stream|
  {
    match ReadReply(stream)
    case None => []
    case Some((reply, rest)) => if |rest| < |stream| then [reply] + ReadAll(rest) else [reply]
  }

  lemma DigitsOfStatus(status: nat)
    requires 100 <= status <= 999
    ensures |Digits(status)| == 3
  {
    assert |Digits(status / 10 / 10)| == 1;
    assert |Digits(status / 10)| == 2;
  }

  lemma AnswerStatus(status: nat, reason: string)
    requires 100 <= status <= 999
    ensures StatusOf("HTTP/1.1 " + Digits(status) + " " + reason) == Some(status)
  {
    hide Digits, Value;
    var line, d := AnswerLine(status, reason), Digits(status);
    DigitsOfStatus(status);
    ValueOfDigits(status);
    assert line[..7] == "HTTP/1." && line[7] == '1' && line[8] == ' ';
    assert line[9..12] == d && line[9] == d[0] && line[10] == d[1] && line[11] == d[2] && line[12] == ' ';
  }

  /** A status line of either minor version, with or without a reason, and what is none. */
  lemma AnyStatusLine(minor: char, d: string, more: string)
    requires |d| == 3 && AllDigits(d)
    ensures StatusOf("HTTP/1." + [minor] + " " + d + more) ==
      if (minor == '0' || minor == '1') && (more == "" || more[0] == ' ') then Some(Value(d)) else None
  {
    hide Value;
    var line := "HTTP/1." + [minor] + " " + d + more;
    assert line[..7] == "HTTP/1." && line[7] == minor && line[8] == ' ' && line[9..12] == d && line[12..] == more;
    assert line[9] == d[0] && line[10] == d[1] && line[11] == d[2];
  }

  /** The proxy reads the same status on it, and the reason. */
  lemma AnswerCode(status: nat, reason: string)
    requires status <= 0x7FFF_FFFF
    ensures ReadStatus("HTTP/1.1 " + Digits(status) + " " + reason) == StatusLine("HTTP/1.1", status, reason)
  {
    hide Digits, Value, ReadStatus;
    ValueOfDigits(status);
    StatusRead("", "HTTP/1.1", " ", "", Digits(status), " " + reason);
    assert "HTTP/1.1" + " " == "HTTP/1.1 ";
    Associate("HTTP/1.1 ", Digits(status), " " + reason);
    Associate("HTTP/1.1 " + Digits(status), " ", reason);
    assert "" + ("HTTP/1.1" + (" " + ("" + (Digits(status) + (" " + reason)))))
      == "HTTP/1.1" + " " + (Digits(status) + (" " + reason));
  }

  lemma LinesFramed(pre: seq<string>, n: nat, post: seq<string>)
    requires Framed(pre, post)
    ensures ProperLines(pre + [LengthLine(n)] + post)
  {
    hide Digits;
    assert LineText(Digits(n)) by {
      assert forall i :: 0 <= i < |Digits(n)| ==> IsDigit(Digits(n)[i]);
    }
  }

  /** A printed message is framed by its length, whatever follows it. */
  lemma PrintedFramed(line: string, pre: seq<string>, n: nat, post: seq<string>, body: string, more: string, t: string)
    requires line != "" && LineText(line) && Framed(pre, post) && n == |body|
    requires t == Printed(line, pre, n, post, body) + more && |t| < 0x8000_0000_0000_0000
    ensures ParseResponse(t).Whole? && ParseResponse(t).response.body == body
    ensures ParseResponse(t).consumed == |Printed(line, pre, n, post, body)|
    ensures TopLine(t) == line
  {
    hide Section, ScanHead, Folded, LengthLine, Digits, ReadStatus;
    var lines := pre + [LengthLine(n)] + post;
    var s := Section(line, lines);
    LinesFramed(pre, n, post);
    SectionHasNoBlankLine(line, lines);
    Associate(s + BLANK_LINE, body, more);
    BlankLineAtEnd(s, body + more);
    ScanPrinted(line, lines);
    LengthFolded(pre, n, post, Start(ReadStatus(line)));
    CutAt(s, body, more, t);
    TopLineIs(line, lines, t);
  }

  lemma TopLineIs(line: string, lines: seq<string>, t: string)
    requires LineText(line) && lines != [] && |Section(line, lines)| <= |t|
    requires t[..|Section(line, lines)|] == Section(line, lines)
    ensures TopLine(t) == line
  {
    hide Section;
    SectionStarts(line, lines);
    assert t[..|line| + 2] == Section(line, lines)[..|line| + 2];
    FirstLineEnd(line, t);
  }

  lemma CutAt(s: string, body: string, more: string, t: string)
    requires t == s + BLANK_LINE + body + more
    ensures t[..|s|] == s && |s| + 4 + |body| <= |t|
    ensures t[|s| + 4..|s| + 4 + |body|] == body && t[|s| + 4 + |body|..] == more
  {
  }

  lemma MessageRead(line: string, status: nat, pre: seq<string>, n: nat, post: seq<string>, body: string, more: string)
    requires line != "" && LineText(line) && StatusOf(line) == Some(status) && Framed(pre, post) && n == |body|
    requires |Printed(line, pre, n, post, body) + more| < 0x8000_0000_0000_0000
    ensures ReadReply(Printed(line, pre, n, post, body) + more) ==
      Some((if status == 503 then Unavailable else Answer(Response(status, body)), more))
  {
    hide ParseResponse, Printed, StatusOf;
    var m := Printed(line, pre, n, post, body);
    PrintedFramed(line, pre, n, post, body, more, m + more);
    assert (m + more)[|m|..] == more;
  }

  // ----- the proxy's own reply -----

  lemma SomeDigits()
    ensures Digits(21) == "21" && Digits(503) == "503"
  {
    assert Digits(2) == [DigitChar(2)] && Digits(5) == [DigitChar(5)] && Digits(50) == Digits(5) + [DigitChar(0)];
  }

  /** The reply as it goes over the wire. */
  lemma RefusalText()
    ensures REFUSAL ==
      "HTTP/1.1 503 Service Unavailable" + "\r\n" + "Content-Length: 21" + "\r\n\r\n" + "503 Service Unavailable"
  {
    assert REFUSAL_LINE == "HTTP/1.1 503 Service Unavailable";
    assert REFUSAL_BODY == "503 Service Unavailable";
    assert LENGTH_NAME + " " + "21" == "Content-Length: 21";
  }

  /** What it announces ends two bytes before it does. */
  lemma RefusalIs()
    ensures |REFUSAL_BODY| == 23
    ensures REFUSAL == Printed(REFUSAL_LINE, [], 21, [], REFUSAL_BODY[..21]) + REFUSAL_BODY[21..]
  {
    SomeDigits();
    OneLine(REFUSAL_LINE, LengthLine(21));
    var head := REFUSAL_LINE + CRLF + LengthLine(21) + BLANK_LINE;
    assert REFUSAL_BODY == REFUSAL_BODY[..21] + REFUSAL_BODY[21..];
    Associate(head, REFUSAL_BODY[..21], REFUSAL_BODY[21..]);
    assert [] + [LengthLine(21)] + [] == [LengthLine(21)];
  }

  lemma OneLine(line: string, l: string)
    ensures Section(line, [l]) == line + CRLF + l
  {
    assert [l][..0] == [] && Section(line, []) == line;
  }

  lemma RefusalRead(more: string)
    requires |REFUSAL + more| < 0x8000_0000_0000_0000
    ensures |REFUSAL_BODY| == 23 && ReadReply(REFUSAL + more) == Some((Unavailable, REFUSAL_BODY[21..] + more))
  {
    hide ReadReply, Printed, StatusOf, Digits;
    RefusalIs();
    SomeDigits();
    AnswerStatus(503, REASON);
    var m := Printed(REFUSAL_LINE, [], 21, [], REFUSAL_BODY[..21]);
    Associate(m, REFUSAL_BODY[21..], more);
    MessageRead(REFUSAL_LINE, 503, [], 21, [], REFUSAL_BODY[..21], REFUSAL_BODY[21..] + more);
  }

  /** Nothing that begins with the two bytes left over is a reply. */
  lemma LeftoverIsNone(more: string)
    requires |REFUSAL_BODY| == 23
    ensures ReadReply(REFUSAL_BODY[21..] + more) == None
  {
    hide ParseResponse;
    var s := REFUSAL_BODY[21..] + more;
    assert REFUSAL_BODY[21] == 'l' && s[0] == 'l';
    TopLineStarts(s);
  }

  lemma TopLineStarts(s: string)
    requires s != "" && s[0] != 'H'
    ensures StatusOf(TopLine(s)) == None
  {
    var line := TopLine(s);
    assert line == "" || line[0] == s[0];
    assert |line| >= 12 ==> line[..7][0] == line[0];
  }

  // ----- a whole connection -----

  /** What the client reads: the replies up to the first refusal. */
  function Heard(sent: seq<Message>): seq<Reply> {
    if sent == [] then []
    else [sent[0].reply] + if sent[0].reply.Unavailable? then [] else Heard(sent[1..])
  }

  lemma AnswerRead(m: Message, more: string)
    requires Proper(m) && m.reply.Answer? && |Bytes(m) + more| < 0x8000_0000_0000_0000
    ensures ReadReply(Bytes(m) + more) == Some((m.reply, more)) && Bytes(m) != ""
  {
    hide ReadReply, StatusOf, Digits;
    var res := m.reply.response;
    AnswerStatus(res.status, m.style.reason);
    assert LineText(Digits(res.status)) by {
      assert forall i :: 0 <= i < |Digits(res.status)| ==> IsDigit(Digits(res.status)[i]);
    }
    MessageRead(AnswerLine(res.status, m.style.reason), res.status, m.style.pre, |res.body|, m.style.post, res.body, more);
  }

  lemma NothingRead()
    ensures ReadReply("") == None
  {
    assert Find("", BLANK_LINE) == None;
  }

  lemma {:induction false} StreamHeard(sent: seq<Message>)
    requires AllProper(sent) && |Stream(sent)| < 0x8000_0000_0000_0000
    ensures ReadAll(Stream(sent)) == Heard(sent)
  {
    hide ReadReply, Bytes, Proper;
    if sent == [] {
      NothingRead();
    } else {
      var more := Stream(sent[1..]);
      if sent[0].reply.Unavailable? {
        RefusalIs();
        RefusalBytes(sent[0]);
        RefusalRead(more);
        LeftoverIsNone(more);
      } else {
        AnswerOf(sent[0]);
        AnswerRead(sent[0], more);
        StreamHeard(sent[1..]);
      }
    }
  }

  lemma RefusalBytes(m: Message)
    requires m.reply.Unavailable? && |REFUSAL_BODY| == 23
    ensures Bytes(m) == REFUSAL && |REFUSAL_BODY[21..]| < |REFUSAL|
  {
  }

  lemma AnswerOf(m: Message)
    requires Proper(m) && !m.reply.Unavailable?
    ensures m.reply.Answer?
  {
  }

  /** Only the last reply may be the proxy's own. */
  predicate RefusedAtMostLast(sent: seq<Message>) {
    forall i :: 0 <= i < |sent| - 1 ==> !sent[i].reply.Unavailable?
  }

  lemma {:induction false} HeardAll(sent: seq<Message>)
    ensures |RepliesOf(sent)| == |sent|
    ensures Heard(sent) == RepliesOf(sent) <==> RefusedAtMostLast(sent)
  {
    if |sent| <= 1 {
      assert sent == [] || sent[1..] == [];
    } else {
      HeardAll(sent[1..]);
      assert forall i :: 0 <= i < |sent[1..]| ==> sent[1..][i] == sent[i + 1];
      assert RefusedAtMostLast(sent) <==> !sent[0].reply.Unavailable? && RefusedAtMostLast(sent[1..]);
      if sent[0].reply.Unavailable? {
        assert |Heard(sent)| == 1;
      } else {
        assert Heard(sent)[1..] == Heard(sent[1..]) && RepliesOf(sent)[1..] == RepliesOf(sent[1..]);
      }
    }
  }

  /** The bytes of the replies on a connection are read back as these replies exactly
      when none follows a 503 of the proxy's own. */
  lemma RepliesReadBack(sent: seq<Message>)
    requires AllProper(sent) && |Stream(sent)| < 0x8000_0000_0000_0000
    ensures ReadAll(Stream(sent)) == RepliesOf(sent) <==> RefusedAtMostLast(sent)
  {
    StreamHeard(sent);
    HeardAll(sent);
  }

  lemma TargetsDistinct(cfg: Config, r: RouterState, k: string, reps: seq<Backend>)
    requires Consistent(cfg, r) && WriteTargets(cfg, r, k, 2) == Some(reps)
    ensures forall i, j :: 0 <= i < j < |reps| ==> reps[i].port != reps[j].port
  {
    var h := HashString(cfg, k);
    TargetsFollowRing(cfg, r, k, 2);
    RankedRecords(cfg, r, h);
    RankingDistinct(r.ring, h);
    DistinctPorts(Ranking(r.ring, h), r.backends);
    TakeRecords(r.backends, Ranking(r.ring, h), 2);
  }

  /** A session whose router is consistent goes on after a 503 of the proxy's own
      exactly when the request was a write that had candidates and none of them gave an
      answer. */
  lemma GoesOnAfterRefusal(cfg: Config, env: Env, s: State, q: HttpRequest)
    requires Consistent(cfg, s.router)
    ensures var (s', stop) := ServeOne(cfg, env, s, q);
      && |s'.replies| == |s.replies| + 1 && s'.replies[..|s.replies|] == s.replies
      && (s'.replies[|s.replies|].Unavailable? && !stop <==>
        var targets := WriteTargets(cfg, s.router, GetKey(q.path, q.body), 2);
        && (q.verb == "POST" || q.verb == "PUT" || q.verb == "DELETE") && targets.Some? && targets.value != []
        && forall b :: b in targets.value ==> !Answers(s.machines, b.port, OnBytes(env, Payload(q))))
  {
    hide OnBytes, Consistent, WriteTargets, ReadTargets, GetKey;
    var targets := CandidatesFor(cfg, s.router, q);
    ServeByTargets(cfg, env, s, q, targets);
    if IsWrite(q.verb) && targets.Some? && targets.value != [] {
      var act := OnBytes(env, Payload(q));
      TargetsDistinct(cfg, s.router, GetKey(q.path, q.body), targets.value);
      RefusedByAll(cfg, s.machines, s.router, targets.value, act);
    }
  }

  /** No candidate answers a write exactly when there is nothing to relay. */
  lemma RefusedByAll(cfg: Config, m: Machines, r: RouterState, cs: seq<Backend>, act: Act)
    requires forall i, j :: 0 <= i < j < |cs| ==> cs[i].port != cs[j].port
    ensures Primary(WriteLoop(cfg, m, r, cs, act).2).None? <==> forall b :: b in cs ==> !Answers(m, b.port, act)
  {
    var out := WriteLoop(cfg, m, r, cs, act).2;
    WriteLoopAnswers(cfg, m, r, cs, act);
    PrimaryOf(out);
    if out != [] {
      assert out[0] in out;
    }
    if b :| b in cs && Answers(m, b.port, act) {
      assert act(b.port, m[b.port].db).1.value in out;
    }
  }
}
