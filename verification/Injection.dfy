/** The header that the proxy adds to a PUT before sending it to the replicas
    (load_balancer/src/ProxySession.cpp). */
module Injections {
  import opened Text
  import opened HttpHelpers
  import opened HttpLaws

  const MARKER := "X-Internal-Replication: true"

  /** `raw` with a header line inserted after the request line. */
  function InsertLine(raw: string, m: string): string {
    match Find(raw, CRLF)
    case None => raw
    case Some(pos) => raw[..pos + 2] + (m + CRLF) + raw[pos + 2..]
  }

  /** What is sent to the replicas for a PUT. */
  function Inject(raw: string): string {
    InsertLine(raw, MARKER)
  }

  /** A header line that says nothing about the length of the body. */
  predicate Neutral(m: string) {
    m != "" && LineText(m) && Find(m, LENGTH_NAME).None? && Find(m, LENGTH_NAME_LOWER).None?
  }

  lemma NoName(m: string)
    requires |m| == 28 && forall j :: 0 <= j < 28 ==> m[j] != 'C' && (m[j] == 'c' ==> j == 16 && m[17] == 'a')
    ensures Find(m, LENGTH_NAME) == None && Find(m, LENGTH_NAME_LOWER) == None
  {
    hide Find, At;
    assert LENGTH_NAME[0] == 'C' && LENGTH_NAME_LOWER[0] == 'c' && LENGTH_NAME_LOWER[1] == 'o';
    StartsOnlyAt(m, LENGTH_NAME, 27);
    StartsOnlyAt(m, LENGTH_NAME_LOWER, 16);
  }

  lemma MarkerNeutral()
    ensures |MARKER| == 28 && Neutral(MARKER)
  {
    hide Find, At;
    assert MARKER == ['X', '-', 'I', 'n', 't', 'e', 'r', 'n', 'a', 'l', '-', 'R', 'e', 'p', 'l', 'i', 'c', 'a', 't', 'i',
      'o', 'n', ':', ' ', 't', 'r', 'u', 'e'];
    NoName(MARKER);
  }

  /** Only at `i` could `pat` begin, and there it does not. */
  lemma StartsOnlyAt(s: string, pat: string, i: nat)
    requires |pat| > 1 && forall j :: 0 <= j < |s| && s[j] == pat[0] ==> j == i
    requires i + 1 < |s| && s[i] == pat[0] ==> s[i + 1] != pat[1]
    ensures Find(s, pat) == None
  {
    forall j | 0 <= j < |s| ensures !At(s, pat, j) {
      if s[j] != pat[0] {
        NotAt(s, pat, j, 0);
      } else if j + 1 < |s| {
        NotAt(s, pat, j, 1);
      }
    }
  }

  /** `a` is the first line of `raw` and `b` what follows its line end. */
  predicate Splits(raw: string, a: string, b: string) {
    raw == a + CRLF + b && Find(raw, CRLF) == Some(|a|)
  }

  lemma SplitLine(raw: string) returns (a: string, b: string)
    requires Find(raw, CRLF).Some?
    ensures Splits(raw, a, b)
  {
    var p := Find(raw, CRLF).value;
    a, b := raw[..p], raw[p + 2..];
    assert raw[p..p + 2] == CRLF;
  }

  lemma InsertedIs(raw: string, a: string, b: string, m: string)
    requires Splits(raw, a, b)
    ensures InsertLine(raw, m) == a + CRLF + (m + CRLF + b)
    ensures |InsertLine(raw, m)| == |raw| + |m| + 2
  {
    assert raw[..|a| + 2] == a + CRLF && raw[|a| + 2..] == b;
  }

  // ----- the blank line -----

  lemma ShiftedAt(a: string, m: string, b: string, raw: string, out: string, pat: string, j: int)
    requires raw == a + CRLF + b && out == a + CRLF + (m + CRLF + b)
    ensures j + |pat| <= |a| + 2 ==> (At(out, pat, j) <==> At(raw, pat, j))
    ensures j >= |a| + |m| + 2 ==> (At(out, pat, j) <==> At(raw, pat, j - |m| - 2))
  {
    if 0 <= j && j + |pat| <= |a| + 2 {
      assert out[j..j + |pat|] == raw[j..j + |pat|];
    }
    if j >= |a| + |m| + 2 && j + |pat| <= |out| {
      assert out[j..j + |pat|] == raw[j - |m| - 2..j - |m| - 2 + |pat|];
    }
  }

  lemma BlankLineShifts(a: string, m: string, b: string, raw: string, out: string, e: nat, d: nat)
    requires raw == a + CRLF + b && out == a + CRLF + (m + CRLF + b) && LineText(m) && m != "" && d == |m| + 2
    requires Find(raw, BLANK_LINE) == Some(e) && |a| < e
    ensures Find(out, BLANK_LINE) == Some(e + d)
  {
    ShiftedAt(a, m, b, raw, out, BLANK_LINE, e + d);
    forall j | 0 <= j < e + d ensures !At(out, BLANK_LINE, j) {
      ShiftedAt(a, m, b, raw, out, BLANK_LINE, j);
      if |a| + 2 - 4 < j < |a| + 2 {
        assert out[|a| + 2] == m[0];
        NotAt(out, BLANK_LINE, j, |a| + 2 - j);
      } else if |a| + 2 <= j < |a| + |m| + 2 {
        assert out[j] == m[j - |a| - 2];
        NotAt(out, BLANK_LINE, j, 0);
      }
    }
    FindIs(out, BLANK_LINE, e + d);
  }

  // ----- the header section -----

  lemma NamedUnchanged(a: string, m: string, b: string, s: string, out: string, name: string)
    requires |name| == 15 && LineText(name) && Find(m, name) == None
    requires s == a + CRLF + b && out == a + CRLF + (m + CRLF + b)
    ensures NamedLength(out, name) == NamedLength(s, name)
  {
    var t := m + CRLF + b;
    NamedInSecond(m, b, t, name);
    if Find(a, name).Some? {
      NamedInFirst(a, t, out, name);
      NamedInFirst(a, b, s, name);
    } else {
      NamedInSecond(a, t, out, name);
      NamedInSecond(a, b, s, name);
    }
  }

  lemma LengthUnchanged(a: string, m: string, b: string, s: string, out: string)
    requires s == a + CRLF + b && out == a + CRLF + (m + CRLF + b) && Neutral(m)
    ensures ContentLength(out) == ContentLength(s)
  {
    hide ContentLength, NamedLength;
    NamedUnchanged(a, m, b, s, out, LENGTH_NAME);
    NamedUnchanged(a, m, b, s, out, LENGTH_NAME_LOWER);
    ContentLengthByName(out);
    ContentLengthByName(s);
  }

  lemma SameFirstLine(a: string, x: string, y: string, s: string, t: string)
    requires s == a + CRLF + x && t == a + CRLF + y && Find(s, CRLF) == Some(|a|)
    ensures Find(t, CRLF) == Some(|a|) && t[..|a|] == s[..|a|]
  {
    assert t[|a|..|a| + 2] == CRLF;
    forall j | 0 <= j < |a| ensures !At(t, CRLF, j) {
      assert !At(s, CRLF, j) && s[j..j + 2] == t[j..j + 2];
    }
    FindIs(t, CRLF, |a|);
  }

  lemma HeadByParts(s: string, t: string, p: nat)
    requires Find(s, CRLF) == Some(p) && Find(t, CRLF) == Some(p) && s[..p] == t[..p]
    requires ContentLength(s) == ContentLength(t)
    ensures ParseHead(s) == ParseHead(t)
  {
    hide ContentLength, Find, FindFrom;
  }

  lemma HeadUnchanged(a: string, m: string, b: string, s: string, out: string)
    requires s == a + CRLF + b && out == a + CRLF + (m + CRLF + b) && Neutral(m)
    requires Find(s, CRLF) == Some(|a|)
    ensures ParseHead(out) == ParseHead(s)
  {
    SameFirstLine(a, b, m + CRLF + b, s, out);
    LengthUnchanged(a, m, b, s, out);
    HeadByParts(out, s, |a|);
  }

  // ----- the whole request -----

  lemma BodyShifts(raw: string, out: string, e: nat, d: nat, head: Head)
    requires |out| == |raw| + d && e + 4 <= |raw| && out[e + d + 4..] == raw[e + 4..]
    requires WithBody(raw, e, head).Complete? && WithBody(raw, e, head).consumed == |raw|
    ensures WithBody(out, e + d, head) == Complete(WithBody(raw, e, head).request.(rawRequest := out), |raw| + d)
  {
    assert out[..|out|] == out;
    assert out[e + d + 4..|out|] == out[e + d + 4..] && raw[e + 4..|raw|] == raw[e + 4..];
  }

  /** The first line ends inside the header section. */
  lemma LineInSection(raw: string, a: string, b: string, e: nat)
    requires Splits(raw, a, b) && Find(raw, BLANK_LINE) == Some(e)
    requires Find(raw[..e], CRLF).Some?
    ensures |a| + 2 <= e && raw[..e] == a + CRLF + b[..e - |a| - 2]
    ensures Find(raw[..e], CRLF) == Some(|a|)
  {
    FindCut(raw, CRLF, e);
  }

  lemma InsertedSection(a: string, m: string, b: string, raw: string, out: string, e: nat, d: nat)
    requires raw == a + CRLF + b && out == a + CRLF + (m + CRLF + b) && |a| + 2 <= e <= |raw| && d == |m| + 2
    ensures out[..e + d] == a + CRLF + (m + CRLF + b[..e - |a| - 2])
    ensures out[e + d..] == raw[e..]
  {
  }

  lemma InsertedHead(raw: string, m: string, a: string, b: string, out: string, e: nat, d: nat)
    requires Splits(raw, a, b) && Find(raw, BLANK_LINE) == Some(e) && Neutral(m) && d == |m| + 2
    requires out == a + CRLF + (m + CRLF + b) && Find(raw[..e], CRLF).Some?
    ensures Find(out, BLANK_LINE) == Some(e + d)
    ensures ParseHead(out[..e + d]) == ParseHead(raw[..e])
    ensures out[e + d..] == raw[e..] && |out| == |raw| + d
  {
    LineInSection(raw, a, b, e);
    BlankLineShifts(a, m, b, raw, out, e, d);
    InsertedSection(a, m, b, raw, out, e, d);
    var t := b[..e - |a| - 2];
    HeadUnchanged(a, m, t, raw[..e], out[..e + d]);
  }

  lemma CompleteSplits(raw: string)
    requires ParseRequest(raw).Complete?
    ensures Find(raw, CRLF).Some? && Find(raw[..Find(raw, BLANK_LINE).value], CRLF).Some?
  {
    var e := Find(raw, BLANK_LINE).value;
    assert raw[e..e + 4][..2] == CRLF && raw[e..e + 2] == raw[e..e + 4][..2];
    assert At(raw, CRLF, e);
  }

  lemma ParseShifts(raw: string, out: string, e: nat, d: nat)
    requires Find(raw, BLANK_LINE) == Some(e) && Find(out, BLANK_LINE) == Some(e + d)
    requires ParseHead(out[..e + d]) == ParseHead(raw[..e]) && out[e + d..] == raw[e..] && |out| == |raw| + d
    requires ParseRequest(raw).Complete? && ParseRequest(raw).consumed == |raw|
    ensures ParseRequest(out) == Complete(ParseRequest(raw).request.(rawRequest := out), |raw| + d)
  {
    assert out[e + d + 4..] == out[e + d..][4..] && raw[e + 4..] == raw[e..][4..];
    BodyShifts(raw, out, e, d, ParseHead(raw[..e]));
  }

  lemma InsertedParse(raw: string, m: string, a: string, b: string, out: string)
    requires ParseRequest(raw).Complete? && ParseRequest(raw).consumed == |raw| && Neutral(m)
    requires Splits(raw, a, b) && out == a + CRLF + (m + CRLF + b) && |out| == |raw| + |m| + 2
    ensures ParseRequest(out) == Complete(ParseRequest(raw).request.(rawRequest := out), |raw| + |m| + 2)
  {
    CompleteSplits(raw);
    var e := Find(raw, BLANK_LINE).value;
    var d := |m| + 2;
    InsertedHead(raw, m, a, b, out, e, d);
    ParseShifts(raw, out, e, d);
  }

  /** A neutral header line more changes nothing but the bytes. */
  lemma InsertionKeepsMeaning(raw: string, m: string)
    requires ParseRequest(raw).Complete? && ParseRequest(raw).consumed == |raw| && Neutral(m)
    ensures ParseRequest(InsertLine(raw, m)) ==
      Complete(ParseRequest(raw).request.(rawRequest := InsertLine(raw, m)), |raw| + |m| + 2)
  {
    CompleteSplits(raw);
    var a, b := SplitLine(raw);
    InsertedIs(raw, a, b, m);
    InsertedParse(raw, m, a, b, InsertLine(raw, m));
  }

  /** For whatever request the proxy takes out of its buffer, the replicas see the
      same request: same method, path, version and body, and 30 more bytes. */
  lemma InjectionKeepsMeaning(buffer: string)
    requires ParseRequest(buffer).Complete?
    ensures var q := ParseRequest(buffer).request;
      ParseRequest(Inject(q.rawRequest)) ==
        Complete(q.(rawRequest := Inject(q.rawRequest)), ParseRequest(buffer).consumed + 30)
  {
    var n := ParseRequest(buffer).consumed;
    ParseMinimal(buffer, n);
    assert ParseRequest(buffer).request.rawRequest == buffer[..n];
    MarkerNeutral();
    InsertionKeepsMeaning(buffer[..n], MARKER);
  }
}
