/** Reading a backend's response: `parseHTTPResponse`
    (load_balancer/src/HttpHelper.cpp) and `readBackendResponse`
    (load_balancer/src/ProxySession.cpp). */
module Responses {
  import opened Text
  import opened HttpHelpers
  import opened HttpLaws

  // ----- one header line -----

  function LowerChar(c: char): char {
    if 'A' <= c <= 'Z' then (c as int + 32) as char else c
  }

  function Lower(s: string): string {
    seq(|s|, i requires 0 <= i < |s| => LowerChar(s[i]))
  }

  /** `std::stoul`; `None` is either of its exceptions.  A minus sign is accepted and
      negates in 64 bits. */
  function Stoul(value: string): Option<nat> {
    var t := AfterSpaces(value);
    var signed := t != "" && (t[0] == '-' || t[0] == '+');
    var digits := if signed then t[1..] else t;
    var n := LeadingDigits(digits);
    if n == 0 || Value(digits[..n]) >= SIZE_MODULUS then None
    else if signed && t[0] == '-' then Some((SIZE_MODULUS - Value(digits[..n])) % SIZE_MODULUS)
    else Some(Value(digits[..n]))
  }

  // ----- the status line -----

  datatype StatusLine = StatusLine(version: string, code: int, text: string)

  /** How many characters `>>` reads into a string. */
  function WordLength(t: string): (n: nat)
    ensures n <= |t| && forall i :: 0 <= i < n ==> !IsSpace(t[i])
    ensures n < |t| ==> IsSpace(t[n])
  {
    if t != "" && !IsSpace(t[0]) then 1 + WordLength(t[1..]) else 0
  }

  /** A word, then `>>` into an `int`, which saturates and fails when the number does not
      fit, then the rest of the line without one blank, unless something failed. */
  function ReadStatus(line: string): StatusLine {
    var u := AfterSpaces(line);
    var n := WordLength(u);
    var v := AfterSpaces(u[n..]);
    var signed := v != "" && (v[0] == '-' || v[0] == '+');
    var digits := if signed then v[1..] else v;
    var d := LeadingDigits(digits);
    if d == 0 then StatusLine(u[..n], 0, "")
    else
      var m: int := Value(digits[..d]);
      var code := if signed && v[0] == '-' then -m else m;
      if code > 0x7FFF_FFFF then StatusLine(u[..n], 0x7FFF_FFFF, "")
      else if code < -0x8000_0000 then StatusLine(u[..n], -0x8000_0000, "")
      else StatusLine(u[..n], code, if digits[d..] != "" && digits[d] == ' ' then digits[d + 1..] else digits[d..])
  }

  // ----- the header lines -----

  /** What the first line and the loop over the header lines collect. */
  datatype Scan = Scan(status: StatusLine, length: nat, found: bool, headers: map<string, string>)

  function Start(status: StatusLine): Scan {
    Scan(status, 0, false, map[])
  }

  function WithHeader(line: string, acc: Scan): Scan {
    match Find(line, ":")
    case None => acc
    case Some(colon) =>
      var name, value := line[..colon], AfterBlanks(line[colon + 1..]);
      var headers := acc.headers[name := value];
      if Lower(name) != "content-length" then acc.(headers := headers)
      else
        match Stoul(value)
        case None => acc.(length := 0, headers := headers)
        case Some(n) => acc.(length := n, found := true, headers := headers)
  }

  function Chomp(line: string): string {
    if line != "" && line[|line| - 1] == '\r' then line[..|line| - 1] else line
  }

  function ScanLines(stream: string, acc: Scan): Scan
    decreases |stream|
  {
    if stream == "" then acc
    else
      var (line, rest) := GetLine(stream);
      if Chomp(line) == "" then acc else ScanLines(rest, WithHeader(Chomp(line), acc))
  }

  /** The header part, its first line read as the status line. */
  function ScanHead(head: string): Scan {
    if head == "" then Start(StatusLine("", 0, ""))
    else ScanLines(GetLine(head).1, Start(ReadStatus(Chomp(GetLine(head).0))))
  }

  // ----- the response -----

  datatype HttpResponse =
    HttpResponse(status: StatusLine, headers: map<string, string>, body: string, rawResponse: string)

  datatype ResponseResult = Pending | Whole(response: HttpResponse, consumed: nat)

  /** `s.substr(pos, n)`. */
  function Substr(s: string, pos: nat, n: nat): string
    requires pos <= |s|
  {
    s[pos..if pos + n <= |s| then pos + n else |s|]
  }

  function WithLength(buffer: string, e: nat, scan: Scan): ResponseResult
    requires e + 4 <= |buffer|
  {
    var length := if scan.found then scan.length else |buffer| - (e + 4);
    var total := (e + 4 + length) % SIZE_MODULUS;
    if |buffer| < total then Pending
    else Whole(HttpResponse(scan.status, scan.headers, Substr(buffer, e + 4, length), buffer[..total]), total)
  }

  function ParseResponse(buffer: string): ResponseResult {
    match Find(buffer, BLANK_LINE)
    case None => Pending
    case Some(e) => WithLength(buffer, e, ScanHead(buffer[..e]))
  }

  /** The status line and the loop over the header lines. */
  method ScanHeaders(part: string)
    returns (status: StatusLine, length: nat, found: bool, headers: map<string, string>)
    ensures ScanHead(part) == Scan(status, length, found, headers)
  {
    var stream := part;
    status := StatusLine("", 0, "");
    if stream != "" {
      var (first, rest) := GetLine(stream);
      status, stream := ReadStatus(Chomp(first)), rest;
    }
    length, found, headers := 0, false, map[];
    while stream != ""
      invariant ScanHead(part) == ScanLines(stream, Scan(status, length, found, headers))
      decreases |stream|
    {
      var (line, rest) := GetLine(stream);
      line, stream := Chomp(line), rest;
      if line == "" {
        break;
      }
      var colon := Find(line, ":");
      if colon.Some? {
        var name, value := line[..colon.value], AfterBlanks(line[colon.value + 1..]);
        if Lower(name) == "content-length" {
          var n := Stoul(value);
          if n.Some? {
            length, found := n.value, true;
          } else {
            length := 0;
          }
        }
        headers := headers[name := value];
      }
    }
  }

  /** What follows the loop. */
  method CutResponse(buffer: string, e: nat, scan: Scan) returns (result: ResponseResult)
    requires e + 4 <= |buffer|
    ensures result == WithLength(buffer, e, scan)
  {
    var contentLength := scan.length;
    if !scan.found {
      contentLength := |buffer| - (e + 4);
    }
    var total := (e + 4 + contentLength) % SIZE_MODULUS;
    if |buffer| < total {
      return Pending;
    }
    result := Whole(HttpResponse(scan.status, scan.headers, Substr(buffer, e + 4, contentLength), buffer[..total]), total);
  }

  method ParseHTTPResponse(buffer: string) returns (result: ResponseResult)
    ensures result == ParseResponse(buffer)
  {
    var headerEnd := Find(buffer, BLANK_LINE);
    if headerEnd.None? {
      return Pending;
    }
    var status, length, found, headers := ScanHeaders(buffer[..headerEnd.value]);
    result := CutResponse(buffer, headerEnd.value, Scan(status, length, found, headers));
  }

  // ----- reading it piece by piece -----

  /** The response read from these receives; `None` when the backend closes first. */
  function ReadFrom(buffer: string, chunks: seq<string>): Option<HttpResponse>
    decreases |chunks|
  {
    match ParseResponse(buffer)
    case Whole(response, _) => Some(response)
    case Pending => if chunks == [] then None else ReadFrom(buffer + chunks[0], chunks[1..])
  }

  method ReadBackendResponse(chunks: seq<string>) returns (response: Option<HttpResponse>)
    ensures response == ReadFrom("", chunks)
  {
    var responseBuffer, i := "", 0;
    while true
      invariant 0 <= i <= |chunks|
      invariant ReadFrom("", chunks) == ReadFrom(responseBuffer, chunks[i..])
      decreases |chunks| - i
    {
      var result := ParseHTTPResponse(responseBuffer);
      if result.Whole? {
        return Some(result.response);
      }
      if i == |chunks| {
        return None;
      }
      assert chunks[i..][1..] == chunks[i + 1..];
      responseBuffer := responseBuffer + chunks[i];
      i := i + 1;
    }
  }

  // ----- splitting -----

  lemma {:induction false} ConcatCons(chunks: seq<string>)
    requires chunks != []
    ensures Concat(chunks) == chunks[0] + Concat(chunks[1..])
  {
    var n := |chunks| - 1;
    if n == 0 {
      assert chunks[..0] == [] && chunks[1..] == [];
    } else {
      ConcatCons(chunks[..n]);
      assert chunks[..n][1..] == chunks[1..][..n - 1];
      assert chunks[0] + Concat(chunks[1..][..n - 1]) + chunks[n] == chunks[0] + (Concat(chunks[1..][..n - 1]) + chunks[n]);
    }
  }

  /** The response that `t` starts with, when its length is announced. */
  function Announced(t: string, e: nat, scan: Scan): Option<HttpResponse>
    requires e + 4 <= |t|
  {
    var total := e + 4 + scan.length;
    if |t| < total then None else Some(HttpResponse(scan.status, scan.headers, t[e + 4..total], t[..total]))
  }

  lemma NotYet(buffer: string, more: string, e: nat)
    requires Find(buffer + more, BLANK_LINE) == Some(e)
    ensures Find(buffer, BLANK_LINE) == if e + 4 <= |buffer| then Some(e) else None
  {
    FindCut(buffer + more, BLANK_LINE, |buffer|);
    assert (buffer + more)[..|buffer|] == buffer;
  }

  lemma KnownLength(buffer: string, more: string, e: nat, scan: Scan)
    requires e + 4 <= |buffer| && scan.found && e + 4 + scan.length < 0x1_0000_0000_0000_0000
    ensures |buffer| < e + 4 + scan.length ==> WithLength(buffer, e, scan).Pending?
    ensures |buffer| >= e + 4 + scan.length ==>
      && WithLength(buffer, e, scan).Whole? && WithLength(buffer, e, scan).consumed == e + 4 + scan.length
      && Some(WithLength(buffer, e, scan).response) == Announced(buffer + more, e, scan)
  {
    var total := e + 4 + scan.length;
    if |buffer| >= total {
      assert (buffer + more)[e + 4..total] == buffer[e + 4..total];
      assert (buffer + more)[..total] == buffer[..total];
    }
  }

  lemma {:induction false} ReadAnnounced(buffer: string, chunks: seq<string>, t: string, e: nat, scan: Scan)
    requires t == buffer + Concat(chunks) && Find(t, BLANK_LINE) == Some(e) && scan == ScanHead(t[..e])
    requires scan.found && e + 4 + scan.length < 0x1_0000_0000_0000_0000
    ensures ReadFrom(buffer, chunks) == Announced(t, e, scan)
    decreases |chunks|
  {
    NotYet(buffer, Concat(chunks), e);
    if e + 4 <= |buffer| {
      assert t[..e] == buffer[..e];
      KnownLength(buffer, Concat(chunks), e, scan);
    }
    if chunks == [] {
      assert t == buffer;
    } else {
      ConcatCons(chunks);
      assert t == buffer + chunks[0] + Concat(chunks[1..]);
      ReadAnnounced(buffer + chunks[0], chunks[1..], t, e, scan);
    }
  }

  /** With an announced length that does not overflow, the response read, and what
      is relayed to the client, is the same however its bytes arrive. */
  lemma AnnouncedIsSplitFree(chunks: seq<string>, e: nat)
    requires var t := Concat(chunks);
      && Find(t, BLANK_LINE) == Some(e) && ScanHead(t[..e]).found && e + 4 + ScanHead(t[..e]).length < 0x1_0000_0000_0000_0000
    ensures ReadFrom("", chunks) == Announced(Concat(chunks), e, ScanHead(Concat(chunks)[..e]))
  {
    assert "" + Concat(chunks) == Concat(chunks);
    ReadAnnounced("", chunks, Concat(chunks), e, ScanHead(Concat(chunks)[..e]));
  }

  // ----- exactly when splitting does not matter -----

  /** All ways to cut `t` into receives give the same result. */
  ghost predicate SplitFree(t: string) {
    forall c, d :: CutsOf(c, t) && CutsOf(d, t) ==> ReadFrom("", c) == ReadFrom("", d)
  }

  predicate CutsOf(chunks: seq<string>, t: string) {
    Concat(chunks) == t && forall i :: 0 <= i < |chunks| ==> chunks[i] != ""
  }

  /** Nothing is left to decide once the last byte of `t` is the end of its header. */
  lemma {:induction false} EndsWithHead(buffer: string, chunks: seq<string>, t: string, e: nat)
    requires t == buffer + Concat(chunks) && Find(t, BLANK_LINE) == Some(e) && |t| == e + 4
    requires forall i :: 0 <= i < |chunks| ==> chunks[i] != ""
    ensures ReadFrom(buffer, chunks) ==
      match ParseResponse(t) { case Pending => None case Whole(response, _) => Some(response) }
    decreases |chunks|
  {
    NotYet(buffer, Concat(chunks), e);
    if chunks == [] {
      assert t == buffer;
    } else {
      ConcatCons(chunks);
      assert t == buffer + chunks[0] + Concat(chunks[1..]);
      EndsWithHead(buffer + chunks[0], chunks[1..], t, e);
    }
  }

  /** Received at once. */
  lemma AtOnce(t: string)
    requires t != ""
    ensures CutsOf([t], t)
    ensures ReadFrom("", [t]) == match ParseResponse(t) { case Pending => None case Whole(response, _) => Some(response) }
  {
    assert [t][..0] == [] && Concat([]) == "" && Concat([t]) == t;
    assert Find("", BLANK_LINE) == None;
    assert "" + t == t && [t][1..] == [];
  }

  /** Received with a pause after the header section. */
  lemma PauseAfterHead(t: string, e: nat)
    requires Find(t, BLANK_LINE) == Some(e) && e + 4 < |t|
    ensures CutsOf([t[..e + 4], t[e + 4..]], t)
    ensures ParseResponse(t[..e + 4]).Whole? ==>
      ReadFrom("", [t[..e + 4], t[e + 4..]]) == Some(ParseResponse(t[..e + 4]).response)
  {
    var c := [t[..e + 4], t[e + 4..]];
    assert c[..1] == [t[..e + 4]] && [t[..e + 4]][..0] == [] && Concat([]) == "";
    assert Concat([t[..e + 4]]) == t[..e + 4] && Concat(c) == t[..e + 4] + t[e + 4..] == t;
    assert Find("", BLANK_LINE) == None;
    assert "" + t[..e + 4] == t[..e + 4];
  }

  lemma HeadAlone(t: string, e: nat)
    requires Find(t, BLANK_LINE) == Some(e)
    ensures ParseResponse(t[..e + 4]) == WithLength(t[..e + 4], e, ScanHead(t[..e]))
    ensures ParseResponse(t) == WithLength(t, e, ScanHead(t[..e]))
  {
    hide ScanHead, WithLength, Find;
    FindCut(t, BLANK_LINE, e + 4);
    assert t[..e + 4][..e] == t[..e];
  }

  /** Without an announced length, or with one that overflows, the body read is
      whatever has arrived with the end of the header section; in the second case
      fewer bytes are relayed than the header section has. */
  lemma Undecided(t: string, e: nat, scan: Scan)
    requires e + 4 < |t| < 0x8000_0000_0000_0000 && scan.length < 0x1_0000_0000_0000_0000
    requires !scan.found || e + 4 + scan.length >= 0x1_0000_0000_0000_0000
    ensures WithLength(t[..e + 4], e, scan).Whole? && WithLength(t[..e + 4], e, scan).response.body == ""
    ensures WithLength(t, e, scan).Whole? && WithLength(t, e, scan).response.body == t[e + 4..]
    ensures var n := if scan.found then e + 4 + scan.length - 0x1_0000_0000_0000_0000 else |t|;
      n <= |t| && WithLength(t, e, scan).response.rawResponse == t[..n] && WithLength(t, e, scan).consumed == n
  {
  }

  lemma ScannedLengthFits(stream: string, acc: Scan)
    requires acc.length < 0x1_0000_0000_0000_0000
    ensures ScanLines(stream, acc).length < 0x1_0000_0000_0000_0000
    decreases |stream|
  {
  }

  lemma HeadLengthFits(head: string)
    ensures ScanHead(head).length < 0x1_0000_0000_0000_0000
  {
    if head != "" {
      ScannedLengthFits(GetLine(head).1, Start(ReadStatus(Chomp(GetLine(head).0))));
    }
  }

  /** A response with a complete header section is read the same way however its
      bytes arrive if and only if its length is announced without overflow or
      nothing follows the header section. */
  lemma SplitFreeExactly(t: string, e: nat)
    requires Find(t, BLANK_LINE) == Some(e) && |t| < 0x8000_0000_0000_0000
    ensures SplitFree(t) <==>
      (ScanHead(t[..e]).found && e + 4 + ScanHead(t[..e]).length < 0x1_0000_0000_0000_0000) || |t| == e + 4
  {
    var scan := ScanHead(t[..e]);
    if scan.found && e + 4 + scan.length < SIZE_MODULUS {
      forall c | CutsOf(c, t) ensures ReadFrom("", c) == Announced(t, e, scan) {
        AnnouncedIsSplitFree(c, e);
      }
    } else if |t| == e + 4 {
      forall c | CutsOf(c, t)
        ensures ReadFrom("", c) == match ParseResponse(t) { case Pending => None case Whole(response, _) => Some(response) }
      {
        assert "" + Concat(c) == t;
        EndsWithHead("", c, t, e);
      }
    } else {
      HeadLengthFits(t[..e]);
      HeadAlone(t, e);
      Undecided(t, e, scan);
      AtOnce(t);
      PauseAfterHead(t, e);
    }
  }

  // ----- a response as backends print it -----

  function Folded(lines: seq<string>, acc: Scan): Scan {
    if lines == [] then acc else Folded(lines[1..], WithHeader(lines[0], acc))
  }

  lemma {:induction false} SectionCons(line: string, l: string, rest: seq<string>)
    ensures Section(line, [l] + rest) == line + CRLF + Section(l, rest)
  {
    var lines := [l] + rest;
    if rest == [] {
      assert lines[..0] == [] && Section(line, lines) == Section(line, []) + CRLF + l;
    } else {
      var n := |rest| - 1;
      SectionCons(line, l, rest[..n]);
      assert lines[..|lines| - 1] == [l] + rest[..n];
      assert line + CRLF + Section(l, rest[..n]) + CRLF + rest[n] == line + CRLF + (Section(l, rest[..n]) + CRLF + rest[n]);
    }
  }

  /** The first line of a section, as `getline` cuts it. */
  lemma GetFirst(l: string, more: string)
    requires LineText(l)
    ensures GetLine(l + CRLF + more) == (l + "\r", more)
    ensures l != "" ==> GetLine(l) == (l, "")
    ensures Chomp(l + "\r") == l && Chomp(l) == l
  {
    var s := l + CRLF + more;
    assert s[|l| + 1] == '\n' && s[..|l| + 1] == l + "\r" && s[|l| + 2..] == more;
    FindCharIs(s, '\n', |l| + 1);
    FindChar(l, '\n');
  }

  predicate ProperLines(lines: seq<string>) {
    forall i :: 0 <= i < |lines| ==> lines[i] != "" && LineText(lines[i])
  }

  lemma {:induction false} ScanSection(l: string, rest: seq<string>, acc: Scan)
    requires l != "" && LineText(l) && ProperLines(rest)
    ensures ScanLines(Section(l, rest), acc) == Folded(rest, WithHeader(l, acc))
    decreases |rest|
  {
    if rest == [] {
      GetFirst(l, "");
    } else {
      var more := Section(rest[0], rest[1..]);
      assert rest == [rest[0]] + rest[1..];
      SectionCons(l, rest[0], rest[1..]);
      GetFirst(l, more);
      ScanSection(rest[0], rest[1..], WithHeader(l, acc));
    }
  }

  lemma ScanPrinted(status: string, lines: seq<string>)
    requires status != "" && LineText(status) && ProperLines(lines)
    ensures ScanHead(Section(status, lines)) == Folded(lines, Start(ReadStatus(status)))
  {
    hide ReadStatus;
    if lines == [] {
      GetFirst(status, "");
    } else {
      assert lines == [lines[0]] + lines[1..];
      SectionCons(status, lines[0], lines[1..]);
      GetFirst(status, Section(lines[0], lines[1..]));
      ScanSection(lines[0], lines[1..], Start(ReadStatus(status)));
    }
  }

  /** The line is not a Content-Length header, in any letter case. */
  predicate OtherHeader(line: string) {
    match Find(line, ":")
    case None => true
    case Some(colon) => Lower(line[..colon]) != "content-length"
  }

  lemma StoulOfDigits(n: nat)
    requires n < 0x1_0000_0000_0000_0000
    ensures Stoul(Digits(n)) == Some(n)
  {
    var d := Digits(n);
    assert IsDigit(d[0]) && AfterSpaces(d) == d;
    DigitsRun(d, "");
    assert d + "" == d && d[..|d|] == d;
    ValueOfDigits(n);
  }

  lemma LengthLineRead(n: nat, acc: Scan)
    requires n < 0x1_0000_0000_0000_0000
    ensures WithHeader(LengthLine(n), acc).length == n && WithHeader(LengthLine(n), acc).found
  {
    hide Digits, Value, Stoul;
    var line, d := LengthLine(n), Digits(n);
    assert line[14] == ':' && line[..14] == "Content-Length" && line[15..] == " " + d;
    assert forall i :: 0 <= i < 14 ==> line[..14][i] != ':';
    FindCharIs(line, ':', 14);
    assert Lower("Content-Length") == "content-length";
    assert IsDigit(d[0]) && (" " + d)[1..] == d && AfterBlanks(d) == d;
    StoulOfDigits(n);
  }

  lemma {:induction false} FoldedKeeps(lines: seq<string>, acc: Scan)
    requires forall i :: 0 <= i < |lines| ==> OtherHeader(lines[i])
    ensures Folded(lines, acc).length == acc.length && Folded(lines, acc).found == acc.found
    decreases |lines|
  {
    if lines == [] {
    } else {
      FoldedKeeps(lines[1..], WithHeader(lines[0], acc));
    }
  }

  lemma {:induction false} FoldedSplit(pre: seq<string>, post: seq<string>, acc: Scan)
    ensures Folded(pre + post, acc) == Folded(post, Folded(pre, acc))
    decreases |pre|
  {
    if pre == [] {
      assert pre + post == post;
    } else {
      assert (pre + post)[1..] == pre[1..] + post;
      FoldedSplit(pre[1..], post, WithHeader(pre[0], acc));
    }
  }

  lemma LengthFolded(pre: seq<string>, n: nat, post: seq<string>, start: Scan)
    requires n < 0x1_0000_0000_0000_0000
    requires forall i :: 0 <= i < |pre| ==> OtherHeader(pre[i])
    requires forall i :: 0 <= i < |post| ==> OtherHeader(post[i])
    ensures var scan := Folded(pre + [LengthLine(n)] + post, start); scan.found && scan.length == n
  {
    var acc := Folded(pre, start);
    FoldedSplit(pre + [LengthLine(n)], post, start);
    FoldedSplit(pre, [LengthLine(n)], start);
    assert [LengthLine(n)][1..] == [];
    LengthLineRead(n, acc);
    FoldedKeeps(post, WithHeader(LengthLine(n), acc));
  }

  /** A response printed with its length, and no other Content-Length header, is read
      back whole and relayed byte for byte, however its bytes arrive. */
  lemma PrintedResponseRead(status: string, pre: seq<string>, post: seq<string>, body: string, chunks: seq<string>)
    requires status != "" && LineText(status) && ProperLines(pre + [LengthLine(|body|)] + post)
    requires forall i :: 0 <= i < |pre| ==> OtherHeader(pre[i])
    requires forall i :: 0 <= i < |post| ==> OtherHeader(post[i])
    requires Concat(chunks) == Section(status, pre + [LengthLine(|body|)] + post) + BLANK_LINE + body
    requires |Concat(chunks)| < 0x8000_0000_0000_0000
    ensures ReadFrom("", chunks).Some?
    ensures ReadFrom("", chunks).value.body == body && ReadFrom("", chunks).value.rawResponse == Concat(chunks)
  {
    hide ReadStatus, ScanHead, Section, Folded, ReadFrom, LengthLine;
    var lines := pre + [LengthLine(|body|)] + post;
    var s, t := Section(status, lines), Concat(chunks);
    SectionHasNoBlankLine(status, lines);
    BlankLineAtEnd(s, body);
    assert t[..|s|] == s;
    ScanPrinted(status, lines);
    LengthFolded(pre, |body|, post, Start(ReadStatus(status)));
    AnnouncedIsSplitFree(chunks, |s|);
    assert t[|s| + 4..|t|] == body && t[..|t|] == t;
  }
}
