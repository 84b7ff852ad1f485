/** Laws of request parsing: it can be done incrementally, it undoes printing, and
    the replication header changes nothing else. */
module HttpLaws {
  import opened Text
  import opened HttpHelpers

  // ----- occurrences in longer and shorter strings -----

  lemma FindAppend(s: string, x: string, pat: string)
    requires Find(s, pat).Some?
    ensures Find(s + x, pat) == Find(s, pat)
  {
    var i := Find(s, pat).value;
    AtAppend(s, x, pat, i);
    forall j | 0 <= j < i ensures !At(s + x, pat, j) {
      AtAppend(s, x, pat, j);
    }
    FindIs(s + x, pat, i);
  }

  lemma FindCut(s: string, pat: string, n: nat)
    requires Find(s, pat).Some? && n <= |s|
    ensures Find(s[..n], pat) == if Find(s, pat).value + |pat| <= n then Find(s, pat) else None
  {
    var i := Find(s, pat).value;
    assert s[..n] + s[n..] == s;
    AtAppend(s[..n], s[n..], pat, i);
    match Find(s[..n], pat)
    case None =>
    case Some(k) =>
      AtAppend(s[..n], s[n..], pat, k);
      if i + |pat| <= n {
        forall j | 0 <= j < i ensures !At(s[..n], pat, j) {
          AtAppend(s[..n], s[n..], pat, j);
        }
        FindIs(s[..n], pat, i);
      }
  }

  // ----- incremental parsing -----

  lemma BodyStable(buffer: string, more: string, e: nat, head: Head)
    requires e + 4 <= |buffer| && !WithBody(buffer, e, head).Incomplete?
    ensures WithBody(buffer + more, e, head) == WithBody(buffer, e, head)
  {
    if head.Head? {
      var total := e + 4 + head.length;
      assert (buffer + more)[..total] == buffer[..total];
      assert (buffer + more)[e + 4..total] == buffer[e + 4..total];
    }
  }

  /** A complete request or an error is not changed by bytes that arrive later. */
  lemma ParseStable(buffer: string, more: string)
    requires !ParseRequest(buffer).Incomplete?
    ensures ParseRequest(buffer + more) == ParseRequest(buffer)
  {
    FindAppend(buffer, more, BLANK_LINE);
    var e := Find(buffer, BLANK_LINE).value;
    assert (buffer + more)[..e] == buffer[..e];
    BodyStable(buffer, more, e, ParseHead(buffer[..e]));
  }

  lemma BodyMinimal(buffer: string, n: nat, e: nat, head: Head)
    requires e + 4 <= n <= |buffer|
    ensures WithBody(buffer, e, head).Complete? ==>
      WithBody(buffer[..n], e, head) == if n < WithBody(buffer, e, head).consumed then Incomplete else WithBody(buffer, e, head)
    ensures WithBody(buffer, e, head).Error? ==> WithBody(buffer[..n], e, head) == WithBody(buffer, e, head)
  {
    if head.Head? && e + 4 + head.length <= n {
      var total := e + 4 + head.length;
      assert buffer[..n][..total] == buffer[..total];
      assert buffer[..n][e + 4..total] == buffer[e + 4..total];
    }
  }

  /** A request is complete as soon as its last byte is there, and not before; what
      it consumes is all the parser has looked at. */
  lemma ParseMinimal(buffer: string, n: nat)
    requires ParseRequest(buffer).Complete? && n <= |buffer|
    ensures 4 <= ParseRequest(buffer).consumed <= |buffer|
    ensures ParseRequest(buffer[..n]) == if n < ParseRequest(buffer).consumed then Incomplete else ParseRequest(buffer)
  {
    FindCut(buffer, BLANK_LINE, n);
    var e := Find(buffer, BLANK_LINE).value;
    if e + 4 <= n {
      assert buffer[..n][..e] == buffer[..e];
      BodyMinimal(buffer, n, e, ParseHead(buffer[..e]));
    }
  }

  /** Nor is an error found before the header section has ended. */
  lemma ErrorMinimal(buffer: string, n: nat)
    requires ParseRequest(buffer).Error? && n <= |buffer|
    ensures ParseRequest(buffer[..n]) ==
      if n < Find(buffer, BLANK_LINE).value + 4 then Incomplete else ParseRequest(buffer)
  {
    FindCut(buffer, BLANK_LINE, n);
    var e := Find(buffer, BLANK_LINE).value;
    if e + 4 <= n {
      assert buffer[..n][..e] == buffer[..e];
      BodyMinimal(buffer, n, e, ParseHead(buffer[..e]));
    }
  }

  /** The modulus of `size_t`. */
  const SIZE_MODULUS := 0x1_0000_0000_0000_0000

  lemma LengthInRange(section: string)
    ensures -0x8000_0000_0000_0000 <= ContentLength(section) < 0x8000_0000_0000_0000
  {
  }

  /** The sum that `parseHTTPRequest` computes in 64 bits is the mathematical one. */
  lemma RequiredLengthFits(buffer: string)
    requires |buffer| < 0x8000_0000_0000_0000 && Find(buffer, BLANK_LINE).Some?
    requires ParseHead(buffer[..Find(buffer, BLANK_LINE).value]).Head?
    ensures var sum := Find(buffer, BLANK_LINE).value + 4 + ParseHead(buffer[..Find(buffer, BLANK_LINE).value]).length;
      sum < 0x1_0000_0000_0000_0000
  {
    var section := buffer[..Find(buffer, BLANK_LINE).value];
    LengthInRange(section);
    assert ParseHead(section).length == ContentLength(section);
  }

  // ----- printing and parsing back -----

  /** A request line and header lines, as they stand before the blank line. */
  function Section(line: string, lines: seq<string>): string {
    if lines == [] then line else Section(line, lines[..|lines| - 1]) + CRLF + lines[|lines| - 1]
  }

  function RequestLine(verb: string, path: string, version: string): string {
    verb + " " + path + " " + version
  }

  function Print(verb: string, path: string, version: string, lines: seq<string>, body: string): string {
    Section(RequestLine(verb, path, version), lines) + BLANK_LINE + body
  }

  /** Text that can stand on a line of its own. */
  predicate LineText(s: string) {
    forall i :: 0 <= i < |s| ==> s[i] != '\r' && s[i] != '\n'
  }

  predicate Printable(verb: string, path: string, version: string, lines: seq<string>) {
    && LineText(verb) && LineText(path) && LineText(version) && ' ' !in verb && ' ' !in path
    && (forall i :: 0 <= i < |lines| ==> lines[i] != "" && LineText(lines[i]))
  }

  /** After each carriage return two more characters follow, the second not one. */
  predicate NoBlankLine(s: string) {
    forall i :: 0 <= i < |s| && s[i] == '\r' ==> i + 2 < |s| && s[i + 2] != '\r'
  }

  lemma {:induction false} SectionHasNoBlankLine(line: string, lines: seq<string>)
    requires LineText(line) && forall i :: 0 <= i < |lines| ==> lines[i] != "" && LineText(lines[i])
    ensures NoBlankLine(Section(line, lines))
  {
    if lines == [] {
    } else {
      var n := |lines| - 1;
      SectionHasNoBlankLine(line, lines[..n]);
      var s, l := Section(line, lines[..n]), lines[n];
      var t := s + CRLF + l;
      forall i | 0 <= i < |t| && t[i] == '\r' ensures i + 2 < |t| && t[i + 2] != '\r' {
        assert i <= |s|;
      }
    }
  }

  lemma BlankLineAtEnd(s: string, rest: string)
    requires NoBlankLine(s)
    ensures Find(s + BLANK_LINE + rest, BLANK_LINE) == Some(|s|)
  {
    var t := s + BLANK_LINE + rest;
    assert t[|s|..|s| + 4] == BLANK_LINE;
    forall j | 0 <= j < |s| ensures !At(t, BLANK_LINE, j) {
      NotAt(t, BLANK_LINE, j, if s[j] == '\r' then 2 else 0);
    }
    FindIs(t, BLANK_LINE, |s|);
  }

  lemma {:induction false} SectionStarts(line: string, lines: seq<string>)
    requires lines != []
    ensures |line| + 2 <= |Section(line, lines)| && Section(line, lines)[..|line| + 2] == line + CRLF
  {
    if |lines| > 1 {
      SectionStarts(line, lines[..|lines| - 1]);
    } else {
      assert Section(line, lines[..0]) == line;
    }
  }

  lemma FirstLineEnd(line: string, s: string)
    requires LineText(line) && |line| + 2 <= |s| && s[..|line| + 2] == line + CRLF
    ensures Find(s, CRLF) == Some(|line|) && s[..|line|] == line
  {
    assert s[|line|..|line| + 2] == s[..|line| + 2][|line|..];
    assert s[..|line|] == s[..|line| + 2][..|line|];
    forall j | 0 <= j < |line| ensures !At(s, CRLF, j) {
      assert s[..|line|][j] == s[j];
      NotAt(s, CRLF, j, 0);
    }
    FindIs(s, CRLF, |line|);
  }

  lemma SpacesOf(verb: string, path: string, version: string)
    ensures var line, k := RequestLine(verb, path, version), |verb| + 1 + |path|;
      && k < |line| && line[|verb|] == ' ' && line[k] == ' '
      && (forall j :: 0 <= j < |verb| ==> line[j] == verb[j])
      && (forall j :: |verb| < j < k ==> line[j] == path[j - |verb| - 1])
  {
    var head := verb + " " + path;
    var line := RequestLine(verb, path, version);
    assert line == head + (" " + version);
    assert forall j :: 0 <= j < |head| ==> line[j] == head[j];
  }

  /** The next blank at or after `from`, recognised. */
  lemma NextBlank(s: string, from: nat, i: nat)
    requires from <= i < |s| && s[i] == ' ' && forall j :: from <= j < i ==> s[j] != ' '
    ensures FindFrom(s, " ", from) == Some(i)
  {
    AtChar(s, ' ', i);
    forall j | from <= j < i ensures !At(s, " ", j) {
      NotAt(s, " ", j, 0);
    }
    FindFromIs(s, " ", from, i);
  }

  lemma TwoSpaces(line: string, verb: string, path: string)
    requires ' ' !in verb && ' ' !in path
    requires |verb| + 1 + |path| < |line| && line[|verb|] == ' ' && line[|verb| + 1 + |path|] == ' '
    requires forall j :: 0 <= j < |verb| ==> line[j] == verb[j]
    requires forall j :: |verb| < j < |verb| + 1 + |path| ==> line[j] == path[j - |verb| - 1]
    ensures Find(line, " ") == Some(|verb|)
    ensures FindFrom(line, " ", |verb| + 1) == Some(|verb| + 1 + |path|)
  {
    NextBlank(line, 0, |verb|);
    NextBlank(line, |verb| + 1, |verb| + 1 + |path|);
  }

  lemma LineParts(verb: string, path: string, version: string)
    ensures var line, k := RequestLine(verb, path, version), |verb| + 1 + |path|;
      line[..|verb|] == verb && line[|verb| + 1..k] == path && line[k + 1..] == version
  {
  }

  lemma {:induction false} FindFromIs(s: string, pat: string, from: nat, i: nat)
    requires from <= i && At(s, pat, i)
    requires forall j :: from <= j < i ==> !At(s, pat, j)
    ensures FindFrom(s, pat, from) == Some(i)
  {
  }

  lemma PrintedHead(verb: string, path: string, version: string, lines: seq<string>, s: string)
    requires Printable(verb, path, version, lines) && s == Section(RequestLine(verb, path, version), lines)
    ensures ParseHead(s) ==
        if lines == [] then BadHead("Malformed HTTP Request Line")
        else if ContentLength(s) < 0 then BadHead("Invalid Content-Length header")
        else Head(verb, path, version, ContentLength(s))
  {
    hide ContentLength, FindFrom;
    var line := RequestLine(verb, path, version);
    if lines == [] {
      NoLineEnd(line);
    } else {
      SectionStarts(line, lines);
      FirstLineEnd(line, s);
      HeadOf(verb, path, version, s);
    }
  }

  lemma HeadOf(verb: string, path: string, version: string, s: string)
    requires ' ' !in verb && ' ' !in path
    requires var line := RequestLine(verb, path, version); Find(s, CRLF) == Some(|line|) && s[..|line|] == line
    ensures ParseHead(s) ==
      if ContentLength(s) < 0 then BadHead("Invalid Content-Length header")
      else Head(verb, path, version, ContentLength(s))
  {
    hide ContentLength, Find, FindFrom;
    SpacesOf(verb, path, version);
    TwoSpaces(RequestLine(verb, path, version), verb, path);
    LineParts(verb, path, version);
  }

  lemma NoLineEnd(line: string)
    requires LineText(line)
    ensures Find(line, CRLF) == None
  {
    forall j | 0 <= j < |line| ensures !At(line, CRLF, j) {
      NotAt(line, CRLF, j, 0);
    }
  }

  lemma PrintedBody(s: string, body: string, head: Head)
    ensures var text := s + BLANK_LINE + body;
      WithBody(text, |s|, head) == match head {
        case BadHead(message) => Error(message)
        case Head(verb, path, version, length) =>
          if |body| < length then Incomplete
          else Complete(HttpRequest(verb, path, version, body[..length], text[..|s| + 4 + length]), |s| + 4 + length)
      }
  {
    var text := s + BLANK_LINE + body;
    assert head.Head? && head.length <= |body| ==> text[|s| + 4..|s| + 4 + head.length] == body[..head.length];
  }

  // ----- which Content-Length is read -----

  /** Without line ends a pattern cannot reach across one. */
  lemma AcrossLines(a: string, b: string, pat: string, j: int)
    requires LineText(pat)
    ensures At(a + CRLF + b, pat, j) && pat != "" ==> At(a, pat, j) || At(b, pat, j - |a| - 2)
  {
    var s := a + CRLF + b;
    if 0 <= j && pat != "" {
      if j + |pat| <= |a| {
        assert s[j..j + |pat|] == a[j..j + |pat|];
      } else if j <= |a| {
        NotAt(s, pat, j, |a| - j);
      } else if j == |a| + 1 {
        NotAt(s, pat, j, 0);
      } else if j + |pat| <= |s| {
        assert s[j..j + |pat|] == b[j - |a| - 2..j - |a| - 2 + |pat|];
      }
    }
  }

  lemma {:induction false} DigitsRun(d: string, r: string)
    requires forall i :: 0 <= i < |d| ==> IsDigit(d[i])
    requires r == "" || !IsDigit(r[0])
    ensures LeadingDigits(d + r) == |d|
  {
    if d == "" {
      assert d + r == r;
    } else {
      assert (d + r)[1..] == d[1..] + r;
      DigitsRun(d[1..], r);
    }
  }

  /** Only blanks and tabs. */
  predicate Gap(s: string) {
    forall i :: 0 <= i < |s| ==> s[i] == ' ' || s[i] == '\t'
  }

  lemma {:induction false} GapSkipped(gap: string, t: string)
    requires Gap(gap) && (t == "" || (t[0] != ' ' && t[0] != '\t'))
    ensures AfterBlanks(gap + t) == t
  {
    if gap == "" {
      assert gap + t == t;
    } else {
      assert (gap + t)[1..] == gap[1..] + t;
      GapSkipped(gap[1..], t);
    }
  }

  predicate AllDigits(d: string) {
    forall i :: 0 <= i < |d| ==> '0' <= d[i] <= '9'
  }

  /** A numeral after any blanks and tabs, with or without a minus sign, is read as its
      number if that fits into 64 bits with a sign, and otherwise as 0. */
  lemma NumeralRead(gap: string, d: string, r: string)
    requires Gap(gap) && d != "" && AllDigits(d) && (r == "" || !('0' <= r[0] <= '9'))
    ensures NumberAfter(gap + (d + r)) == if Value(d) < 0x8000_0000_0000_0000 then Value(d) else 0
    ensures Value(d) <= 0x8000_0000_0000_0000 ==> NumberAfter(gap + ("-" + d + r)) == -(Value(d) as int)
    ensures Value(d) > 0x8000_0000_0000_0000 ==> NumberAfter(gap + ("-" + d + r)) == 0
  {
    hide LeadingDigits, Value;
    DigitsRun(d, r);
    assert (d + r)[0] == d[0] && (d + r)[..|d|] == d && (d + r)[|d|..] == r;
    GapSkipped(gap, d + r);
    var t := "-" + d + r;
    assert t[0] == '-' && t[1..] == d + r;
    GapSkipped(gap, t);
  }

  /** Anything else is read as 0, a plus sign included. */
  lemma NoNumeral(gap: string, t: string)
    requires Gap(gap) && (t == "" || (t[0] != ' ' && t[0] != '\t' && !('0' <= t[0] <= '9')))
    requires |t| > 1 && t[0] == '-' ==> !('0' <= t[1] <= '9')
    ensures NumberAfter(gap + t) == 0
  {
    GapSkipped(gap, t);
  }

  lemma NumberThen(n: nat, r: string)
    requires n < 0x8000_0000_0000_0000 && (r == "" || !('0' <= r[0] <= '9'))
    ensures NumberAfter(Digits(n) + r) == n
  {
    hide Digits, LeadingDigits, Value, NumberAfter;
    NumeralRead("", Digits(n), r);
    assert "" + (Digits(n) + r) == Digits(n) + r;
    ValueOfDigits(n);
  }

  function LengthLine(n: nat): string {
    "Content-Length: " + Digits(n)
  }

  /** The first occurrence in two joined lines. */
  lemma FindJoin(a: string, b: string, pat: string)
    requires LineText(pat) && pat != ""
    ensures Find(a + CRLF + b, pat) ==
      if Find(a, pat).Some? then Find(a, pat)
      else if Find(b, pat).Some? then Some(|a| + 2 + Find(b, pat).value) else None
  {
    var s := a + CRLF + b;
    Associate(a, CRLF, b);
    forall j: int ensures At(s, pat, j) <==> At(a, pat, j) || At(b, pat, j - |a| - 2) {
      AcrossLines(a, b, pat, j);
      AtAppend(a, CRLF + b, pat, j);
      AtShift(a + CRLF, b, pat, j - |a| - 2);
    }
    if Find(a, pat).Some? {
      FindIs(s, pat, Find(a, pat).value);
    } else if Find(b, pat).Some? {
      FindIs(s, pat, |a| + 2 + Find(b, pat).value);
    }
  }

  lemma {:induction false} BlanksLocal(x: string, y: string)
    requires y != "" && !IsBlank(y[0])
    ensures AfterBlanks(x + y) == AfterBlanks(x) + y
  {
    if x == "" {
      assert x + y == y;
    } else {
      assert (x + y)[1..] == x[1..] + y;
      BlanksLocal(x[1..], y);
    }
  }

  lemma {:induction false} DigitsLocal(x: string, y: string)
    requires y != "" && !IsDigit(y[0])
    ensures LeadingDigits(x + y) == LeadingDigits(x)
  {
    if x == "" {
      assert x + y == y;
    } else {
      assert (x + y)[1..] == x[1..] + y;
      DigitsLocal(x[1..], y);
    }
  }

  lemma CharsLocal(x: string, y: string)
    requires y != "" && y[0] == '\r'
    ensures FromChars(x + y) == FromChars(x)
  {
    hide Value, LeadingDigits;
    if x != "" && x[0] == '-' {
      assert (x + y)[1..] == x[1..] + y;
      DigitsLocal(x[1..], y);
      assert (x[1..] + y)[..LeadingDigits(x[1..])] == x[1..][..LeadingDigits(x[1..])];
    } else {
      DigitsLocal(x, y);
      assert (x + y)[..LeadingDigits(x)] == x[..LeadingDigits(x)];
    }
  }

  /** A number is read from its own line only. */
  lemma NumberLocal(x: string, y: string)
    requires y != "" && y[0] == '\r'
    ensures NumberAfter(x + y) == NumberAfter(x)
  {
    BlanksLocal(x, y);
    CharsLocal(AfterBlanks(x), y);
  }

  lemma NumberInJoin(a: string, b: string, s: string, i: nat)
    requires s == a + CRLF + b && i <= |a|
    ensures NumberAfter(s[i..]) == NumberAfter(a[i..])
  {
    assert s[i..] == a[i..] + (CRLF + b);
    NumberLocal(a[i..], CRLF + b);
  }

  /** The header of one spelling, read in its line. */
  function NamedLength(s: string, name: string): Option<int>
    requires |name| == 15
  {
    match Find(s, name)
    case None => None
    case Some(i) => Some(NumberAfter(s[i + 15..]))
  }

  lemma NamedInFirst(a: string, b: string, s: string, name: string)
    requires |name| == 15 && LineText(name) && s == a + CRLF + b && Find(a, name).Some?
    ensures Find(s, name).Some? && NamedLength(s, name) == NamedLength(a, name)
  {
    hide NumberAfter;
    FindJoin(a, b, name);
    NumberInJoin(a, b, s, Find(a, name).value + 15);
  }

  lemma NamedInSecond(a: string, b: string, s: string, name: string)
    requires |name| == 15 && LineText(name) && s == a + CRLF + b && Find(a, name).None?
    ensures NamedLength(s, name) == NamedLength(b, name)
  {
    hide NumberAfter;
    FindJoin(a, b, name);
    if Find(b, name).Some? {
      var j := Find(b, name).value;
      assert s[|a| + 2 + j + 15..] == b[j + 15..];
    }
  }

  /** `getContentLength` takes the first header in canonical spelling, and only
      without one the first in lower case. */
  lemma ContentLengthByName(s: string)
    ensures ContentLength(s) ==
      if NamedLength(s, LENGTH_NAME).Some? then NamedLength(s, LENGTH_NAME).value
      else if NamedLength(s, LENGTH_NAME_LOWER).Some? then NamedLength(s, LENGTH_NAME_LOWER).value else 0
  {
  }

  // ----- the line that decides -----

  /** The number on the first line that has the name. */
  function FirstAnnounced(lines: seq<string>, name: string): Option<int>
    requires |name| == 15
  {
    if lines == [] then None
    else
      var earlier := FirstAnnounced(lines[..|lines| - 1], name);
      if earlier.Some? then earlier else NamedLength(lines[|lines| - 1], name)
  }

  /** The length that a request line and header lines announce. */
  function LengthSaid(line: string, lines: seq<string>): int {
    match FirstAnnounced([line] + lines, LENGTH_NAME)
    case Some(n) => n
    case None =>
      match FirstAnnounced([line] + lines, LENGTH_NAME_LOWER)
      case Some(n) => n
      case None => 0
  }

  lemma {:induction false} SectionAnnounced(line: string, lines: seq<string>, name: string)
    requires |name| == 15 && LineText(name)
    ensures NamedLength(Section(line, lines), name) == FirstAnnounced([line] + lines, name)
  {
    hide NumberAfter;
    var all := [line] + lines;
    if lines == [] {
      assert all == [line] && all[..0] == [];
    } else {
      var n := |lines| - 1;
      var first, s := Section(line, lines[..n]), Section(line, lines);
      SectionAnnounced(line, lines[..n], name);
      assert all[..|all| - 1] == [line] + lines[..n];
      if Find(first, name).Some? {
        NamedInFirst(first, lines[n], s, name);
      } else {
        NamedInSecond(first, lines[n], s, name);
      }
    }
  }

  /** `getContentLength` reads, of all lines of the header section with the name in
      canonical spelling, the first one, the request line included; and only without
      one the first line with the name in lower case. */
  lemma FirstLineDecides(line: string, lines: seq<string>)
    ensures ContentLength(Section(line, lines)) == LengthSaid(line, lines)
  {
    hide NamedLength, FirstAnnounced;
    SectionAnnounced(line, lines, LENGTH_NAME);
    SectionAnnounced(line, lines, LENGTH_NAME_LOWER);
    ContentLengthByName(Section(line, lines));
  }

  /** A printed request is parsed back, whole, exactly when it has a header line and
      the first line that announces a length announces that of its body. */
  lemma PrintParse(verb: string, path: string, version: string, lines: seq<string>, body: string)
    requires Printable(verb, path, version, lines)
    ensures var text := Print(verb, path, version, lines, body);
      ParseRequest(text) == Complete(HttpRequest(verb, path, version, body, text), |text|) <==>
      lines != [] && LengthSaid(RequestLine(verb, path, version), lines) == |body|
  {
    var line := RequestLine(verb, path, version);
    FirstLineDecides(line, lines);
    PrintedParses(verb, path, version, lines, body, Section(line, lines));
  }

  /** The whole result. */
  lemma PrintedParses(verb: string, path: string, version: string, lines: seq<string>, body: string, s: string)
    requires Printable(verb, path, version, lines) && s == Section(RequestLine(verb, path, version), lines)
    ensures var text := s + BLANK_LINE + body;
      if lines == [] then ParseRequest(text) == Error("Malformed HTTP Request Line")
      else if ContentLength(s) < 0 then ParseRequest(text) == Error("Invalid Content-Length header")
      else if |body| < ContentLength(s) then ParseRequest(text).Incomplete?
      else ParseRequest(text) == Complete(HttpRequest(verb, path, version, body[..ContentLength(s)],
        text[..|s| + 4 + ContentLength(s)]), |s| + 4 + ContentLength(s))
    ensures body[..|body|] == body && (s + BLANK_LINE + body)[..|s + BLANK_LINE + body|] == s + BLANK_LINE + body
  {
    hide ContentLength, ParseHead, Section;
    SectionHasNoBlankLine(RequestLine(verb, path, version), lines);
    BlankLineAtEnd(s, body);
    PrintedHead(verb, path, version, lines, s);
    PrintedBody(s, body, ParseHead(s));
    var text := s + BLANK_LINE + body;
    assert text[..|s|] == s;
  }

  /** And what becomes of every other printed request. */
  lemma PrintedOtherwise(verb: string, path: string, version: string, lines: seq<string>, body: string)
    requires Printable(verb, path, version, lines)
    ensures var text, said := Print(verb, path, version, lines, body), LengthSaid(RequestLine(verb, path, version), lines);
      && (ParseRequest(text) == Error("Malformed HTTP Request Line") <==> lines == [])
      && (ParseRequest(text) == Error("Invalid Content-Length header") <==> lines != [] && said < 0)
      && (ParseRequest(text) == Incomplete <==> lines != [] && said > |body|)
      && (lines != [] && 0 <= said <= |body| ==> (ParseRequest(text).Complete? &&
        ParseRequest(text).request.body == body[..said] && ParseRequest(text).consumed == |text| - |body| + said))
  {
    hide LengthSaid, ParseRequest;
    var line := RequestLine(verb, path, version);
    FirstLineDecides(line, lines);
    PrintedParses(verb, path, version, lines, body, Section(line, lines));
  }

  /** A first line with fewer than two blanks is refused, whatever follows. */
  lemma FewBlanks(line: string, lines: seq<string>, body: string)
    requires LineText(line) && lines != [] && forall i :: 0 <= i < |lines| ==> lines[i] != "" && LineText(lines[i])
    requires forall i, j :: 0 <= i < j < |line| ==> line[i] != ' ' || line[j] != ' '
    ensures ParseRequest(Section(line, lines) + BLANK_LINE + body) == Error("Invalid request lineStructure")
  {
    hide Section, ContentLength;
    var s := Section(line, lines);
    SectionHasNoBlankLine(line, lines);
    BlankLineAtEnd(s, body);
    assert (s + BLANK_LINE + body)[..|s|] == s;
    SectionStarts(line, lines);
    FirstLineEnd(line, s);
    FindChar(line, ' ');
    if Find(line, " ").Some? {
      var i := Find(line, " ").value;
      forall j | i + 1 <= j ensures !At(line, " ", j) {
        AtChar(line, ' ', j);
      }
    }
  }

  lemma LengthLineSays(n: nat)
    requires n < 0x8000_0000_0000_0000
    ensures NamedLength(LengthLine(n), LENGTH_NAME) == Some(n)
  {
    NamedAtStart("Content-Length:", " ", Digits(n));
    Associate("Content-Length:", " ", Digits(n));
    assert "Content-Length:" + " " == "Content-Length: ";
    ValueOfDigits(n);
  }

  /** A header line as some other client may print it. */
  lemma NamedAtStart(name: string, gap: string, d: string)
    requires |name| == 15 && Gap(gap) && d != "" && AllDigits(d)
    ensures NamedLength(name + (gap + d), name) == Some(if Value(d) < 0x8000_0000_0000_0000 then Value(d) else 0)
    ensures Value(d) <= 0x8000_0000_0000_0000 ==> NamedLength(name + (gap + ("-" + d)), name) == Some(-(Value(d) as int))
    ensures Value(d) > 0x8000_0000_0000_0000 ==> NamedLength(name + (gap + ("-" + d)), name) == Some(0)
  {
    hide NumberAfter, Value;
    NumeralRead(gap, d, "");
    assert d + "" == d && "-" + d + "" == "-" + d;
    NameFirst(name, gap + d);
    NameFirst(name, gap + ("-" + d));
  }

  lemma NameFirst(name: string, t: string)
    requires name != ""
    ensures Find(name + t, name) == Some(0) && (name + t)[|name|..] == t
  {
    assert (name + t)[..|name|] == name;
    FindIs(name + t, name, 0);
  }

  lemma {:induction false} FirstIs(lines: seq<string>, i: nat, name: string)
    requires |name| == 15 && i < |lines| && NamedLength(lines[i], name).Some?
    requires forall j :: 0 <= j < i ==> NamedLength(lines[j], name).None?
    ensures FirstAnnounced(lines, name) == NamedLength(lines[i], name)
  {
    hide NamedLength;
    var n := |lines| - 1;
    if i < n {
      FirstIs(lines[..n], i, name);
    } else {
      NoneOf(lines[..n], name);
    }
  }

  lemma {:induction false} NoneOf(lines: seq<string>, name: string)
    requires |name| == 15 && forall j :: 0 <= j < |lines| ==> NamedLength(lines[j], name).None?
    ensures FirstAnnounced(lines, name).None?
  {
    hide NamedLength;
    if lines == [] {
    } else {
      NoneOf(lines[..|lines| - 1], name);
    }
  }

  lemma WithLengthLine(line: string, pre: seq<string>, n: nat, post: seq<string>)
    requires n < 0x8000_0000_0000_0000 && forall i :: 0 <= i < |pre| ==> NamedLength(pre[i], LENGTH_NAME).None?
    ensures LengthSaid(line, pre + [LengthLine(n)] + post) ==
      if NamedLength(line, LENGTH_NAME).Some? then NamedLength(line, LENGTH_NAME).value else n
  {
    hide NamedLength, FirstAnnounced, LengthLine;
    var all := [line] + (pre + [LengthLine(n)] + post);
    LengthLineSays(n);
    assert forall i :: 0 <= i < |pre| ==> all[i + 1] == pre[i];
    assert all[0] == line && all[|pre| + 1] == LengthLine(n);
    if NamedLength(line, LENGTH_NAME).Some? {
      FirstIs(all, 0, LENGTH_NAME);
    } else {
      forall j | 0 <= j < |pre| + 1 ensures NamedLength(all[j], LENGTH_NAME).None? {
        assert j > 0 ==> all[j] == pre[j - 1];
      }
      FirstIs(all, |pre| + 1, LENGTH_NAME);
    }
  }

  /** A request printed with its Content-Length, and no such name on an earlier header
      line, is parsed back exactly when its request line does not have the name, or has
      it with the right number. */
  lemma PrintParseWithLength(verb: string, path: string, version: string, pre: seq<string>, post: seq<string>,
      body: string)
    requires |body| < 0x8000_0000_0000_0000 && Printable(verb, path, version, pre + [LengthLine(|body|)] + post)
    requires forall i :: 0 <= i < |pre| ==> NamedLength(pre[i], LENGTH_NAME).None?
    ensures var text := Print(verb, path, version, pre + [LengthLine(|body|)] + post, body);
      var said := NamedLength(RequestLine(verb, path, version), LENGTH_NAME);
      ParseRequest(text) == Complete(HttpRequest(verb, path, version, body, text), |text|) <==>
      said.None? || said == Some(|body|)
  {
    hide NamedLength, LengthLine, ParseRequest, Printable, Print, LengthSaid;
    WithLengthLine(RequestLine(verb, path, version), pre, |body|, post);
    PrintParse(verb, path, version, pre + [LengthLine(|body|)] + post, body);
  }

  /** The spelling in lower case counts as well, on whatever line it comes first, when
      the canonical one occurs nowhere. */
  lemma LowerCaseDecides(line: string, pre: seq<string>, n: nat, post: seq<string>)
    requires n < 0x8000_0000_0000_0000
    requires forall l :: l in [line] + (pre + ["content-length: " + Digits(n)] + post) ==>
      NamedLength(l, LENGTH_NAME).None?
    requires NamedLength(line, LENGTH_NAME_LOWER).None?
    requires forall i :: 0 <= i < |pre| ==> NamedLength(pre[i], LENGTH_NAME_LOWER).None?
    ensures LengthSaid(line, pre + ["content-length: " + Digits(n)] + post) == n
  {
    hide NamedLength, FirstAnnounced, Digits;
    var l := "content-length: " + Digits(n);
    var all := [line] + (pre + [l] + post);
    LowerLineSays(n);
    assert forall j :: 0 <= j < |all| ==> all[j] in all;
    NoneOf(all, LENGTH_NAME);
    forall j | 0 <= j < |pre| + 1 ensures NamedLength(all[j], LENGTH_NAME_LOWER).None? {
      assert all[j] == if j == 0 then line else pre[j - 1];
    }
    assert all[|pre| + 1] == l;
    FirstIs(all, |pre| + 1, LENGTH_NAME_LOWER);
  }

  lemma LowerLineSays(n: nat)
    requires n < 0x8000_0000_0000_0000
    ensures NamedLength("content-length: " + Digits(n), LENGTH_NAME_LOWER) == Some(n)
  {
    NamedAtStart("content-length:", " ", Digits(n));
    Associate("content-length:", " ", Digits(n));
    assert "content-length:" + " " == "content-length: ";
    ValueOfDigits(n);
  }

  /** A negative length is refused. */
  lemma NegativeRefused(verb: string, path: string, version: string, gap: string, n: nat, post: seq<string>, body: string)
    requires 0 < n <= 0x8000_0000_0000_0000 && Gap(gap)
    requires Printable(verb, path, version, ["Content-Length:" + (gap + ("-" + Digits(n)))] + post)
    requires NamedLength(RequestLine(verb, path, version), LENGTH_NAME).None?
    ensures ParseRequest(Print(verb, path, version, ["Content-Length:" + (gap + ("-" + Digits(n)))] + post, body))
      == Error("Invalid Content-Length header")
  {
    hide NamedLength, FirstAnnounced, Digits, ParseRequest, Printable, Print;
    var l, line := "Content-Length:" + (gap + ("-" + Digits(n))), RequestLine(verb, path, version);
    NamedAtStart("Content-Length:", gap, Digits(n));
    ValueOfDigits(n);
    var all := [line] + ([l] + post);
    assert all[0] == line && all[1] == l;
    FirstIs(all, 1, LENGTH_NAME);
    PrintedOtherwise(verb, path, version, [l] + post, body);
  }

  // ----- a path that breaks it -----

  /** The first occurrence of the name after text without it. */
  lemma NameAfter(a: string, b: string)
    requires Find(a, LENGTH_NAME).None?
    ensures Find(a + LENGTH_NAME + b, LENGTH_NAME) == Some(|a|)
    ensures (a + LENGTH_NAME + b)[|a| + 15..] == b
  {
    var s := a + LENGTH_NAME + b;
    assert s[|a|..|a| + 15] == LENGTH_NAME;
    forall j | 0 <= j < |a| ensures !At(s, LENGTH_NAME, j) {
      if j + 15 <= |a| {
        assert s == a + (LENGTH_NAME + b);
        AtAppend(a, LENGTH_NAME + b, LENGTH_NAME, j);
      } else {
        assert s[|a|] == 'C';
        OnlyOneCapital(|a| - j);
        NotAt(s, LENGTH_NAME, j, |a| - j);
      }
    }
    FindIs(s, LENGTH_NAME, |a|);
  }

  lemma OnlyOneCapital(k: nat)
    requires 1 <= k < 15
    ensures LENGTH_NAME[k] != 'C'
  {
  }

  /** A path can end in the name and a number; then the request is parsed back exactly
      when the number happens to be the length of the body, whatever the headers say. */
  lemma NameInPath(verb: string, dir: string, n: nat, version: string, lines: seq<string>, body: string)
    requires n < 0x8000_0000_0000_0000 && lines != [] && Find(verb + " " + dir, LENGTH_NAME).None?
    requires Printable(verb, dir + LENGTH_NAME + Digits(n), version, lines)
    ensures var path := dir + LENGTH_NAME + Digits(n);
      var text := Print(verb, path, version, lines, body);
      ParseRequest(text) == Complete(HttpRequest(verb, path, version, body, text), |text|) <==> n == |body|
  {
    hide NumberAfter, ParseRequest, Printable, Print, Digits;
    var path := dir + LENGTH_NAME + Digits(n);
    var line, rest := RequestLine(verb, path, version), Digits(n) + (" " + version);
    PathLine(verb, dir, LENGTH_NAME, Digits(n), version);
    NameAfter(verb + " " + dir, rest);
    NumberThen(n, " " + version);
    assert NamedLength(line, LENGTH_NAME) == Some(n);
    FirstIs([line] + lines, 0, LENGTH_NAME);
    PrintParse(verb, path, version, lines, body);
  }

  lemma PathLine(verb: string, dir: string, name: string, digits: string, version: string)
    ensures RequestLine(verb, dir + name + digits, version) == verb + " " + dir + name + (digits + (" " + version))
  {
  }
}
