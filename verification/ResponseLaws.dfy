/** What the proxy reads in a backend's header lines, whoever printed them. */
module ResponseLaws {
  import opened Text
  import opened HttpHelpers
  import opened HttpLaws
  import opened Responses

  // ----- the number -----

  /** A decimal number after white space, with or without a sign: `stoul` throws from 2^64
      on, and a minus sign negates in 64 bits. */
  lemma StoulRead(gap: string, sign: string, d: string, r: string)
    requires Spaces(gap) && (sign == "" || sign == "+" || sign == "-")
    requires d != "" && AllDigits(d) && (r == "" || !('0' <= r[0] <= '9'))
    ensures Stoul(gap + (sign + (d + r))) ==
      if Value(d) >= 0x1_0000_0000_0000_0000 then None
      else Some(if sign == "-" then (0x1_0000_0000_0000_0000 - Value(d)) % 0x1_0000_0000_0000_0000 else Value(d))
  {
    hide Value, LeadingDigits;
    var digits := d + r;
    var u := sign + digits;
    DigitsRun(d, r);
    assert digits[0] == d[0] && digits[..|d|] == d;
    assert if sign == "" then u == digits else u[0] == sign[0] && u[1..] == digits;
    SpacesSkipped(gap, u);
  }

  lemma StoulNone(gap: string, t: string)
    requires Spaces(gap) && t != "" && t[0] as int != 32 && !(9 <= t[0] as int <= 13)
    requires t[0] != '+' && t[0] != '-' && !('0' <= t[0] <= '9')
    ensures Stoul(gap + t) == None
  {
    SpacesSkipped(gap, t);
  }

  // ----- the status line -----

  lemma {:induction false} WordSkipped(w: string, t: string)
    requires (forall i :: 0 <= i < |w| ==> !IsSpace(w[i])) && (t != "" ==> IsSpace(t[0]))
    ensures WordLength(w + t) == |w|
  {
    if w == "" {
      assert w + t == t;
    } else {
      assert (w + t)[1..] == w[1..] + t;
      WordSkipped(w[1..], t);
    }
  }

  /** What follows a sign or stands without one. */
  predicate Signed(sign: string, v: string, digits: string) {
    if sign == "" then v == digits else v != "" && v[0] == sign[0] && v[1..] == digits
  }

  lemma NumberStarts(gap: string, sign: string, digits: string)
    requires Spaces(gap) && (sign == "" || sign == "+" || sign == "-") && digits != "" && IsDigit(digits[0])
    ensures AfterSpaces(gap + (sign + digits)) == sign + digits && Signed(sign, sign + digits, digits)
  {
    SpacesSkipped(gap, sign + digits);
  }

  /** The status line: version, code and text, with white space before the first two; a
      code beyond 32 bits is cut to the nearest number that fits and takes the text with
      it. */
  lemma StatusRead(gap: string, version: string, space: string, sign: string, d: string, r: string)
    requires Spaces(gap) && Spaces(space) && space != "" && (sign == "" || sign == "+" || sign == "-")
    requires version != "" && forall i :: 0 <= i < |version| ==> version[i] as int != 32 && !(9 <= version[i] as int <= 13)
    requires d != "" && AllDigits(d) && (r == "" || !('0' <= r[0] <= '9'))
    ensures var code: int := if sign == "-" then -(Value(d) as int) else Value(d);
      ReadStatus(gap + (version + (space + (sign + (d + r))))) ==
        if code > 0x7FFF_FFFF then StatusLine(version, 0x7FFF_FFFF, "")
        else if code < -0x8000_0000 then StatusLine(version, -0x8000_0000, "")
        else StatusLine(version, code, if r != "" && r[0] == ' ' then r[1..] else r)
  {
    hide Value, LeadingDigits, WordLength, AfterSpaces;
    var digits, more := d + r, space + (sign + (d + r));
    DigitsRun(d, r);
    assert digits[0] == d[0] && digits[..|d|] == d && digits[|d|..] == r;
    NumberStarts(space, sign, digits);
    assert more[0] == space[0];
    WordSkipped(version, more);
    var u := version + more;
    assert u[0] == version[0] && u[..|version|] == version && u[|version|..] == more;
    SpacesSkipped(gap, u);
    ByParts(gap + u, u, |version|, sign + digits, sign, digits, |d|);
  }

  lemma ByParts(line: string, u: string, n: nat, v: string, sign: string, digits: string, d: nat)
    requires AfterSpaces(line) == u && WordLength(u) == n && n <= |u| && AfterSpaces(u[n..]) == v
    requires (sign == "" || sign == "+" || sign == "-") && Signed(sign, v, digits)
    requires LeadingDigits(digits) == d && 0 < d <= |digits| && AllDigits(digits[..d])
    ensures var code: int := if sign == "-" then -(Value(digits[..d]) as int) else Value(digits[..d]);
      ReadStatus(line) ==
        if code > 0x7FFF_FFFF then StatusLine(u[..n], 0x7FFF_FFFF, "")
        else if code < -0x8000_0000 then StatusLine(u[..n], -0x8000_0000, "")
        else StatusLine(u[..n], code, if digits[d..] != "" && digits[d] == ' ' then digits[d + 1..] else digits[d..])
  {
    hide Value, WordLength, AfterSpaces;
    assert digits[..d][0] == digits[0];
  }

  /** Without a number there is neither code nor text. */
  lemma StatusWithout(version: string, r: string)
    requires version != "" && forall i :: 0 <= i < |version| ==> version[i] as int != 32 && !(9 <= version[i] as int <= 13)
    requires r == "" || (r[0] != '+' && r[0] != '-' && r[0] as int != 32 && !(9 <= r[0] as int <= 13) && !('0' <= r[0] <= '9'))
    ensures ReadStatus(version + (" " + r)) == StatusLine(version, 0, "")
  {
    hide Value, WordLength, AfterSpaces;
    var more := " " + r;
    var u := version + more;
    WordSkipped(version, more);
    assert u[0] == version[0] && u[..|version|] == version && u[|version|..] == more;
    SpacesSkipped("", u);
    assert "" + u == u;
    NoMore(r);
  }

  lemma NoMore(r: string)
    requires r == "" || (r[0] as int != 32 && !(9 <= r[0] as int <= 13))
    ensures AfterSpaces(" " + r) == r
  {
    assert (" " + r)[1..] == r;
    if r != "" {
      SpacesSkipped(" ", r);
    }
  }

  // ----- one line -----

  /** `content-length` in whatever letter case. */
  predicate LengthSpelled(name: string) {
    |name| == 14 && forall i :: 0 <= i < 14 ==>
      name[i] == "content-length"[i] || (i != 7 && name[i] as int + 32 == "content-length"[i] as int)
  }

  lemma AnyCase(name: string)
    ensures Lower(name) == "content-length" <==> LengthSpelled(name)
  {
    var c := "content-length";
    assert forall i :: 0 <= i < 14 ==> (i == 7 ==> c[i] == '-') && (i != 7 ==> 'a' <= c[i] <= 'z');
    assert |name| == 14 ==> |Lower(name)| == 14 && forall i :: 0 <= i < 14 ==> Lower(name)[i] == LowerChar(name[i]);
    if LengthSpelled(name) {
      assert forall i :: 0 <= i < 14 ==> Lower(name)[i] == c[i];
    } else if |name| == 14 {
      var i :| 0 <= i < 14 && !(name[i] == c[i] || (i != 7 && name[i] as int + 32 == c[i] as int));
      assert Lower(name)[i] != c[i];
    }
  }

  datatype Header = Header(name: string, gap: string, value: string)

  function HeaderText(h: Header): string {
    h.name + ":" + (h.gap + h.value)
  }

  predicate GoodHeader(h: Header) {
    ':' !in h.name && Gap(h.gap) && (h.value != "" ==> h.value[0] != ' ' && h.value[0] != '\t')
  }

  /** A header line enters its value under its name, as spelled; and it announces a
      length if it is a Content-Length in any letter case. */
  lemma HeaderRead(h: Header, acc: Scan)
    requires GoodHeader(h)
    ensures var scan := WithHeader(HeaderText(h), acc);
      && scan.headers == acc.headers[h.name := h.value]
      && (!LengthSpelled(h.name) ==> scan.length == acc.length && scan.found == acc.found)
      && (LengthSpelled(h.name) ==> match Stoul(h.value)
          case None => scan.length == 0 && scan.found == acc.found
          case Some(n) => scan.length == n && scan.found)
  {
    hide Lower, Stoul, LengthSpelled, AfterBlanks;
    var line := HeaderText(h);
    assert line[..|h.name|] == h.name && line[|h.name|] == ':' && line[|h.name| + 1..] == h.gap + h.value;
    FindCharIs(line, ':', |h.name|);
    GapSkipped(h.gap, h.value);
    AnyCase(h.name);
  }

  lemma NoColon(line: string, acc: Scan)
    requires ':' !in line
    ensures WithHeader(line, acc) == acc
  {
    FindChar(line, ':');
  }

  // ----- all lines -----

  function Texts(hs: seq<Header>): (lines: seq<string>)
    ensures |lines| == |hs| && forall i :: 0 <= i < |hs| ==> lines[i] == HeaderText(hs[i])
  {
    seq(|hs|, i requires 0 <= i < |hs| => HeaderText(hs[i]))
  }

  predicate GoodHeaders(hs: seq<Header>) {
    forall i :: 0 <= i < |hs| ==> GoodHeader(hs[i])
  }

  /** What the loop has collected after these lines. */
  function Read(hs: seq<Header>): Scan {
    ReadAfter(StatusLine("", 0, ""), hs)
  }

  function ReadAfter(status: StatusLine, hs: seq<Header>): Scan {
    Folded(Texts(hs), Start(status))
  }

  /** The lines do not touch the status. */
  lemma {:induction false} StatusApart(status: StatusLine, hs: seq<Header>)
    requires GoodHeaders(hs)
    ensures ReadAfter(status, hs) == Read(hs).(status := status)
  {
    if hs == [] {
      assert Texts(hs) == [];
    } else {
      var n := |hs| - 1;
      StatusApart(status, hs[..n]);
      assert hs == hs[..n] + [hs[n]];
      ReadSnoc(StatusLine("", 0, ""), hs[..n], hs[n]);
      ReadSnoc(status, hs[..n], hs[n]);
      hide ReadAfter;
    }
  }

  lemma ReadSnoc(status: StatusLine, hs: seq<Header>, h: Header)
    ensures ReadAfter(status, hs + [h]) == WithHeader(HeaderText(h), ReadAfter(status, hs))
  {
    hide WithHeader;
    var l := HeaderText(h);
    assert Texts(hs + [h]) == Texts(hs) + [l];
    FoldedSplit(Texts(hs), [l], Start(status));
    assert [l][1..] == [];
  }

  /** The header map has the names of the lines, each with the value of the last line
      that has it. */
  lemma {:induction false} HeaderMap(hs: seq<Header>, k: string)
    requires GoodHeaders(hs)
    ensures k in Read(hs).headers <==> exists i :: 0 <= i < |hs| && hs[i].name == k
    ensures forall i :: 0 <= i < |hs| && hs[i].name == k && (forall j :: i < j < |hs| ==> hs[j].name != k) ==>
      k in Read(hs).headers && Read(hs).headers[k] == hs[i].value
  {
    hide WithHeader, LengthSpelled, Stoul, GoodHeader;
    if hs == [] {
      assert Texts(hs) == [];
    } else {
      var n := |hs| - 1;
      HeaderMap(hs[..n], k);
      assert hs == hs[..n] + [hs[n]];
      ReadSnoc(StatusLine("", 0, ""), hs[..n], hs[n]);
      HeaderRead(hs[n], Read(hs[..n]));
      hide Read;
      assert forall i :: 0 <= i < n ==> hs[i] == hs[..n][i];
    }
  }

  /** The last line with the name in any letter case decides. */
  lemma {:induction false} LastLengthCounts(hs: seq<Header>, i: nat, d: string, r: string)
    requires GoodHeaders(hs) && i < |hs| && LengthSpelled(hs[i].name) && hs[i].value == d + r
    requires d != "" && AllDigits(d) && (r == "" || !('0' <= r[0] <= '9')) && Value(d) < 0x1_0000_0000_0000_0000
    requires forall j :: i < j < |hs| ==> !LengthSpelled(hs[j].name)
    ensures Read(hs).found && Read(hs).length == Value(d)
  {
    hide WithHeader, Value, LengthSpelled, Stoul;
    var n := |hs| - 1;
    assert hs == hs[..n] + [hs[n]];
    ReadSnoc(StatusLine("", 0, ""), hs[..n], hs[n]);
    HeaderRead(hs[n], Read(hs[..n]));
    if i == n {
      StoulRead("", "", d, r);
      assert "" + ("" + (d + r)) == d + r;
    } else {
      LastLengthCounts(hs[..n], i, d, r);
    }
  }

  /** Without one nothing is announced. */
  lemma {:induction false} NothingAnnounced(hs: seq<Header>)
    requires GoodHeaders(hs) && forall j :: 0 <= j < |hs| ==> !LengthSpelled(hs[j].name)
    ensures !Read(hs).found
  {
    hide WithHeader, LengthSpelled;
    if hs == [] {
      assert Texts(hs) == [];
    } else {
      var n := |hs| - 1;
      NothingAnnounced(hs[..n]);
      assert hs == hs[..n] + [hs[n]];
      ReadSnoc(StatusLine("", 0, ""), hs[..n], hs[n]);
      HeaderRead(hs[n], Read(hs[..n]));
    }
  }

  /** A response whose last Content-Length, in whatever letter case, is the length of its
      body is read whole however its bytes arrive, with its header lines as the map. */
  lemma PrintedHeadersRead(status: string, hs: seq<Header>, i: nat, d: string, r: string, body: string, chunks: seq<string>)
    requires status != "" && LineText(status) && GoodHeaders(hs) && ProperLines(Texts(hs))
    requires i < |hs| && LengthSpelled(hs[i].name) && forall j :: i < j < |hs| ==> !LengthSpelled(hs[j].name)
    requires d != "" && AllDigits(d) && Value(d) == |body| && (r == "" || !('0' <= r[0] <= '9')) && hs[i].value == d + r
    requires Concat(chunks) == Section(status, Texts(hs)) + BLANK_LINE + body && |Concat(chunks)| < 0x8000_0000_0000_0000
    ensures ReadFrom("", chunks) == Some(HttpResponse(ReadStatus(status), Read(hs).headers, body, Concat(chunks)))
  {
    hide ReadStatus, ReadAfter, ScanHead, Section, Folded, ReadFrom, Texts, Value, LengthSpelled, ProperLines;
    var s, t := Section(status, Texts(hs)), Concat(chunks);
    ProperSection(status, Texts(hs), body);
    assert t[..|s|] == s;
    ScanPrinted(status, Texts(hs));
    LastLengthCounts(hs, i, d, r);
    StatusApart(ReadStatus(status), hs);
    IsReadAfter(ReadStatus(status), hs);
    AnnouncedIsSplitFree(chunks, |s|);
    assert t[|s| + 4..|t|] == body && t[..|t|] == t;
  }

  lemma IsReadAfter(status: StatusLine, hs: seq<Header>)
    ensures Folded(Texts(hs), Start(status)) == ReadAfter(status, hs)
  {
  }

  lemma ProperSection(status: string, lines: seq<string>, body: string)
    requires LineText(status) && ProperLines(lines)
    ensures Find(Section(status, lines) + BLANK_LINE + body, BLANK_LINE) == Some(|Section(status, lines)|)
  {
    SectionHasNoBlankLine(status, lines);
    BlankLineAtEnd(Section(status, lines), body);
  }

  // ----- line ends -----

  lemma OneLine(l: string, more: string, acc: Scan)
    requires '\n' !in l
    ensures ScanLines(l + "\n" + more, acc) == if Chomp(l) == "" then acc else ScanLines(more, WithHeader(Chomp(l), acc))
  {
    hide WithHeader, Chomp, GetLine;
    GetCut(l, more);
  }

  /** A line may end in a bare newline as well; the first empty line ends the scan. */
  lemma BareLines(l: string, more: string, acc: Scan)
    requires LineText(l) && l != ""
    ensures ScanLines(l + "\n" + more, acc) == ScanLines(more, WithHeader(l, acc))
    ensures ScanLines(l + "\r" + "\n" + more, acc) == ScanLines(more, WithHeader(l, acc))
    ensures ScanLines("" + "\n" + more, acc) == acc && ScanLines("\r" + "\n" + more, acc) == acc
  {
    OneLine(l, more, acc);
    OneLine(l + "\r", more, acc);
    OneLine("", more, acc);
    OneLine("\r", more, acc);
    hide WithHeader, ScanLines;
    assert (l + "\r")[..|l|] == l;
  }

  lemma GetCut(l: string, more: string)
    requires '\n' !in l
    ensures GetLine(l + "\n" + more) == (l, more)
  {
    var s := l + "\n" + more;
    assert s[|l|] == '\n' && s[..|l|] == l && s[|l| + 1..] == more;
    FindCharIs(s, '\n', |l|);
  }
}
