/** What the decoder makes of any chunked body, whoever printed it (section 7.1 of
    RFC 9112): sizes in either letter case, chunk extensions, trailers and limits. */
module ChunkedLaws {
  import opened Text
  import opened ChunkedCoding

  // ----- hexadecimal numbers by character codes -----

  predicate HexCode(c: char) {
    48 <= c as int <= 57 || 65 <= c as int <= 70 || 97 <= c as int <= 102
  }

  function CodeValue(c: char): nat
    requires HexCode(c)
  {
    if c as int <= 57 then c as int - 48 else if c as int <= 70 then c as int - 55 else c as int - 87
  }

  lemma HexByCodes(s: string, c: char)
    requires AllHex(s)
    ensures IsHex(c) <==> HexCode(c)
    ensures HexCode(c) ==> HexValue(s + [c]) == 16 * HexValue(s) + CodeValue(c)
    ensures HexValue("") == 0
  {
    assert (s + [c])[..|s|] == s;
  }

  /** The `0x` that may precede a number counts only when a digit follows. */
  predicate ReadsAsPrefix(mark: string, d: string, r: string) {
    mark == "" && d == "0" && |r| >= 2 && (r[0] == 'x' || r[0] == 'X') && HexCode(r[1])
  }

  /** `strtoul` once white space and sign are gone. */
  lemma Prefixed(mark: string, d: string, r: string)
    requires mark == "" || mark == "0x" || mark == "0X"
    requires d != "" && AllHex(d) && (r == "" || !HexCode(r[0])) && !ReadsAsPrefix(mark, d, r)
    ensures var v := mark + (d + r);
      && v != "" && v[0] == (if mark == "" then d[0] else '0') && IsHex(v[0])
      && Bare(v, d + r)
  {
    var digits := d + r;
    var v := mark + digits;
    assert digits[0] == d[0] && IsHex(d[0]);
    assert mark == "" ==> v == digits;
    assert mark != "" ==> v[0] == '0' && v[1] == mark[1] && v[2] == digits[0] && v[2..] == digits;
    assert |digits| >= 2 ==> digits[1] == if |d| >= 2 then d[1] else r[0];
    assert |d| == 1 && |digits| >= 3 ==> digits[2] == r[1];
  }

  /** A number after white space, with or without sign and `0x`, and before whatever
      is no digit: it is capped at 64 bits, and a minus sign negates within them. */
  lemma NumberRead(gap: string, sign: string, mark: string, d: string, r: string)
    requires Spaces(gap) && (sign == "" || sign == "+" || sign == "-") && (mark == "" || mark == "0x" || mark == "0X")
    requires d != "" && AllHex(d) && (r == "" || !HexCode(r[0])) && !ReadsAsPrefix(mark, d, r)
    ensures Strtoul16(gap + (sign + (mark + (d + r)))) ==
      (if HexValue(d) > 0xFFFF_FFFF_FFFF_FFFF then 0xFFFF_FFFF_FFFF_FFFF
       else if sign == "-" then (0x1_0000_0000_0000_0000 - HexValue(d)) % 0x1_0000_0000_0000_0000
       else HexValue(d), true)
  {
    hide *;
    Prefixed(mark, d, r);
    DigitsRead(d, r);
    AfterSign(gap, sign, mark + (d + r), d + r, |d|);
  }

  lemma DigitsRead(d: string, r: string)
    requires d != "" && AllHex(d) && (r == "" || !HexCode(r[0]))
    ensures LeadingHex(d + r) == |d| && (d + r)[..|d|] == d
  {
    HexRun(d, r);
  }

  /** What stands after a sign, with its `0x` taken off. */
  predicate Bare(v: string, digits: string) {
    (if |v| >= 3 && v[0] == '0' && (v[1] == 'x' || v[1] == 'X') && IsHex(v[2]) then v[2..] else v) == digits
  }

  lemma AfterSign(gap: string, sign: string, v: string, digits: string, n: nat)
    requires Spaces(gap) && (sign == "" || sign == "+" || sign == "-") && v != "" && IsHex(v[0]) && Bare(v, digits)
    requires LeadingHex(digits) == n && 0 < n <= |digits| && AllHex(digits[..n])
    ensures Strtoul16(gap + (sign + v)) ==
      (if HexValue(digits[..n]) > 0xFFFF_FFFF_FFFF_FFFF then 0xFFFF_FFFF_FFFF_FFFF
       else if sign == "-" then (0x1_0000_0000_0000_0000 - HexValue(digits[..n])) % 0x1_0000_0000_0000_0000
       else HexValue(digits[..n]), true)
  {
    hide HexValue, LeadingHex, AllHex, Strtoul16, AfterSpaces, IsHex, Bare;
    Signed(sign, v);
    SpacesSkipped(gap, sign + v);
    ByParts(gap + (sign + v), sign + v, sign, v, digits, n);
  }

  lemma Signed(sign: string, v: string)
    requires (sign == "" || sign == "+" || sign == "-") && v != "" && IsHex(v[0])
    ensures var u := sign + v;
      && u[0] == (if sign == "" then v[0] else sign[0]) && u[if sign == "" then 0 else 1..] == v
      && u[0] as int != 32 && !(9 <= u[0] as int <= 13)
  {
  }

  lemma ByParts(t: string, u: string, sign: string, v: string, digits: string, n: nat)
    requires (sign == "" || sign == "+" || sign == "-") && v != "" && IsHex(v[0])
    requires AfterSpaces(t) == u && u != "" && u[0] == (if sign == "" then v[0] else sign[0])
    requires u[if sign == "" then 0 else 1..] == v
    requires Bare(v, digits)
    requires LeadingHex(digits) == n && 0 < n <= |digits| && AllHex(digits[..n])
    ensures Strtoul16(t) ==
      (if HexValue(digits[..n]) > 0xFFFF_FFFF_FFFF_FFFF then 0xFFFF_FFFF_FFFF_FFFF
       else if sign == "-" then (0x1_0000_0000_0000_0000 - HexValue(digits[..n])) % 0x1_0000_0000_0000_0000
       else HexValue(digits[..n]), true)
  {
    hide HexValue, LeadingHex, AllHex, AfterSpaces;
    assert u[0..] == u;
  }

  /** Nothing is converted where no digit comes first. */
  lemma NoNumber(gap: string, t: string)
    requires Spaces(gap) && t != "" && t[0] as int != 32 && !(9 <= t[0] as int <= 13)
    requires t[0] != '+' && t[0] != '-' && !HexCode(t[0])
    ensures Strtoul16(gap + t) == (0, false)
  {
    SpacesSkipped(gap, t);
  }

  // ----- bodies as anyone may print them -----

  /** A chunk: its size in hexadecimal, extensions, and its data. */
  datatype Part = Part(size: string, ext: string, data: string)

  predicate NoReturn(s: string) {
    forall i :: 0 <= i < |s| ==> s[i] != '\r'
  }

  predicate SizeLine(size: string, ext: string) {
    && size != "" && AllHex(size) && NoReturn(ext) && |size| + |ext| <= 32766
    && (ext != "" ==> !HexCode(ext[0]) && ext[0] != 'x' && ext[0] != 'X')
  }

  predicate GoodPart(p: Part) {
    SizeLine(p.size, p.ext) && p.data != "" && HexValue(p.size) == |p.data| < 0xFFFF_FFFF_FFFF_FFFF
  }

  function PartText(p: Part): string {
    p.size + p.ext + CRLF + (p.data + CRLF)
  }

  function PartsText(parts: seq<Part>): string {
    if parts == [] then "" else PartsText(parts[..|parts| - 1]) + PartText(parts[|parts| - 1])
  }

  function DataOf(parts: seq<Part>): string {
    if parts == [] then "" else DataOf(parts[..|parts| - 1]) + parts[|parts| - 1].data
  }

  predicate GoodParts(parts: seq<Part>) {
    forall i :: 0 <= i < |parts| ==> GoodPart(parts[i])
  }

  lemma HexHasNoReturn(d: string)
    requires AllHex(d)
    ensures NoReturn(d)
  {
  }

  /** A size line is cut off and read. */
  lemma SizeLineRead(size: string, ext: string, more: string)
    requires SizeLine(size, ext)
    ensures ReadLine(size + ext + CRLF + more) == LineRead(true, size + ext + CRLF, more)
    ensures Strtoul16(size + ext + CRLF) ==
      (if HexValue(size) > 0xFFFF_FFFF_FFFF_FFFF then 0xFFFF_FFFF_FFFF_FFFF else HexValue(size), true)
  {
    hide ReadLine, Strtoul16, HexValue;
    HexHasNoReturn(size);
    assert NoReturn(size + ext);
    LineOf(size + ext, more);
    var r := ext + CRLF;
    assert r[0] == if ext == "" then '\r' else ext[0];
    NumberRead("", "", "", size, r);
    assert "" + ("" + ("" + (size + r))) == size + ext + CRLF;
  }

  lemma PartRead(declared: string -> bool, p: Part, more: string, delivered: string, total: nat, max: nat)
    requires GoodPart(p) && total + |p.data| <= max
    ensures Resume(declared, PartText(p) + more, delivered, total, max)
      == Resume(declared, more, delivered + p.data, total + |p.data|, max)
  {
    hide ReadLine, Strtoul16, TakeChunk, HexValue;
    var line, rest := p.size + p.ext + CRLF, p.data + CRLF + more;
    SizeLineRead(p.size, p.ext, rest);
    Associate(line, p.data + CRLF, more);
    assert PartText(p) + more == line + rest;
    ChunkTakenOut(p.data, more);
    ChunkTaken(Reading(Strtoul16, declared), Resume(declared, line + rest, delivered, total, max), line, rest,
      delivered, total, max, |p.data|, TakeChunk(rest, |p.data|));
  }

  lemma {:induction false} PartsRead(declared: string -> bool, parts: seq<Part>, more: string, max: nat)
    requires GoodParts(parts) && |DataOf(parts)| <= max
    ensures Decode(declared, PartsText(parts) + more, max) == Resume(declared, more, DataOf(parts), |DataOf(parts)|, max)
  {
    hide Resume, PartText, GoodPart;
    if parts == [] {
      assert "" + more == more;
      FromTheStart(declared, more, max);
    } else {
      var init, p := parts[..|parts| - 1], parts[|parts| - 1];
      Associate(PartsText(init), PartText(p), more);
      PartsRead(declared, init, PartText(p) + more, max);
      PartRead(declared, p, more, DataOf(init), |DataOf(init)|, max);
    }
  }

  lemma FromTheStart(declared: string -> bool, bytes: string, max: nat)
    ensures Decode(declared, bytes, max) == Resume(declared, bytes, "", 0, max)
  {
  }

  // ----- the trailer -----

  function TrailerText(lines: seq<string>): string {
    if lines == [] then "" else lines[0] + CRLF + TrailerText(lines[1..])
  }

  predicate TrailerLines(lines: seq<string>) {
    forall i :: 0 <= i < |lines| ==> lines[i] != "" && NoReturn(lines[i]) && |lines[i]| <= 32766
  }

  /** The lines that hold a field which the message declared. */
  function DeclaredIn(declared: string -> bool, lines: seq<string>): nat {
    if lines == [] then 0 else (if declared(lines[0] + CRLF) then 1 else 0) + DeclaredIn(declared, lines[1..])
  }

  /** No line is longer than 8192 bytes, and at most 99 fields are declared before the
      last line. */
  predicate TrailerFits(declared: string -> bool, lines: seq<string>, count: nat) {
    && (forall i :: 0 <= i < |lines| ==> |lines[i]| + 2 <= 8192)
    && (lines != [] ==> count + DeclaredIn(declared, lines[..|lines| - 1]) < 100)
  }

  lemma DeclaredAhead(declared: string -> bool, lines: seq<string>)
    requires |lines| >= 2
    ensures DeclaredIn(declared, lines[..|lines| - 1]) ==
      (if declared(lines[0] + CRLF) then 1 else 0) + DeclaredIn(declared, lines[1..][..|lines| - 2])
  {
    assert lines[..|lines| - 1][1..] == lines[1..][..|lines| - 2];
  }

  /** The rest of a trailer, of which the first line has been read. */
  lemma {:induction false} TrailerRead(declared: string -> bool, lines: seq<string>, more: string, count: nat)
    requires TrailerLines(lines)
    ensures var r := ReadLine(TrailerText(lines) + CRLF + more);
      var d := Trailer(declared, r.line, r.left, count);
      && r.ok && d.delivered == ""
      && (d.status == Success <==> TrailerFits(declared, lines, count)) && (d.status == Success || d.status == Failure)
      && (d.status == Success ==> d.left == more)
    decreases |lines|
  {
    hide ReadLine, DeclaredIn;
    if lines == [] {
      LineOf("", more);
      assert TrailerText(lines) + CRLF + more == "" + CRLF + more && "" + CRLF == CRLF;
    } else {
      var l, rest := lines[0], TrailerText(lines[1..]) + CRLF + more;
      LineOf(l, rest);
      assert TrailerText(lines) + CRLF + more == l + CRLF + rest;
      assert |l + CRLF| != 2;
      TrailerRead(declared, lines[1..], more, if declared(l + CRLF) then count + 1 else count);
      FitsAhead(declared, lines, count);
    }
  }

  lemma FitsAhead(declared: string -> bool, lines: seq<string>, count: nat)
    requires lines != []
    ensures TrailerFits(declared, lines, count) <==>
      && |lines[0]| + 2 <= 8192 && count < 100
      && TrailerFits(declared, lines[1..], if declared(lines[0] + CRLF) then count + 1 else count)
  {
    if |lines| == 1 {
      assert lines[..0] == [];
    } else {
      DeclaredAhead(declared, lines);
    }
    assert forall i :: 1 <= i < |lines| ==> lines[i] == lines[1..][i - 1];
  }

  /** Every body within the payload limit is decoded, in whatever letter case its sizes
      are written and with whatever extensions, exactly when its trailer fits; its data
      is delivered in either case. */
  lemma AnyBodyDecoded(declared: string -> bool, parts: seq<Part>, zero: string, ext: string, lines: seq<string>,
      more: string, max: nat)
    requires GoodParts(parts) && SizeLine(zero, ext) && HexValue(zero) == 0 && TrailerLines(lines)
    requires |DataOf(parts)| <= max
    ensures var d := Decode(declared, PartsText(parts) + (zero + ext + CRLF + (TrailerText(lines) + CRLF + more)), max);
      && d.delivered == DataOf(parts)
      && (d.status == Success <==> TrailerFits(declared, lines, 0)) && (d.status == Success || d.status == Failure)
      && (d.status == Success ==> d.left == more)
  {
    hide ReadLine, Strtoul16, HexValue, Trailer, TrailerFits, Decode;
    var rest := TrailerText(lines) + CRLF + more;
    PartsRead(declared, parts, zero + ext + CRLF + rest, max);
    SizeLineRead(zero, ext, rest);
    TrailerRead(declared, lines, more, 0);
  }

  /** The stream may also end right after the last chunk's size line. */
  lemma EndsAfterZero(declared: string -> bool, parts: seq<Part>, zero: string, ext: string, max: nat)
    requires GoodParts(parts) && SizeLine(zero, ext) && HexValue(zero) == 0 && |DataOf(parts)| <= max
    ensures Decode(declared, PartsText(parts) + (zero + ext + CRLF), max) == Decoded(Success, DataOf(parts), "")
  {
    hide Strtoul16, HexValue, Trailer, Decode;
    PartsRead(declared, parts, zero + ext + CRLF, max);
    SizeLineRead(zero, ext, "");
    assert zero + ext + CRLF + "" == zero + ext + CRLF;
    assert Find("", CRLF) == None;
  }

  // ----- bodies that are refused -----

  /** The payload limit stops the decoder at the size line of the first chunk that would
      go beyond it, and a size of 64 ones or more at its line. */
  lemma SizeRefused(declared: string -> bool, parts: seq<Part>, size: string, ext: string, more: string, max: nat)
    requires GoodParts(parts) && SizeLine(size, ext) && HexValue(size) > 0 && |DataOf(parts)| <= max
    requires HexValue(size) >= 0xFFFF_FFFF_FFFF_FFFF || |DataOf(parts)| + HexValue(size) > max
    ensures Decode(declared, PartsText(parts) + (size + ext + CRLF + more), max) ==
      Decoded(if HexValue(size) >= 0xFFFF_FFFF_FFFF_FFFF then Failure else PayloadTooLarge, DataOf(parts), more)
  {
    hide ReadLine, Strtoul16, HexValue, Decode, TakeChunk;
    PartsRead(declared, parts, size + ext + CRLF + more, max);
    SizeLineRead(size, ext, more);
  }

  /** A chunk of which not all data arrives is delivered as far as it does, and one that
      does not end in a line end is delivered; then the decoder fails. */
  lemma BrokenChunk(declared: string -> bool, parts: seq<Part>, size: string, ext: string, data: string, max: nat)
    requires GoodParts(parts) && SizeLine(size, ext) && 0 < HexValue(size) < 0xFFFF_FFFF_FFFF_FFFF
    requires |DataOf(parts)| + HexValue(size) <= max
    requires |data| > HexValue(size) ==> data[HexValue(size)] != '\r'
    ensures var d := Decode(declared, PartsText(parts) + (size + ext + CRLF + data), max);
      && d.status == Failure
      && d.delivered == DataOf(parts) + if |data| <= HexValue(size) then data else data[..HexValue(size)]
  {
    hide ReadLine, Strtoul16, HexValue, Decode;
    var n := HexValue(size);
    PartsRead(declared, parts, size + ext + CRLF + data, max);
    SizeLineRead(size, ext, data);
    if |data| >= n {
      NoLineEndFirst(data[n..]);
      assert |data| == n ==> data[..n] == data;
    }
  }

  lemma NoLineEndFirst(t: string)
    requires t != "" ==> t[0] != '\r'
    ensures ReadLine(t).ok ==> ReadLine(t).line != CRLF
  {
    if t != "" {
      NotAt(t, CRLF, 0, 0);
      assert ReadLine(t).line != "" ==> ReadLine(t).line[0] == (ReadLine(t).line + ReadLine(t).left)[0];
    }
  }

  /** A line that does not start with a number is no size line. */
  lemma NoSize(declared: string -> bool, parts: seq<Part>, line: string, more: string, max: nat)
    requires GoodParts(parts) && |DataOf(parts)| <= max && NoReturn(line) && line != "" && |line| <= 32766
    requires line[0] != ' ' && !(9 <= line[0] as int <= 13) && line[0] != '+' && line[0] != '-' && !HexCode(line[0])
    ensures Decode(declared, PartsText(parts) + (line + CRLF + more), max) == Decoded(Failure, DataOf(parts), more)
  {
    hide ReadLine, Strtoul16, Decode;
    PartsRead(declared, parts, line + CRLF + more, max);
    LineOf(line, more);
    NoNumber("", line + CRLF);
    assert "" + (line + CRLF) == line + CRLF;
  }

  /** Nor is a line of more than 32768 bytes read. */
  lemma LongLine(t: string)
    requires |t| >= 32768 && forall i :: 0 <= i < 32767 ==> t[i] != '\r' || t[i + 1] != '\n'
    ensures ReadLine(t) == LineRead(false, t[..32768], t[32768..])
  {
    forall j | 0 <= j < 32767 ensures !At(t, CRLF, j) {
      NotAt(t, CRLF, j, if t[j] == '\r' then 1 else 0);
    }
  }
}
